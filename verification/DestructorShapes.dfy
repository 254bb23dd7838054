/**
 * Which types the generated destructors work for.  For a struct that is not
 * accepted there is always an object tree, with every block owned once, on which
 * the generated routine fails or leaves a block behind; so the accepted structs are
 * exactly right.
 */
module DestructorShapes {
  import opened Wrappers
  import Seqs
  import opened CTypes
  import opened MiniC
  import opened Destructor

  // ---------------------------------------------------------------------
  // A full tree of every type: no null pointers, one element a list

  /** A tree of type t whose blocks are numbered from n on in release order, and the next free number. */
  ghost function Witness(tables: Tables, rank: string -> nat, t: string, n: nat): (Obj, nat)
    requires Ranked(tables, rank) && rank(t) > 0
    decreases rank(t), 0
  {
    assert Falls(rank, t, Classify(tables, t));
    match Classify(tables, t)
    case ListOf(b) => var w := Witness(tables, rank, b, n); (ListObj(w.1, [w.0]), w.1 + 1)
    case PointerTo(b) => var w := Witness(tables, rank, b, n); (PointerObj(w.1, w.0), w.1 + 1)
    case StructOf(fs) =>
      var w := WitnessFields(tables, rank, t, fs, n);
      (StructObj(seq(|fs|, i requires 0 <= i < |fs| => fs[i].name), w.0), w.1)
    case Alias(b) => Witness(tables, rank, b, n)
    case Delegated(_, target) => WitnessLeaf(LeafOf(tables, target), n)
    case Foreign(target) => WitnessLeaf(LeafOf(tables, target), n)
    case Text => (TextObj(n), n + 1)
    case Plain => (PlainObj, n)
  }

  function WitnessLeaf(leaf: Leaf, n: nat): (Obj, nat) {
    match leaf
    case Nothing => (PlainObj, n)
    case Characters => (TextObj(n), n + 1)
    case Blocks => (DelegatedObj([n], [n + 1]), n + 2)
  }

  ghost function WitnessFields(tables: Tables, rank: string -> nat, t: string, fs: seq<Field>, n: nat): (seq<Obj>, nat)
    requires Ranked(tables, rank) && rank(t) > 0
    requires forall i :: 0 <= i < |fs| ==> 0 < rank(fs[i].cType) < rank(t)
    decreases rank(t), 0, |fs|
  {
    if fs == [] then ([], n)
    else
      var w := Witness(tables, rank, fs[0].cType, n);
      var rest := WitnessFields(tables, rank, t, fs[1..], w.1);
      ([w.0] + rest.0, rest.1)
  }

  function Interval(n: nat, m: nat): seq<Addr>
    requires n <= m
  {
    seq(m - n, i requires 0 <= i < m - n => n + i)
  }

  lemma IntervalAppend(n: nat, m: nat, k: nat)
    requires n <= m <= k
    ensures Interval(n, m) + Interval(m, k) == Interval(n, k)
  {
  }

  lemma OneElement(o: Obj)
    ensures TeardownBack([o], false) == Teardown(o, false)
  {
    assert [o][1..] == [];
  }

  lemma {:induction false} WitnessFits(tables: Tables, rank: string -> nat, t: string, n: nat)
    requires Ranked(tables, rank) && rank(t) > 0
    ensures var w := Witness(tables, rank, t, n);
      n <= w.1 && HasType(tables, rank, t, w.0) && Teardown(w.0, false) == Interval(n, w.1)
    decreases rank(t), 1
  {
    assert Falls(rank, t, Classify(tables, t));
    match Classify(tables, t)
    case ListOf(b) =>
      WitnessFits(tables, rank, b, n);
      FitsOneMore(tables, rank, t, b, n);
    case PointerTo(b) =>
      WitnessFits(tables, rank, b, n);
      FitsOneMore(tables, rank, t, b, n);
    case StructOf(fs) =>
      WitnessFieldsFit(tables, rank, t, fs, n);
      StructFits(tables, rank, t, fs, n);
    case Alias(b) => WitnessFits(tables, rank, b, n);
    case Delegated(_, target) => LeafFits(LeafOf(tables, target), n);
    case Foreign(target) => LeafFits(LeafOf(tables, target), n);
    case Text => LeafFits(Characters, n);
    case Plain => LeafFits(Nothing, n);
  }

  lemma StructFits(tables: Tables, rank: string -> nat, t: string, fs: seq<Field>, n: nat)
    requires Ranked(tables, rank) && rank(t) > 0 && Classify(tables, t) == StructOf(fs)
    requires forall i :: 0 <= i < |fs| ==> 0 < rank(fs[i].cType) < rank(t)
    requires var w := WitnessFields(tables, rank, t, fs, n);
      && n <= w.1 && |w.0| == |fs|
      && (forall i :: 0 <= i < |fs| ==> HasType(tables, rank, fs[i].cType, w.0[i]))
      && TeardownAll(w.0, false) == Interval(n, w.1)
    ensures var w := Witness(tables, rank, t, n);
      n <= w.1 && HasType(tables, rank, t, w.0) && Teardown(w.0, false) == Interval(n, w.1)
  {
  }

  lemma LeafFits(leaf: Leaf, n: nat)
    ensures var w := WitnessLeaf(leaf, n); n <= w.1 && HasLeaf(leaf, w.0) && Teardown(w.0, false) == Interval(n, w.1)
    ensures |Teardown(WitnessLeaf(leaf, n).0, false)| > 0 <==> leaf != Nothing
  {
    assert Interval(n, n) == [] && Interval(n, n + 1) == [n] && Interval(n, n + 2) == [n] + [n + 1];
  }

  /** A list or pointer around a fitting witness. */
  lemma FitsOneMore(tables: Tables, rank: string -> nat, t: string, b: string, n: nat)
    requires Ranked(tables, rank) && rank(t) > 0 && 0 < rank(b) < rank(t)
    requires Classify(tables, t) == ListOf(b) || Classify(tables, t) == PointerTo(b)
    requires var w := Witness(tables, rank, b, n);
      n <= w.1 && HasType(tables, rank, b, w.0) && Teardown(w.0, false) == Interval(n, w.1)
    ensures var w := Witness(tables, rank, t, n);
      n <= w.1 && HasType(tables, rank, t, w.0) && Teardown(w.0, false) == Interval(n, w.1)
  {
    var w := Witness(tables, rank, b, n);
    AroundTeardown(w.0, n, w.1);
  }

  lemma AroundTeardown(o: Obj, n: nat, m: nat)
    requires n <= m && Teardown(o, false) == Interval(n, m)
    ensures Teardown(ListObj(m, [o]), false) == Interval(n, m + 1)
    ensures Teardown(PointerObj(m, o), false) == Interval(n, m + 1)
  {
    OneElement(o);
    IntervalAppend(n, m, m + 1);
    assert Interval(m, m + 1) == [m];
  }

  lemma {:induction false} WitnessFieldsFit(tables: Tables, rank: string -> nat, t: string, fs: seq<Field>, n: nat)
    requires Ranked(tables, rank) && rank(t) > 0
    requires forall i :: 0 <= i < |fs| ==> 0 < rank(fs[i].cType) < rank(t)
    ensures var w := WitnessFields(tables, rank, t, fs, n);
      && n <= w.1 && |w.0| == |fs|
      && (forall i :: 0 <= i < |fs| ==> HasType(tables, rank, fs[i].cType, w.0[i]))
      && TeardownAll(w.0, false) == Interval(n, w.1)
    decreases rank(t), 0, |fs|
  {
    if fs != [] {
      WitnessFits(tables, rank, fs[0].cType, n);
      var w := Witness(tables, rank, fs[0].cType, n);
      WitnessFieldsFit(tables, rank, t, fs[1..], w.1);
      var rest := WitnessFields(tables, rank, t, fs[1..], w.1);
      IntervalAppend(n, w.1, rest.1);
      assert ([w.0] + rest.0)[1..] == rest.0;
    }
  }

  /** The object the witness puts in field k. */
  lemma {:induction false} WitnessField(tables: Tables, rank: string -> nat, t: string, fs: seq<Field>, n: nat, k: nat)
    returns (m: nat)
    requires Ranked(tables, rank) && rank(t) > 0 && k < |fs|
    requires forall i :: 0 <= i < |fs| ==> 0 < rank(fs[i].cType) < rank(t)
    ensures var w := WitnessFields(tables, rank, t, fs, n);
      |w.0| == |fs| && w.0[k] == Witness(tables, rank, fs[k].cType, m).0
    decreases k
  {
    WitnessFieldsFit(tables, rank, t, fs, n);
    if k == 0 {
      m := n;
    } else {
      m := WitnessField(tables, rank, t, fs[1..], Witness(tables, rank, fs[0].cType, n).1, k - 1);
    }
  }

  // ---------------------------------------------------------------------
  // Outside the accepted types the code fails on the witness or leaves a block

  /** The run fails, or releases at most n blocks. */
  predicate FreesAtMost(r: Option<State>, s: State, n: int) {
    r.Some? ==> |r.value.freed| <= |s.freed| + n
  }

  /** How many blocks the code for the witness can release: all it owns, or fewer if it is not accepted. */
  ghost function Reach(tables: Tables, rank: string -> nat, depth: nat, t: string, n: nat,
                       prefix: Access, op: Access, name: Access): int
    requires Ranked(tables, rank) && rank(t) > 0
  {
    |Teardown(Witness(tables, rank, t, n).0, false)|
    - if Accepted(tables, rank, depth, t, prefix, op, name) then 0 else 1
  }

  lemma ThenAtMost(a: seq<Stmt>, b: seq<Stmt>, c: Call, idx: Indexes, s: State, m: int, n: int)
    requires FreesAtMost(Run(a, c, idx, s), s, m)
    requires Run(a, c, idx, s).Some? ==>
      FreesAtMost(Run(b, c, idx, Run(a, c, idx, s).value), Run(a, c, idx, s).value, n)
    ensures FreesAtMost(Run(a + b, c, idx, s), s, m + n)
  {
    RunAppend(a, b, c, idx, s);
  }

  lemma FreeAtMostOne(p: Access, c: Call, idx: Indexes, s: State)
    ensures FreesAtMost(Run([Free(p)], c, idx, s), s, 1)
  {
    RunSingle(Free(p), c, idx, s);
  }

  lemma {:induction false} ReleasedCount(s: State, ts: seq<Addr>)
    ensures FreesAtMost(ReleaseAll(s, ts), s, |ts|)
    decreases |ts|
  {
    if ts != [] && ts[0] in s.live {
      ReleasedCount(Release(s, ts[0]).value, ts[1..]);
    }
  }

  lemma {:induction false} CompileFrees(tables: Tables, rank: string -> nat, depth: nat, t: string, n: nat,
                                       prefix: Access, op: Access, name: Access,
                                       c: Call, idx: Indexes, s: State)
    requires Ranked(tables, rank) && rank(t) > 0 && DistinctFields(tables) && c.routines == tables.routines && !c.json
    requires Denotes(c, idx, prefix, op, name, Witness(tables, rank, t, n).0)
    requires IndexesBelow(prefix + op + name, depth)
    ensures FreesAtMost(Run(Compile(tables, rank, depth, t, prefix, op, name), c, idx, s), s,
                        Reach(tables, rank, depth, t, n, prefix, op, name))
    decreases rank(t), 2
  {
    assert Falls(rank, t, Classify(tables, t));
    match Classify(tables, t)
    case ListOf(b) => ListFrees(tables, rank, depth, t, b, n, prefix, op, name, c, idx, s);
    case PointerTo(b) => PointerFrees(tables, rank, depth, t, b, n, prefix, op, name, c, idx, s);
    case StructOf(fs) => StructFrees(tables, rank, depth, t, fs, n, prefix, op, name, c, idx, s);
    case Alias(b) => CompileFrees(tables, rank, depth, b, n, prefix, op, name, c, idx, s);
    case Text => TextFrees(n, prefix, op, name, c, idx, s);
    case Delegated(r, target) => DestroyFrees(tables, r, target, n, prefix, op, name, c, idx, s);
    case Foreign(target) => ForeignFrees(tables, rank, depth, t, target, n, prefix, op, name, c, idx, s);
    case Plain =>
  }

  lemma TextFrees(n: nat, prefix: Access, op: Access, name: Access, c: Call, idx: Indexes, s: State)
    requires !c.json && Denotes(c, idx, prefix, op, name, TextObj(n))
    ensures FreesAtMost(Run([FreeUnlessJson(prefix + op + name)], c, idx, s), s, if PositionOf(op, name) == Target then 0 else 1)
  {
    RunSingle(FreeUnlessJson(prefix + op + name), c, idx, s);
  }

  /** What is wrongly taken for a scalar is left behind. */
  lemma ForeignFrees(tables: Tables, rank: string -> nat, depth: nat, t: string, target: string, n: nat,
                     prefix: Access, op: Access, name: Access, c: Call, idx: Indexes, s: State)
    requires Ranked(tables, rank) && rank(t) > 0 && Classify(tables, t) == Foreign(target)
    requires c.routines == tables.routines && !c.json
    requires Denotes(c, idx, prefix, op, name, Witness(tables, rank, t, n).0)
    ensures FreesAtMost(Run(Compile(tables, rank, depth, t, prefix, op, name), c, idx, s), s,
                        Reach(tables, rank, depth, t, n, prefix, op, name))
  {
    LeafFits(LeafOf(tables, target), n);
    DestroyFrees(tables, target, target, n, prefix, op, name, c, idx, s);
  }

  /** A call of another routine: there is none, or it is given an object it does not know, or it releases all. */
  lemma DestroyFrees(tables: Tables, r: string, target: string, n: nat, prefix: Access, op: Access, name: Access,
                     c: Call, idx: Indexes, s: State)
    requires c.routines == tables.routines && !c.json
    requires Denotes(c, idx, prefix, op, name, WitnessLeaf(LeafOf(tables, target), n).0)
    ensures FreesAtMost(Run(DestroyCode(r, prefix, op, name), c, idx, s), s,
                        |Teardown(WitnessLeaf(LeafOf(tables, target), n).0, false)|
                        - if Destroyable(tables, r, target) then 0 else 1)
  {
    var stmt := if name == [] then Destroy(r, false, prefix) else Destroy(r, true, prefix + op + name);
    RunSingle(stmt, c, idx, s);
    ReleasedCount(s, [n] + [n + 1]);
  }

  lemma {:induction false} PointerFrees(tables: Tables, rank: string -> nat, depth: nat, t: string, b: string, n: nat,
                                       prefix: Access, op: Access, name: Access,
                                       c: Call, idx: Indexes, s: State)
    requires Ranked(tables, rank) && rank(t) > 0 && DistinctFields(tables) && c.routines == tables.routines && !c.json
    requires Classify(tables, t) == PointerTo(b) && 0 < rank(b) < rank(t)
    requires Denotes(c, idx, prefix, op, name, Witness(tables, rank, t, n).0)
    requires IndexesBelow(prefix + op + name, depth)
    ensures FreesAtMost(Run(Compile(tables, rank, depth, t, prefix, op, name), c, idx, s), s,
                        Reach(tables, rank, depth, t, n, prefix, op, name))
    decreases rank(t), 1
  {
    var base := prefix + op + name;
    var inner := Compile(tables, rank, depth + 1, b, base, [Arrow], []);
    RunSingle(IfNotNull(base, inner + [Free(base)]), c, idx, s);
    if name != [] {
      Seqs.Nothing(base + [Arrow]);
      CompileFrees(tables, rank, depth + 1, b, n, base, [Arrow], [], c, idx, s);
      if Run(inner, c, idx, s).Some? {
        FreeAtMostOne(base, c, idx, Run(inner, c, idx, s).value);
      }
      ThenAtMost(inner, [Free(base)], c, idx, s, Reach(tables, rank, depth + 1, b, n, base, [Arrow], []), 1);
    }
  }

  lemma {:induction false} ListFrees(tables: Tables, rank: string -> nat, depth: nat, t: string, b: string, n: nat,
                                    prefix: Access, op: Access, name: Access,
                                    c: Call, idx: Indexes, s: State)
    requires Ranked(tables, rank) && rank(t) > 0 && DistinctFields(tables) && c.routines == tables.routines && !c.json
    requires Classify(tables, t) == ListOf(b) && 0 < rank(b) < rank(t)
    requires Denotes(c, idx, prefix, op, name, Witness(tables, rank, t, n).0)
    requires IndexesBelow(prefix + op + name, depth)
    ensures FreesAtMost(Run(Compile(tables, rank, depth, t, prefix, op, name), c, idx, s), s,
                        Reach(tables, rank, depth, t, n, prefix, op, name))
    decreases rank(t), 1
  {
    var o := Witness(tables, rank, t, n).0;
    if PositionOf(op, name) == ArrowElement {
      ArrowOnList(tables, rank, depth, t, b, prefix, op, name, c, idx, o, s);
    } else {
      var q, sel := Holder(prefix, op, name), Selector(name);
      HolderHolds(c, idx, depth, prefix, op, name, o);
      ListCode(tables, rank, depth, t, b, prefix, op, name, q, sel);
      ListReach(tables, rank, depth, t, b, n, prefix, op, name, q, sel);
      ElementDenotes(depth, q, sel, c, idx, o, 0);
      CompileFrees(tables, rank, depth + 2, b, n, q, [sel], [Element(depth)], c, idx[depth := 0], s);
      var body := Compile(tables, rank, depth + 2, b, q, [sel], [Element(depth)]);
      LoopFrees(depth, q, sel, body, c, idx, o, s, Reach(tables, rank, depth + 2, b, n, q, [sel], [Element(depth)]));
    }
  }

  lemma ListReach(tables: Tables, rank: string -> nat, depth: nat, t: string, b: string, n: nat,
                  prefix: Access, op: Access, name: Access, q: Access, sel: Token)
    requires Ranked(tables, rank) && Classify(tables, t) == ListOf(b) && 0 < rank(b) < rank(t)
    requires q == Holder(prefix, op, name) && sel == Selector(name)
    requires (name == [] ==> op == [Arrow]) && (name != [] ==> op != [Arrow])
    ensures Reach(tables, rank, depth, t, n, prefix, op, name)
            == Reach(tables, rank, depth + 2, b, n, q, [sel], [Element(depth)]) + 1
  {
    Seqs.Nothing(prefix);
    OneElement(Witness(tables, rank, b, n).0);
  }

  lemma ArrowOnList(tables: Tables, rank: string -> nat, depth: nat, t: string, b: string,
                    prefix: Access, op: Access, name: Access, c: Call, idx: Indexes, o: Obj, s: State)
    requires Ranked(tables, rank) && Classify(tables, t) == ListOf(b) && 0 < rank(b) < rank(t)
    requires Denotes(c, idx, prefix, op, name, o) && o.ListObj? && op == [Arrow] && name != []
    ensures Run(Compile(tables, rank, depth, t, prefix, op, name), c, idx, s) == None
  {
    var base := prefix + op + name;
    WalkStep(c.root, base, Arrow, Items, idx);
    var body := Compile(tables, rank, depth + 2, b, base, [Arrow], [Element(depth)]);
    RunSingle(IfNotNull(base + [Arrow] + [Items],
                        [CountDown(depth, base + [Arrow] + [Count], body), Free(base + [Arrow] + [Items])]),
              c, idx, s);
  }

  /** A list of one element: its body runs once, then at most the list's block is released. */
  lemma LoopFrees(depth: nat, q: Access, sel: Token, body: seq<Stmt>, c: Call, idx: Indexes, o: Obj, s: State, n: int)
    requires o.ListObj? && |o.elems| == 1
    requires |q| > 0 && Container(Walk(c.root, q, idx), sel) == Some(o)
    requires FreesAtMost(Run(body, c, idx[depth := 0], s), s, n)
    ensures FreesAtMost(Run(ListCodeOf(depth, q, sel, body), c, idx, s), s, n + 1)
  {
    var items, count := q + [sel] + [Items], q + [sel] + [Count];
    WalkStep(c.root, q, sel, Count, idx);
    var loop, free := CountDown(depth, count, body), Free(items);
    RunSingle(IfNotNull(items, [loop, free]), c, idx, s);
    WalkStep(c.root, q, sel, Items, idx);
    LoopOnce(depth, body, c, idx, s);
    RunSingle(loop, c, idx, s);
    if Run([loop], c, idx, s).Some? {
      FreeAtMostOne(items, c, idx, Run([loop], c, idx, s).value);
    }
    ThenAtMost([loop], [free], c, idx, s, n, 1);
    assert [loop] + [free] == [loop, free];
  }

  lemma LoopOnce(depth: nat, body: seq<Stmt>, c: Call, idx: Indexes, s: State)
    ensures Loop(depth, 1, body, c, idx, s) == Run(body, c, idx[depth := 0], s)
  {
  }

  lemma {:induction false} StructFrees(tables: Tables, rank: string -> nat, depth: nat, t: string, fs: seq<Field>, n: nat,
                                      prefix: Access, op: Access, name: Access,
                                      c: Call, idx: Indexes, s: State)
    requires Ranked(tables, rank) && rank(t) > 0 && DistinctFields(tables) && c.routines == tables.routines && !c.json
    requires Classify(tables, t) == StructOf(fs) && forall i :: 0 <= i < |fs| ==> 0 < rank(fs[i].cType) < rank(t)
    requires Denotes(c, idx, prefix, op, name, Witness(tables, rank, t, n).0)
    requires IndexesBelow(prefix + op + name, depth)
    ensures FreesAtMost(Run(Compile(tables, rank, depth, t, prefix, op, name), c, idx, s), s,
                        Reach(tables, rank, depth, t, n, prefix, op, name))
    decreases rank(t), 1
  {
    var base, fieldOp := prefix + op + name, FieldOp(op, name);
    var o := Witness(tables, rank, t, n).0;
    WitnessFieldsFit(tables, rank, t, fs, n);
    WitnessStruct(tables, rank, t, fs, n);
    HolderHolds(c, idx, depth, prefix, op, name, o);
    FieldsSit(prefix, op, name);
    FieldNamesDistinct(tables, t, fs);
    FieldsFree(tables, rank, depth + 1, t, fs, n, 0, base, fieldOp, Holder(prefix, op, name), Selector(name), c, idx, o, s);
    BlockFrees(tables, rank, depth, t, fs, n, prefix, op, name, c, idx, s);
  }

  lemma BlockFrees(tables: Tables, rank: string -> nat, depth: nat, t: string, fs: seq<Field>, n: nat,
                   prefix: Access, op: Access, name: Access, c: Call, idx: Indexes, s: State)
    requires Ranked(tables, rank) && rank(t) > 0
    requires Classify(tables, t) == StructOf(fs) && forall i :: 0 <= i < |fs| ==> 0 < rank(fs[i].cType) < rank(t)
    requires |WitnessFields(tables, rank, t, fs, n).0| == |fs|
    requires var base, fieldOp := prefix + op + name, FieldOp(op, name);
      FreesAtMost(Run(CompileFields(tables, rank, depth + 1, t, fs[0..], base, fieldOp), c, idx, s), s,
                  FieldsReach(tables, rank, depth + 1, fs, WitnessFields(tables, rank, t, fs, n).0, 0, base, fieldOp))
    ensures FreesAtMost(Run(Compile(tables, rank, depth, t, prefix, op, name), c, idx, s), s,
                        Reach(tables, rank, depth, t, n, prefix, op, name))
  {
    var values := WitnessFields(tables, rank, t, fs, n).0;
    assert fs[0..] == fs && values[0..] == values;
    RunSingle(Block(CompileFields(tables, rank, depth + 1, t, fs, prefix + op + name, FieldOp(op, name))), c, idx, s);
  }

  /** Where the fields of an item are found. */
  lemma FieldsSit(prefix: Access, op: Access, name: Access)
    requires name == [] ==> op == [Arrow]
    ensures prefix + op + name + FieldOp(op, name) == Holder(prefix, op, name) + [Selector(name)]
  {
  }

  lemma WitnessStruct(tables: Tables, rank: string -> nat, t: string, fs: seq<Field>, n: nat)
    requires Ranked(tables, rank) && rank(t) > 0 && Classify(tables, t) == StructOf(fs)
    requires forall i :: 0 <= i < |fs| ==> 0 < rank(fs[i].cType) < rank(t)
    ensures var o := Witness(tables, rank, t, n).0;
      && o.StructObj? && |o.names| == |fs| && (forall i :: 0 <= i < |fs| ==> o.names[i] == fs[i].name)
      && o.values == WitnessFields(tables, rank, t, fs, n).0
  {
  }

  ghost predicate FieldsAccepted(tables: Tables, rank: string -> nat, depth: nat, fs: seq<Field>, k: nat,
                                 base: Access, op: Access)
    requires Ranked(tables, rank) && k <= |fs| && forall i :: 0 <= i < |fs| ==> rank(fs[i].cType) > 0
  {
    forall i :: k <= i < |fs| ==> Accepted(tables, rank, depth, fs[i].cType, base, op, [Member(fs[i].name)])
  }

  ghost function FieldsReach(tables: Tables, rank: string -> nat, depth: nat, fs: seq<Field>, values: seq<Obj>, k: nat,
                             base: Access, op: Access): int
    requires Ranked(tables, rank) && k <= |fs| == |values| && forall i :: 0 <= i < |fs| ==> rank(fs[i].cType) > 0
  {
    |TeardownAll(values[k..], false)| - if FieldsAccepted(tables, rank, depth, fs, k, base, op) then 0 else 1
  }

  lemma FieldsReachNext(tables: Tables, rank: string -> nat, depth: nat, fs: seq<Field>, values: seq<Obj>, k: nat, m: nat,
                        base: Access, op: Access)
    requires Ranked(tables, rank) && k < |fs| == |values| && forall i :: 0 <= i < |fs| ==> rank(fs[i].cType) > 0
    requires values[k] == Witness(tables, rank, fs[k].cType, m).0
    ensures Reach(tables, rank, depth, fs[k].cType, m, base, op, [Member(fs[k].name)])
            + FieldsReach(tables, rank, depth, fs, values, k + 1, base, op)
            <= FieldsReach(tables, rank, depth, fs, values, k, base, op)
  {
    assert values[k..][0] == values[k] && values[k..][1..] == values[k + 1..];
  }

  /** Field k and those after it. */
  lemma {:induction false} FieldsFree(tables: Tables, rank: string -> nat, depth: nat, t: string, fs: seq<Field>, n: nat,
                                     k: nat, base: Access, op: Access, q: Access, sel: Token,
                                     c: Call, idx: Indexes, o: Obj, s: State)
    requires Ranked(tables, rank) && rank(t) > 0 && DistinctFields(tables) && c.routines == tables.routines && !c.json
    requires k <= |fs| && forall i :: 0 <= i < |fs| ==> 0 < rank(fs[i].cType) < rank(t)
    requires forall i, j :: 0 <= i < j < |fs| ==> fs[i].name != fs[j].name
    requires o.StructObj? && |o.names| == |o.values| == |fs| && forall i :: 0 <= i < |fs| ==> o.names[i] == fs[i].name
    requires o.values == WitnessFields(tables, rank, t, fs, n).0
    requires base + op == q + [sel] && (op == [] || op == [Dot]) && |base| > 0
    requires |q| > 0 && IndexesBelow(q, depth) && !sel.Element?
    requires Container(Walk(c.root, q, idx), sel) == Some(o)
    ensures FreesAtMost(Run(CompileFields(tables, rank, depth, t, fs[k..], base, op), c, idx, s), s,
                        FieldsReach(tables, rank, depth, fs, o.values, k, base, op))
    decreases rank(t), 0, |fs| - k
  {
    if k < |fs| {
      var f := fs[k];
      assert fs[k..][0] == f && fs[k..][1..] == fs[k + 1..];
      var code := Compile(tables, rank, depth, f.cType, base, op, [Member(f.name)]);
      var rest := CompileFields(tables, rank, depth, t, fs[k + 1..], base, op);
      var m := WitnessField(tables, rank, t, fs, n, k);
      FieldDenotes(fs, k, base, op, q, sel, depth, c, idx, o);
      CompileFrees(tables, rank, depth, f.cType, m, base, op, [Member(f.name)], c, idx, s);
      var first := Reach(tables, rank, depth, f.cType, m, base, op, [Member(f.name)]);
      var later := FieldsReach(tables, rank, depth, fs, o.values, k + 1, base, op);
      FieldsReachNext(tables, rank, depth, fs, o.values, k, m, base, op);
      if Run(code, c, idx, s).Some? {
        FieldsFree(tables, rank, depth, t, fs, n, k + 1, base, op, q, sel, c, idx, o, Run(code, c, idx, s).value);
      }
      ThenAtMost(code, rest, c, idx, s, first, later);
    }
  }

  // ---------------------------------------------------------------------

  /** The call on the witness itself, everything live. */
  lemma WitnessOwned(tables: Tables, rank: string -> nat) returns (c: Call, s: State)
    requires Ranked(tables, rank) && rank(tables.structName) > 0
    ensures Owned(tables, rank, c, s) && !c.json && c.freePointers && c.root.PointerObj?
    ensures c.root.target == Witness(tables, rank, tables.structName, 0).0
  {
    WitnessFits(tables, rank, tables.structName, 0);
    var w := Witness(tables, rank, tables.structName, 0);
    c := Call(PointerObj(w.1, w.0), false, true, tables.routines);
    IntervalAppend(0, w.1, w.1 + 1);
    assert Teardown(c.root, false) == Interval(0, w.1 + 1);
    s := State(Addrs(Teardown(c.root, false)), []);
  }

  /** On it the routine of a struct that is not accepted fails, or leaves a block behind. */
  lemma WitnessCall(tables: Tables, rank: string -> nat) returns (c: Call, s: State)
    requires Ranked(tables, rank) && rank(tables.structName) > 0 && DistinctFields(tables) && !RootAccepted(tables, rank)
    ensures Owned(tables, rank, c, s)
    ensures FreesAtMost(Run(Routine(tables, rank), c, map[], s), s, |Released(c)| - 1)
  {
    c, s := WitnessOwned(tables, rank);
    var t := tables.structName;
    CompileFrees(tables, rank, 1, t, 0, [Root], [Arrow], [], c, map[], s);
    var code, last := Compile(tables, rank, 1, t, [Root], [Arrow], []), IfFreePointers([Free([Root]), FreeJson]);
    if Run(code, c, map[], s).Some? {
      LastFrees(c, map[], Run(code, c, map[], s).value);
    }
    ThenAtMost(code, [last], c, map[], s, Reach(tables, rank, 1, t, 0, [Root], [Arrow], []), 1);
  }

  lemma LastFrees(c: Call, idx: Indexes, s: State)
    ensures FreesAtMost(Run([IfFreePointers([Free([Root]), FreeJson])], c, idx, s), s, 1)
  {
    RunSingle(IfFreePointers([Free([Root]), FreeJson]), c, idx, s);
    RunTwo(Free([Root]), FreeJson, c, idx, s);
  }

  // ---------------------------------------------------------------------
  // What that comes to for scalars

  /**
   * The struct name a field is looked up under: the root's own for its fields, none
   * inside an embedded struct, and behind a pointer the name of the pointer field.
   */
  lemma LookedUpUnder(tables: Tables, field: string)
    ensures EmbeddedStructName(tables, [Root, Arrow]) == Some(tables.structName)
    ensures EmbeddedStructName(tables, [Root, Arrow, Member(field)]) == None
    ensures EmbeddedStructName(tables, [Root, Arrow, Member(field), Arrow]) == Some(Unptr(field))
  {
  }

  /** The types the root's fields have. */
  ghost predicate RootField(tables: Tables, rank: string -> nat, f: Field)
    requires Ranked(tables, rank) && rank(tables.structName) > 0
  {
    match Classify(tables, tables.structName)
    case StructOf(fs) => f in fs
    case _ => false
  }

  /** A field whose type is declared as another name of a scalar is enough to reject its struct. */
  lemma ScalarTypedefRejected(tables: Tables, rank: string -> nat, f: Field)
    requires Ranked(tables, rank) && rank(tables.structName) > 0 && RootField(tables, rank, f)
    requires Classify(tables, f.cType).Delegated? && LeafOf(tables, Classify(tables, f.cType).target) != Blocks
    ensures !RootAccepted(tables, rank)
  {
    assert Falls(rank, tables.structName, Classify(tables, tables.structName));
    var fs := Classify(tables, tables.structName).fields;
    var i :| 0 <= i < |fs| && fs[i] == f;
    assert !Accepted(tables, rank, 2, fs[i].cType, [Root, Arrow], [], [Member(f.name)]);
    assert [Root] + [Arrow] + [] == [Root, Arrow];
  }

  /** A foreign scalar is accepted as a field of the root exactly when the table knows it for this struct. */
  lemma ForeignScalarAtRoot(tables: Tables, rank: string -> nat, f: Field)
    requires Ranked(tables, rank) && rank(f.cType) > 0
    requires Classify(tables, f.cType).Foreign? && LeafOf(tables, f.cType) == Nothing
    ensures Accepted(tables, rank, 2, f.cType, [Root, Arrow], [], [Member(f.name)])
            <==> (tables.structName, f.name) in tables.integral
  {
  }

  /** Inside an embedded struct it never is. */
  lemma ForeignScalarEmbedded(tables: Tables, rank: string -> nat, field: string, f: Field)
    requires Ranked(tables, rank) && rank(f.cType) > 0
    requires Classify(tables, f.cType).Foreign? && LeafOf(tables, f.cType) == Nothing
    ensures !Accepted(tables, rank, 3, f.cType, [Root, Arrow, Member(field)], [Dot], [Member(f.name)])
  {
  }

  /** The generated routine is right on every object tree exactly when its struct is accepted. */
  lemma CorrectIffAccepted(tables: Tables, rank: string -> nat)
    requires Ranked(tables, rank) && rank(tables.structName) > 0 && DistinctFields(tables)
    ensures (forall c, s :: Owned(tables, rank, c, s) ==> Releases(tables, rank, c, s)) <==> RootAccepted(tables, rank)
  {
    if RootAccepted(tables, rank) {
      forall c, s | Owned(tables, rank, c, s)
        ensures Releases(tables, rank, c, s)
      {
        RoutineReleases(tables, rank, c, s);
      }
    } else {
      var c, s := WitnessCall(tables, rank);
      assert |After(s, Released(c)).freed| == |s.freed| + |Released(c)|;
      assert !Releases(tables, rank, c, s);
    }
  }
}
