/**
 * The generator of recursive destructors in the Go-to-C tool
 * (gotocjson/gotocjson.go, generate_destroy_PackageName_StructTypeName_ptr_tree),
 * and what the destructors it writes do.
 */
module Destructor {
  import opened Wrappers
  import Seqs
  import opened CTypes
  import opened MiniC

  // ---------------------------------------------------------------------
  // process_item as a function

  /**
   * The statements process_item writes for an item of C type t.  The item is
   * written prefix + op + name; op and name are token lists of length at most
   * one, and an empty name after an arrow stands for the target of prefix.
   */
  function Compile(tables: Tables, ghost rank: string -> nat, depth: nat, t: string,
                   prefix: Access, op: Access, name: Access): seq<Stmt>
    requires Ranked(tables, rank) && rank(t) > 0
    decreases rank(t), 0
  {
    assert Falls(rank, t, Classify(tables, t));
    match Classify(tables, t)
    case ListOf(b) =>
      var base := prefix + (if op == [Arrow] && name == [] then [] else op) + name;
      var fieldOp := if op == [Arrow] then Arrow else Dot;
      var body := Compile(tables, rank, depth + 2, b, base, [fieldOp], [Element(depth)]);
      [IfNotNull(base + [fieldOp] + [Items],
                 [CountDown(depth, base + [fieldOp] + [Count], body), Free(base + [fieldOp] + [Items])])]
    case PointerTo(b) =>
      var base := prefix + op + name;
      [IfNotNull(base, Compile(tables, rank, depth + 1, b, base, [Arrow], []) + [Free(base)])]
    case StructOf(fs) =>
      [Block(CompileFields(tables, rank, depth + 1, t, fs, prefix + op + name, FieldOp(op, name)))]
    case Alias(b) => Compile(tables, rank, depth, b, prefix, op, name)
    case Text => [FreeUnlessJson(prefix + op + name)]
    case Delegated(r, _) => DestroyCode(r, prefix, op, name)
    case Foreign(target) => if TakenForScalar(tables, prefix, name) then [] else DestroyCode(target, prefix, op, name)
    case Plain => []
  }

  function DestroyCode(r: string, prefix: Access, op: Access, name: Access): seq<Stmt> {
    if name == [] then [Destroy(r, false, prefix)] else [Destroy(r, true, prefix + op + name)]
  }

  /** A trailing _ptr is cut off. */
  function Unptr(name: string): string {
    if |name| > 4 && name[|name| - 4..] == "_ptr" then name[..|name| - 4] else name
  }

  /**
   * (?:^|->)(identifier)(?:_ptr)?->$ on a printed prefix: the struct the routine is
   * for when the prefix is the root, otherwise the name of the pointer field before
   * the last arrow, if it is selected by an arrow itself.
   */
  function EmbeddedStructName(tables: Tables, prefix: Access): Option<string> {
    var n := |prefix|;
    if n < 2 || prefix[n - 1] != Arrow then None
    else if n == 2 then if prefix[0] == Root then Some(tables.structName) else None
    else if prefix[n - 2].Member? && prefix[n - 3] == Arrow then Some(Unptr(prefix[n - 2].name))
    else None
  }

  /** The field is looked up under that struct name, and the table says integral. */
  predicate TakenForScalar(tables: Tables, prefix: Access, name: Access) {
    match EmbeddedStructName(tables, prefix)
    case Some(structName) => |name| == 1 && name[0].Member? && (structName, name[0].name) in tables.integral
    case None => false
  }

  function FieldOp(op: Access, name: Access): Access {
    if op == [Arrow] && name == [] then [] else [Dot]
  }

  function CompileFields(tables: Tables, ghost rank: string -> nat, depth: nat, ghost t: string,
                         fs: seq<Field>, base: Access, op: Access): seq<Stmt>
    requires Ranked(tables, rank) && rank(t) > 0
    requires forall i :: 0 <= i < |fs| ==> 0 < rank(fs[i].cType) < rank(t)
    decreases rank(t), 0, |fs|
  {
    if fs == [] then []
    else Compile(tables, rank, depth, fs[0].cType, base, op, [Member(fs[0].name)])
         + CompileFields(tables, rank, depth, t, fs[1..], base, op)
  }

  /** The whole routine for a struct: its fields, then the root and the JSON tree when asked. */
  function Routine(tables: Tables, ghost rank: string -> nat): seq<Stmt>
    requires Ranked(tables, rank) && rank(tables.structName) > 0
  {
    Compile(tables, rank, 1, tables.structName, [Root], [Arrow], []) + [IfFreePointers([Free([Root]), FreeJson])]
  }

  // ---------------------------------------------------------------------
  // Where an item sits

  /**
   * An item is written as a member or list element (`x.f`, `x.items[i]`), as an
   * element of a list behind a pointer (`p->items[i]`), or as a pointer's target.
   */
  datatype Position = Embedded | ArrowElement | Target

  function PositionOf(op: Access, name: Access): Position {
    if name == [] then Target else if op == [Arrow] then ArrowElement else Embedded
  }

  /**
   * The types for which an item's code is right: the printed access expressions are
   * well formed (a pointer's target is not itself a pointer or a text, and the elements
   * of a list behind a pointer are not lists), every routine called exists and is
   * given an object with blocks, and what is taken for a foreign scalar owns nothing.
   */
  predicate Accepted(tables: Tables, ghost rank: string -> nat, depth: nat, t: string,
                     prefix: Access, op: Access, name: Access)
    requires Ranked(tables, rank) && rank(t) > 0
    decreases rank(t)
  {
    assert Falls(rank, t, Classify(tables, t));
    match Classify(tables, t)
    case ListOf(b) =>
      var base := prefix + (if op == [Arrow] && name == [] then [] else op) + name;
      var fieldOp := if op == [Arrow] then Arrow else Dot;
      && PositionOf(op, name) != ArrowElement
      && Accepted(tables, rank, depth + 2, b, base, [fieldOp], [Element(depth)])
    case PointerTo(b) =>
      PositionOf(op, name) != Target && Accepted(tables, rank, depth + 1, b, prefix + op + name, [Arrow], [])
    case StructOf(fs) =>
      forall i :: 0 <= i < |fs| ==>
        Accepted(tables, rank, depth + 1, fs[i].cType, prefix + op + name, FieldOp(op, name), [Member(fs[i].name)])
    case Alias(b) => Accepted(tables, rank, depth, b, prefix, op, name)
    case Text => PositionOf(op, name) != Target
    case Delegated(r, target) => Destroyable(tables, r, target)
    case Foreign(target) =>
      if TakenForScalar(tables, prefix, name) then LeafOf(tables, target) == Nothing
      else Destroyable(tables, target, target)
    case Plain => true
  }

  predicate Destroyable(tables: Tables, r: string, target: string) {
    r in tables.routines && LeafOf(tables, target) == Blocks
  }

  /** prefix, op and name denote object o. */
  ghost predicate Denotes(c: Call, idx: Indexes, prefix: Access, op: Access, name: Access, o: Obj) {
    && |prefix| > 0
    && (op == [] || op == [Arrow] || op == [Dot])
    && (name == [] ==> op == [Arrow] && TargetOf(Walk(c.root, prefix, idx)) == Some(o))
    && (name != [] ==> |name| == 1 && Walk(c.root, prefix + op + name, idx) == Some(Object(o)))
  }

  function TargetOf(v: Option<Value>): Option<Obj> { Container(v, Arrow) }

  /** The blocks read through to reach the item. */
  ghost function Needs(c: Call, idx: Indexes, prefix: Access, op: Access, name: Access): set<Addr> {
    if name == [] then Uses(c.root, prefix, idx) + Through(Walk(c.root, prefix, idx), Arrow, Items)
    else Uses(c.root, prefix + op + name, idx)
  }

  // ---------------------------------------------------------------------
  // Releasing a list of blocks

  /** The blocks of ts are live, distinct and not among those still needed. */
  ghost predicate Releasable(s: State, ts: seq<Addr>, needs: set<Addr>) {
    NoRepeats(ts) && Addrs(ts) <= s.live && needs <= s.live && Addrs(ts) !! needs
  }

  ghost function After(s: State, ts: seq<Addr>): State {
    State(s.live - Addrs(ts), s.freed + ts)
  }

  lemma AfterAppend(s: State, a: seq<Addr>, b: seq<Addr>, needs: set<Addr>)
    requires Releasable(s, a + b, needs)
    ensures Releasable(s, a, needs) && Releasable(After(s, a), b, needs)
    ensures After(After(s, a), b) == After(s, a + b)
  {
    assert Addrs(a + b) == Addrs(a) + Addrs(b) by {
      assert forall x :: x in a + b <==> x in a || x in b;
    }
    assert forall i :: 0 <= i < |a| ==> (a + b)[i] == a[i];
    assert forall i :: 0 <= i < |b| ==> (a + b)[|a| + i] == b[i];
    assert forall x :: x in a && x in b ==> false;
    assert s.freed + a + b == s.freed + (a + b);
  }

  lemma AfterNothing(s: State)
    ensures After(s, []) == s
  {
    assert Addrs([]) == {};
    assert s.freed + [] == s.freed;
  }

  lemma ReleaseOne(s: State, a: Addr, needs: set<Addr>)
    requires Releasable(s, [a], needs)
    ensures Release(s, a) == Some(After(s, [a]))
  {
    assert a in Addrs([a]);
    assert Addrs([a]) == {a};
  }

  lemma {:induction false} ReleaseSeveral(s: State, ts: seq<Addr>, needs: set<Addr>)
    requires Releasable(s, ts, needs)
    ensures ReleaseAll(s, ts) == Some(After(s, ts))
    decreases |ts|
  {
    if ts == [] {
      AfterNothing(s);
    } else {
      assert ts == [ts[0]] + ts[1..];
      AfterAppend(s, [ts[0]], ts[1..], needs);
      ReleaseOne(s, ts[0], needs);
      ReleaseSeveral(After(s, [ts[0]]), ts[1..], needs);
    }
  }

  lemma ChildrenThenBlock(s: State, ts: seq<Addr>, a: Addr, needs: set<Addr>)
    requires Releasable(s, ts + [a], needs)
    ensures Releasable(s, ts, needs + {a}) && a in s.live
    ensures Release(After(s, ts), a) == Some(After(s, ts + [a]))
  {
    AfterAppend(s, ts, [a], needs);
    assert a in Addrs([a]);
    assert a in Addrs(ts + [a]) by { assert (ts + [a])[|ts|] == a; }
    assert a !in ts by {
      assert forall i :: 0 <= i < |ts| ==> ts[i] == (ts + [a])[i];
      assert (ts + [a])[|ts|] == a;
    }
    ReleaseOne(After(s, ts), a, needs);
  }

  // ---------------------------------------------------------------------
  // The code for an item releases exactly what the item owns

  ghost predicate Ready(c: Call, idx: Indexes, depth: nat, prefix: Access, op: Access, name: Access, o: Obj, s: State) {
    && Denotes(c, idx, prefix, op, name, o)
    && IndexesBelow(prefix + op + name, depth)
    && Releasable(s, Teardown(o, c.json), Needs(c, idx, prefix, op, name))
  }

  /** What members and list elements of the item are selected from, and how. */
  ghost function Holder(prefix: Access, op: Access, name: Access): Access {
    if name == [] then prefix else prefix + op + name
  }

  ghost function Selector(name: Access): Token { if name == [] then Arrow else Dot }

  lemma HolderHolds(c: Call, idx: Indexes, depth: nat, prefix: Access, op: Access, name: Access, o: Obj)
    requires Denotes(c, idx, prefix, op, name, o) && !o.PointerObj?
    requires IndexesBelow(prefix + op + name, depth)
    ensures var q := Holder(prefix, op, name);
      && |q| > 0 && IndexesBelow(q, depth)
      && Container(Walk(c.root, q, idx), Selector(name)) == Some(o)
      && Needs(c, idx, prefix, op, name)
         == Uses(c.root, q, idx) + Through(Walk(c.root, q, idx), Selector(name), Items)
  {
    if name == [] {
      var p := prefix + op + name;
      assert forall i :: 0 <= i < |prefix| ==> prefix[i] == p[i];
    }
  }

  lemma {:induction false} CompileRuns(tables: Tables, rank: string -> nat, depth: nat, t: string,
                                      prefix: Access, op: Access, name: Access,
                                      c: Call, idx: Indexes, o: Obj, s: State)
    requires Ranked(tables, rank) && rank(t) > 0 && DistinctFields(tables) && c.routines == tables.routines
    requires HasType(tables, rank, t, o) && Accepted(tables, rank, depth, t, prefix, op, name)
    requires Ready(c, idx, depth, prefix, op, name, o, s)
    ensures Run(Compile(tables, rank, depth, t, prefix, op, name), c, idx, s)
            == Some(After(s, Teardown(o, c.json)))
    decreases rank(t), 2
  {
    assert Falls(rank, t, Classify(tables, t));
    match Classify(tables, t)
    case ListOf(b) => ListRuns(tables, rank, depth, t, b, prefix, op, name, c, idx, o, s);
    case PointerTo(b) => PointerRuns(tables, rank, depth, t, b, prefix, op, name, c, idx, o, s);
    case StructOf(fs) => StructRuns(tables, rank, depth, t, fs, prefix, op, name, c, idx, o, s);
    case Alias(b) => CompileRuns(tables, rank, depth, b, prefix, op, name, c, idx, o, s);
    case Text => TextRuns(prefix, op, name, c, idx, o, s);
    case Delegated(r, _) => DelegatedRuns(r, prefix, op, name, c, idx, o, s);
    case Foreign(target) =>
      if TakenForScalar(tables, prefix, name) {
        AfterNothing(s);
      } else {
        DelegatedRuns(target, prefix, op, name, c, idx, o, s);
      }
    case Plain => AfterNothing(s);
  }

  lemma TextRuns(prefix: Access, op: Access, name: Access, c: Call, idx: Indexes, o: Obj, s: State)
    requires Denotes(c, idx, prefix, op, name, o) && name != [] && (o.NullText? || o.TextObj?)
    requires Releasable(s, Teardown(o, c.json), Needs(c, idx, prefix, op, name))
    ensures Run([FreeUnlessJson(prefix + op + name)], c, idx, s) == Some(After(s, Teardown(o, c.json)))
  {
    var p := prefix + op + name;
    RunSingle(FreeUnlessJson(p), c, idx, s);
    if c.json || o.NullText? {
      AfterNothing(s);
    } else {
      ReleaseOne(s, o.addr, Needs(c, idx, prefix, op, name));
    }
  }

  lemma DelegatedRuns(r: string, prefix: Access, op: Access, name: Access, c: Call, idx: Indexes, o: Obj, s: State)
    requires Denotes(c, idx, prefix, op, name, o) && o.DelegatedObj? && r in c.routines
    requires Releasable(s, Teardown(o, c.json), Needs(c, idx, prefix, op, name))
    ensures Run(DestroyCode(r, prefix, op, name), c, idx, s) == Some(After(s, Teardown(o, c.json)))
  {
    if name == [] {
      TargetDestroyed(r, prefix, op, c, idx, o, s);
      RunSingle(Destroy(r, false, prefix), c, idx, s);
    } else {
      EmbeddedDestroyed(r, prefix, op, name, c, idx, o, s);
      RunSingle(Destroy(r, true, prefix + op + name), c, idx, s);
    }
    ReleaseSeveral(s, Teardown(o, c.json), Needs(c, idx, prefix, op, name));
  }

  lemma TargetDestroyed(r: string, prefix: Access, op: Access, c: Call, idx: Indexes, o: Obj, s: State)
    requires Denotes(c, idx, prefix, op, [], o) && o.DelegatedObj? && r in c.routines
    requires Needs(c, idx, prefix, op, []) <= s.live
    ensures RunOne(Destroy(r, false, prefix), c, idx, s) == ReleaseAll(s, Teardown(o, c.json))
  {
  }

  lemma EmbeddedDestroyed(r: string, prefix: Access, op: Access, name: Access, c: Call, idx: Indexes, o: Obj, s: State)
    requires Denotes(c, idx, prefix, op, name, o) && name != [] && o.DelegatedObj? && r in c.routines
    requires Needs(c, idx, prefix, op, name) <= s.live
    ensures RunOne(Destroy(r, true, prefix + op + name), c, idx, s) == ReleaseAll(s, Teardown(o, c.json))
  {
  }

  lemma {:induction false} PointerRuns(tables: Tables, rank: string -> nat, depth: nat, t: string, b: string,
                                      prefix: Access, op: Access, name: Access,
                                      c: Call, idx: Indexes, o: Obj, s: State)
    requires Ranked(tables, rank) && DistinctFields(tables) && c.routines == tables.routines
    requires Classify(tables, t) == PointerTo(b) && 0 < rank(b) < rank(t)
    requires HasType(tables, rank, t, o) && Accepted(tables, rank, depth, t, prefix, op, name)
    requires Ready(c, idx, depth, prefix, op, name, o, s)
    ensures Run(Compile(tables, rank, depth, t, prefix, op, name), c, idx, s)
            == Some(After(s, Teardown(o, c.json)))
    decreases rank(t), 0
  {
    var base := prefix + op + name;
    var inner := Compile(tables, rank, depth + 1, b, base, [Arrow], []);
    if o.PointerObj? {
      ChildrenThenBlock(s, Teardown(o.target, c.json), o.addr, Needs(c, idx, prefix, op, name));
      Seqs.Nothing(base + [Arrow]);
      CompileRuns(tables, rank, depth + 1, b, base, [Arrow], [], c, idx, o.target, s);
    }
    GuardedRuns(base, inner, c, idx, o, s);
  }

  /** The null check, the code for the target, then the block itself. */
  lemma GuardedRuns(base: Access, inner: seq<Stmt>, c: Call, idx: Indexes, o: Obj, s: State)
    requires (o.NullPointer? || o.PointerObj?) && Walk(c.root, base, idx) == Some(Object(o))
    requires Releasable(s, Teardown(o, c.json), Uses(c.root, base, idx))
    requires o.PointerObj? ==> Run(inner, c, idx, s) == Some(After(s, Teardown(o.target, c.json)))
    ensures Run([IfNotNull(base, inner + [Free(base)])], c, idx, s) == Some(After(s, Teardown(o, c.json)))
  {
    RunSingle(IfNotNull(base, inner + [Free(base)]), c, idx, s);
    if o.NullPointer? {
      AfterNothing(s);
    } else {
      var ts := Teardown(o.target, c.json);
      ChildrenThenBlock(s, ts, o.addr, Uses(c.root, base, idx));
      RunAppend(inner, [Free(base)], c, idx, s);
      RunSingle(Free(base), c, idx, After(s, ts));
    }
  }

  lemma {:induction false} StructRuns(tables: Tables, rank: string -> nat, depth: nat, t: string, fs: seq<Field>,
                                     prefix: Access, op: Access, name: Access,
                                     c: Call, idx: Indexes, o: Obj, s: State)
    requires Ranked(tables, rank) && rank(t) > 0 && DistinctFields(tables) && c.routines == tables.routines
    requires Classify(tables, t) == StructOf(fs)
    requires forall i :: 0 <= i < |fs| ==> 0 < rank(fs[i].cType) < rank(t)
    requires HasType(tables, rank, t, o) && Accepted(tables, rank, depth, t, prefix, op, name)
    requires Ready(c, idx, depth, prefix, op, name, o, s)
    ensures Run(Compile(tables, rank, depth, t, prefix, op, name), c, idx, s)
            == Some(After(s, Teardown(o, c.json)))
    decreases rank(t), 1
  {
    var base := prefix + op + name;
    var fieldOp := FieldOp(op, name);
    HolderHolds(c, idx, depth, prefix, op, name, o);
    var q := Holder(prefix, op, name);
    assert base + fieldOp == q + [Selector(name)];
    StructParts(tables, rank, depth, t, fs, prefix, op, name, o);
    assert fs[0..] == fs && o.values[0..] == o.values;
    FieldsRun(tables, rank, depth + 1, t, fs, 0, base, fieldOp, q, Selector(name), c, idx, o, s);
    BlockRuns(tables, rank, depth, t, fs, prefix, op, name, c, idx, s);
  }

  lemma StructParts(tables: Tables, rank: string -> nat, depth: nat, t: string, fs: seq<Field>,
                    prefix: Access, op: Access, name: Access, o: Obj)
    requires Ranked(tables, rank) && rank(t) > 0 && DistinctFields(tables) && Classify(tables, t) == StructOf(fs)
    requires forall i :: 0 <= i < |fs| ==> 0 < rank(fs[i].cType) < rank(t)
    requires HasType(tables, rank, t, o) && Accepted(tables, rank, depth, t, prefix, op, name)
    ensures forall i, j :: 0 <= i < j < |fs| ==> fs[i].name != fs[j].name
    ensures o.StructObj? && |o.names| == |o.values| == |fs|
    ensures forall i :: 0 <= i < |fs| ==>
      && o.names[i] == fs[i].name && HasType(tables, rank, fs[i].cType, o.values[i])
      && Accepted(tables, rank, depth + 1, fs[i].cType, prefix + op + name, FieldOp(op, name), [Member(fs[i].name)])
    ensures forall json :: Teardown(o, json) == TeardownAll(o.values, json)
  {
    FieldNamesDistinct(tables, t, fs);
  }

  lemma BlockRuns(tables: Tables, rank: string -> nat, depth: nat, t: string, fs: seq<Field>,
                  prefix: Access, op: Access, name: Access, c: Call, idx: Indexes, s: State)
    requires Ranked(tables, rank) && rank(t) > 0 && Classify(tables, t) == StructOf(fs)
    requires forall i :: 0 <= i < |fs| ==> 0 < rank(fs[i].cType) < rank(t)
    ensures Run(Compile(tables, rank, depth, t, prefix, op, name), c, idx, s)
            == Run(CompileFields(tables, rank, depth + 1, t, fs, prefix + op + name, FieldOp(op, name)), c, idx, s)
  {
    var body := CompileFields(tables, rank, depth + 1, t, fs, prefix + op + name, FieldOp(op, name));
    assert Compile(tables, rank, depth, t, prefix, op, name) == [Block(body)];
    BlockAlone(body, c, idx, s);
  }

  lemma BlockAlone(body: seq<Stmt>, c: Call, idx: Indexes, s: State)
    ensures Run([Block(body)], c, idx, s) == Run(body, c, idx, s)
  {
    RunSingle(Block(body), c, idx, s);
  }

  lemma FieldNamesDistinct(tables: Tables, t: string, fs: seq<Field>)
    requires DistinctFields(tables) && Classify(tables, t) == StructOf(fs)
    ensures forall i, j :: 0 <= i < j < |fs| ==> fs[i].name != fs[j].name
  {
    assert t in tables.structFields && |fs| == |tables.structFields[t]|;
    assert forall i :: 0 <= i < |fs| ==> fs[i].name == tables.structFields[t][i];
  }

  lemma {:induction false} FindsField(names: seq<string>, k: nat)
    requires k < |names| && forall i, j :: 0 <= i < j < |names| ==> names[i] != names[j]
    ensures FieldIndex(names, names[k]) == Some(k)
  {
    if k > 0 {
      FindsField(names[1..], k - 1);
    }
  }

  /** Field k and those after it. */
  lemma {:induction false} FieldsRun(tables: Tables, rank: string -> nat, depth: nat, t: string, fs: seq<Field>, k: nat,
                                    base: Access, op: Access, q: Access, sel: Token,
                                    c: Call, idx: Indexes, o: Obj, s: State)
    requires Ranked(tables, rank) && rank(t) > 0 && DistinctFields(tables) && c.routines == tables.routines
    requires k <= |fs|
    requires forall i :: 0 <= i < |fs| ==> 0 < rank(fs[i].cType) < rank(t)
    requires forall i, j :: 0 <= i < j < |fs| ==> fs[i].name != fs[j].name
    requires o.StructObj? && |o.names| == |o.values| == |fs|
    requires forall i :: 0 <= i < |fs| ==>
      && o.names[i] == fs[i].name && HasType(tables, rank, fs[i].cType, o.values[i])
      && Accepted(tables, rank, depth, fs[i].cType, base, op, [Member(fs[i].name)])
    requires base + op == q + [sel] && (op == [] || op == [Dot]) && |base| > 0
    requires |q| > 0 && IndexesBelow(q, depth) && !sel.Element?
    requires Container(Walk(c.root, q, idx), sel) == Some(o)
    requires Releasable(s, TeardownAll(o.values[k..], c.json),
                        Uses(c.root, q, idx) + Through(Walk(c.root, q, idx), sel, Items))
    ensures Run(CompileFields(tables, rank, depth, t, fs[k..], base, op), c, idx, s)
            == Some(After(s, TeardownAll(o.values[k..], c.json)))
    decreases rank(t), 0, |fs| - k
  {
    var needs := Uses(c.root, q, idx) + Through(Walk(c.root, q, idx), sel, Items);
    if k == |fs| {
      AfterNothing(s);
    } else {
      var f, v := fs[k], o.values[k];
      assert fs[k..][0] == f && fs[k..][1..] == fs[k + 1..];
      assert o.values[k..][0] == v && o.values[k..][1..] == o.values[k + 1..];
      var first, others := Teardown(v, c.json), TeardownAll(o.values[k + 1..], c.json);
      AfterAppend(s, first, others, needs);
      FieldDenotes(fs, k, base, op, q, sel, depth, c, idx, o);
      CompileRuns(tables, rank, depth, f.cType, base, op, [Member(f.name)], c, idx, v, s);
      var code := Compile(tables, rank, depth, f.cType, base, op, [Member(f.name)]);
      RunAppend(code, CompileFields(tables, rank, depth, t, fs[k + 1..], base, op), c, idx, s);
      FieldsRun(tables, rank, depth, t, fs, k + 1, base, op, q, sel, c, idx, o, After(s, first));
    }
  }

  lemma FieldDenotes(fs: seq<Field>, k: nat, base: Access, op: Access, q: Access, sel: Token, depth: nat,
                     c: Call, idx: Indexes, o: Obj)
    requires k < |fs| && forall i, j :: 0 <= i < j < |fs| ==> fs[i].name != fs[j].name
    requires o.StructObj? && |o.names| == |o.values| == |fs|
    requires forall i :: 0 <= i < |fs| ==> o.names[i] == fs[i].name
    requires base + op == q + [sel] && (op == [] || op == [Dot]) && |base| > 0
    requires |q| > 0 && IndexesBelow(q, depth) && !sel.Element?
    requires Container(Walk(c.root, q, idx), sel) == Some(o)
    ensures var name := [Member(fs[k].name)];
      && Denotes(c, idx, base, op, name, o.values[k])
      && IndexesBelow(base + op + name, depth)
      && Needs(c, idx, base, op, name) == Uses(c.root, q, idx) + Through(Walk(c.root, q, idx), sel, Items)
  {
    FindsField(o.names, k);
    WalkStep(c.root, q, sel, Member(fs[k].name), idx);
  }

  lemma {:induction false} ListRuns(tables: Tables, rank: string -> nat, depth: nat, t: string, b: string,
                                   prefix: Access, op: Access, name: Access,
                                   c: Call, idx: Indexes, o: Obj, s: State)
    requires Ranked(tables, rank) && DistinctFields(tables) && c.routines == tables.routines
    requires Classify(tables, t) == ListOf(b) && 0 < rank(b) < rank(t)
    requires HasType(tables, rank, t, o) && Accepted(tables, rank, depth, t, prefix, op, name)
    requires Ready(c, idx, depth, prefix, op, name, o, s)
    ensures Run(Compile(tables, rank, depth, t, prefix, op, name), c, idx, s)
            == Some(After(s, Teardown(o, c.json)))
    decreases rank(t), 1
  {
    var q, sel := Holder(prefix, op, name), Selector(name);
    HolderHolds(c, idx, depth, prefix, op, name, o);
    assert prefix + [] + [] == prefix;
    var body := Compile(tables, rank, depth + 2, b, q, [sel], [Element(depth)]);
    ListCode(tables, rank, depth, t, b, prefix, op, name, q, sel);
    if o.ListObj? {
      var needs := Needs(c, idx, prefix, op, name);
      ChildrenThenBlock(s, TeardownBack(o.elems, c.json), o.addr, needs);
      assert o.elems[..|o.elems|] == o.elems;
      LoopRuns(tables, rank, depth, t, b, q, sel, c, idx, o, |o.elems|, s);
    }
    ListCodeRuns(depth, q, sel, body, c, idx, o, s);
  }

  lemma ListCode(tables: Tables, rank: string -> nat, depth: nat, t: string, b: string,
                 prefix: Access, op: Access, name: Access, q: Access, sel: Token)
    requires Ranked(tables, rank) && Classify(tables, t) == ListOf(b) && 0 < rank(b) < rank(t)
    requires q == Holder(prefix, op, name) && sel == Selector(name)
    requires (name == [] ==> op == [Arrow]) && (name != [] ==> op != [Arrow])
    ensures Compile(tables, rank, depth, t, prefix, op, name)
            == ListCodeOf(depth, q, sel, Compile(tables, rank, depth + 2, b, q, [sel], [Element(depth)]))
  {
    assert prefix + [] + [] == prefix;
  }

  function ListCodeOf(depth: nat, q: Access, sel: Token, body: seq<Stmt>): seq<Stmt> {
    [IfNotNull(q + [sel] + [Items], [CountDown(depth, q + [sel] + [Count], body), Free(q + [sel] + [Items])])]
  }

  /** The null check, the loop over the elements, then their block. */
  lemma ListCodeRuns(depth: nat, q: Access, sel: Token, body: seq<Stmt>, c: Call, idx: Indexes, o: Obj, s: State)
    requires o.ListObj? || o.NullList?
    requires |q| > 0 && !sel.Element? && Container(Walk(c.root, q, idx), sel) == Some(o)
    requires Releasable(s, Teardown(o, c.json), Uses(c.root, q, idx) + Through(Walk(c.root, q, idx), sel, Items))
    requires o.ListObj? ==>
      Loop(depth, |o.elems|, body, c, idx, s) == Some(After(s, TeardownBack(o.elems, c.json)))
    ensures Run(ListCodeOf(depth, q, sel, body), c, idx, s) == Some(After(s, Teardown(o, c.json)))
  {
    var items, count := q + [sel] + [Items], q + [sel] + [Count];
    WalkStep(c.root, q, sel, Items, idx);
    RunSingle(IfNotNull(items, [CountDown(depth, count, body), Free(items)]), c, idx, s);
    if o.NullList? {
      AfterNothing(s);
    } else {
      ListBodyRuns(depth, q, sel, body, c, idx, o, s);
    }
  }

  /** The loop over the elements, then their block. */
  lemma ListBodyRuns(depth: nat, q: Access, sel: Token, body: seq<Stmt>, c: Call, idx: Indexes, o: Obj, s: State)
    requires o.ListObj? && |q| > 0 && !sel.Element? && Container(Walk(c.root, q, idx), sel) == Some(o)
    requires Releasable(s, Teardown(o, c.json), Uses(c.root, q, idx) + Through(Walk(c.root, q, idx), sel, Items))
    requires Loop(depth, |o.elems|, body, c, idx, s) == Some(After(s, TeardownBack(o.elems, c.json)))
    ensures Run([CountDown(depth, q + [sel] + [Count], body), Free(q + [sel] + [Items])], c, idx, s)
            == Some(After(s, Teardown(o, c.json)))
  {
    var ts, needs := TeardownBack(o.elems, c.json), Uses(c.root, q, idx) + Through(Walk(c.root, q, idx), sel, Items);
    ChildrenThenBlock(s, ts, o.addr, needs);
    CountIsLength(q, sel, c, idx, o, s, needs);
    ItemsAreBlock(q, sel, c, idx, o, After(s, ts));
    RunTwo(CountDown(depth, q + [sel] + [Count], body), Free(q + [sel] + [Items]), c, idx, s);
  }

  lemma CountIsLength(q: Access, sel: Token, c: Call, idx: Indexes, o: Obj, s: State, needs: set<Addr>)
    requires o.ListObj? && |q| > 0 && !sel.Element? && Container(Walk(c.root, q, idx), sel) == Some(o)
    requires needs == Uses(c.root, q, idx) + Through(Walk(c.root, q, idx), sel, Items) && needs <= s.live
    ensures Read(c.root, s.live, q + [sel] + [Count], idx) == Some(CountOf(|o.elems|))
  {
    WalkStep(c.root, q, sel, Count, idx);
  }

  lemma ItemsAreBlock(q: Access, sel: Token, c: Call, idx: Indexes, o: Obj, s: State)
    requires o.ListObj? && |q| > 0 && !sel.Element? && Container(Walk(c.root, q, idx), sel) == Some(o)
    requires Uses(c.root, q, idx) + Through(Walk(c.root, q, idx), sel, Items) <= s.live
    ensures RunOne(Free(q + [sel] + [Items]), c, idx, s) == Release(s, o.addr)
  {
    WalkStep(c.root, q, sel, Items, idx);
  }

  lemma {:induction false} BackLast(os: seq<Obj>, n: nat, json: bool)
    requires n < |os|
    ensures TeardownBack(os[..n + 1], json) == Teardown(os[n], json) + TeardownBack(os[..n], json)
  {
    if n == 0 {
      assert os[..1][1..] == [] && os[..0] == [];
      assert TeardownBack([], json) == [];
    } else {
      BackLast(os[1..], n - 1, json);
      assert os[..n + 1][1..] == os[1..][..n];
      assert os[..n][1..] == os[1..][..n - 1];
      assert os[..n + 1][0] == os[0] == os[..n][0];
    }
  }

  /** The countdown over the first n elements. */
  lemma {:induction false} LoopRuns(tables: Tables, rank: string -> nat, depth: nat, t: string, b: string,
                                   q: Access, sel: Token, c: Call, idx: Indexes, o: Obj, n: nat, s: State)
    requires Ranked(tables, rank) && DistinctFields(tables) && c.routines == tables.routines && 0 < rank(b) < rank(t)
    requires o.ListObj? && n <= |o.elems|
    requires forall i :: 0 <= i < |o.elems| ==> HasType(tables, rank, b, o.elems[i])
    requires (sel == Arrow || sel == Dot) && Accepted(tables, rank, depth + 2, b, q, [sel], [Element(depth)])
    requires |q| > 0 && IndexesBelow(q, depth) && Container(Walk(c.root, q, idx), sel) == Some(o)
    requires Releasable(s, TeardownBack(o.elems[..n], c.json),
                        Uses(c.root, q, idx) + Through(Walk(c.root, q, idx), sel, Items) + {o.addr})
    ensures Loop(depth, n, Compile(tables, rank, depth + 2, b, q, [sel], [Element(depth)]), c, idx, s)
            == Some(After(s, TeardownBack(o.elems[..n], c.json)))
    decreases rank(t), 0
  {
    var body := Compile(tables, rank, depth + 2, b, q, [sel], [Element(depth)]);
    forall i: nat, s' | i < n && Ready(c, idx[depth := i], depth + 2, q, [sel], [Element(depth)], o.elems[i], s')
      ensures Run(body, c, idx[depth := i], s') == Some(After(s', Teardown(o.elems[i], c.json)))
    {
      CompileRuns(tables, rank, depth + 2, b, q, [sel], [Element(depth)], c, idx[depth := i], o.elems[i], s');
    }
    CountsDown(depth, body, q, sel, c, idx, o, n, s);
  }

  /** A loop whose body is right for each element. */
  lemma {:induction false} CountsDown(depth: nat, body: seq<Stmt>, q: Access, sel: Token,
                                     c: Call, idx: Indexes, o: Obj, n: nat, s: State)
    requires o.ListObj? && n <= |o.elems| && (sel == Arrow || sel == Dot)
    requires |q| > 0 && IndexesBelow(q, depth) && Container(Walk(c.root, q, idx), sel) == Some(o)
    requires forall i: nat, s' ::
      i < n && Ready(c, idx[depth := i], depth + 2, q, [sel], [Element(depth)], o.elems[i], s') ==>
        Run(body, c, idx[depth := i], s') == Some(After(s', Teardown(o.elems[i], c.json)))
    requires Releasable(s, TeardownBack(o.elems[..n], c.json),
                        Uses(c.root, q, idx) + Through(Walk(c.root, q, idx), sel, Items) + {o.addr})
    ensures Loop(depth, n, body, c, idx, s) == Some(After(s, TeardownBack(o.elems[..n], c.json)))
    decreases n
  {
    if n == 0 {
      AfterNothing(s);
    } else {
      ElementReady(depth, q, sel, c, idx, o, n - 1, s);
      CountsDown(depth, body, q, sel, c, idx, o, n - 1, After(s, Teardown(o.elems[n - 1], c.json)));
    }
  }

  /** The last of the elements left is ready, and so are the others after it. */
  lemma ElementReady(depth: nat, q: Access, sel: Token, c: Call, idx: Indexes, o: Obj, i: nat, s: State)
    requires o.ListObj? && i < |o.elems| && (sel == Arrow || sel == Dot)
    requires |q| > 0 && IndexesBelow(q, depth) && Container(Walk(c.root, q, idx), sel) == Some(o)
    requires Releasable(s, TeardownBack(o.elems[..i + 1], c.json),
                        Uses(c.root, q, idx) + Through(Walk(c.root, q, idx), sel, Items) + {o.addr})
    ensures Ready(c, idx[depth := i], depth + 2, q, [sel], [Element(depth)], o.elems[i], s)
    ensures var first, others := Teardown(o.elems[i], c.json), TeardownBack(o.elems[..i], c.json);
      && Releasable(After(s, first), others,
                    Uses(c.root, q, idx) + Through(Walk(c.root, q, idx), sel, Items) + {o.addr})
      && After(After(s, first), others) == After(s, TeardownBack(o.elems[..i + 1], c.json))
  {
    var needs := Uses(c.root, q, idx) + Through(Walk(c.root, q, idx), sel, Items) + {o.addr};
    BackLast(o.elems, i, c.json);
    AfterAppend(s, Teardown(o.elems[i], c.json), TeardownBack(o.elems[..i], c.json), needs);
    ElementDenotes(depth, q, sel, c, idx, o, i);
  }

  lemma ElementDenotes(depth: nat, q: Access, sel: Token, c: Call, idx: Indexes, o: Obj, i: nat)
    requires o.ListObj? && i < |o.elems| && (sel == Arrow || sel == Dot)
    requires |q| > 0 && IndexesBelow(q, depth) && Container(Walk(c.root, q, idx), sel) == Some(o)
    ensures var idx' := idx[depth := i];
      && Denotes(c, idx', q, [sel], [Element(depth)], o.elems[i])
      && IndexesBelow(q + [sel] + [Element(depth)], depth + 2)
      && Needs(c, idx', q, [sel], [Element(depth)])
         == Uses(c.root, q, idx) + Through(Walk(c.root, q, idx), sel, Items) + {o.addr}
  {
    WalkFrame(c.root, q, idx, depth, depth, i);
    WalkStep(c.root, q, sel, Element(depth), idx[depth := i]);
  }

  // ---------------------------------------------------------------------
  // The routine as a whole

  /** The struct the routine is written for is accepted. */
  predicate RootAccepted(tables: Tables, ghost rank: string -> nat)
    requires Ranked(tables, rank) && rank(tables.structName) > 0
  {
    Accepted(tables, rank, 1, tables.structName, [Root], [Arrow], [])
  }

  /**
   * The program has the routines the tables name, the call's root is a live block,
   * everything it owns is live, and no block is owned twice.
   */
  ghost predicate Owned(tables: Tables, rank: string -> nat, c: Call, s: State)
    requires Ranked(tables, rank) && rank(tables.structName) > 0
  {
    && c.routines == tables.routines
    && c.root.PointerObj? && HasType(tables, rank, tables.structName, c.root.target)
    && NoRepeats(Teardown(c.root, c.json)) && Addrs(Teardown(c.root, c.json)) <= s.live
  }

  /** What the routine must release: all the root's object owns and, when asked, the root block. */
  function Released(c: Call): seq<Addr> {
    if c.freePointers then Teardown(c.root, c.json)
    else if c.root.PointerObj? then Teardown(c.root.target, c.json) else []
  }

  ghost predicate Releases(tables: Tables, rank: string -> nat, c: Call, s: State)
    requires Ranked(tables, rank) && rank(tables.structName) > 0
  {
    Run(Routine(tables, rank), c, map[], s) == Some(After(s, Released(c)))
  }

  /**
   * Each block is released exactly once, what it holds first, and nothing is read
   * through a released block.
   */
  lemma RoutineReleases(tables: Tables, rank: string -> nat, c: Call, s: State)
    requires Ranked(tables, rank) && rank(tables.structName) > 0 && DistinctFields(tables) && RootAccepted(tables, rank)
    requires Owned(tables, rank, c, s)
    ensures Releases(tables, rank, c, s)
    ensures NoRepeats(Released(c))
  {
    var ts, a := Teardown(c.root.target, c.json), c.root.addr;
    ChildrenThenBlock(s, ts, a, {});
    assert Needs(c, map[], [Root], [Arrow], []) == {a};
    CompileRuns(tables, rank, 1, tables.structName, [Root], [Arrow], [], c, map[], c.root.target, s);
    var last := IfFreePointers([Free([Root]), FreeJson]);
    RunAppend(Compile(tables, rank, 1, tables.structName, [Root], [Arrow], []), [last], c, map[], s);
    RunSingle(last, c, map[], After(s, ts));
    RunTwo(Free([Root]), FreeJson, c, map[], After(s, ts));
  }

  /** Texts are released only when there is no JSON tree: they are exactly what its presence leaves out. */
  function Texts(o: Obj): multiset<Addr>
    decreases o, 1
  {
    match o
    case TextObj(a) => multiset{a}
    case StructObj(_, vs) => TextsAll(vs)
    case ListObj(_, es) => TextsAll(es)
    case PointerObj(_, x) => Texts(x)
    case DelegatedObj(_, ts) => multiset(ts)
    case _ => multiset{}
  }

  function TextsAll(os: seq<Obj>): multiset<Addr>
    decreases os, 0
  {
    if os == [] then multiset{} else Texts(os[0]) + TextsAll(os[1..])
  }

  lemma {:induction false} JsonKeepsTexts(o: Obj)
    ensures multiset(Teardown(o, false)) == multiset(Teardown(o, true)) + Texts(o)
    decreases o, 1
  {
    match o
    case StructObj(_, vs) => JsonKeepsTextsAll(vs);
    case ListObj(a, es) =>
      JsonKeepsTextsAll(es);
      OneMore(TeardownBack(es, false), TeardownBack(es, true), TextsAll(es), a);
    case PointerObj(a, x) =>
      JsonKeepsTexts(x);
      OneMore(Teardown(x, false), Teardown(x, true), Texts(x), a);
    case _ => JsonKeepsLeafTexts(o);
  }

  lemma JsonKeepsLeafTexts(o: Obj)
    requires !o.StructObj? && !o.ListObj? && !o.PointerObj?
    ensures multiset(Teardown(o, false)) == multiset(Teardown(o, true)) + Texts(o)
  {
  }

  lemma OneMore(all: seq<Addr>, some: seq<Addr>, texts: multiset<Addr>, a: Addr)
    requires multiset(all) == multiset(some) + texts
    ensures multiset(all + [a]) == multiset(some + [a]) + texts
  {
  }

  lemma {:induction false} JsonKeepsTextsAll(os: seq<Obj>)
    ensures multiset(TeardownAll(os, false)) == multiset(TeardownAll(os, true)) + TextsAll(os)
    ensures multiset(TeardownBack(os, false)) == multiset(TeardownBack(os, true)) + TextsAll(os)
    decreases os, 0
  {
    if os != [] {
      JsonKeepsTexts(os[0]);
      JsonKeepsTextsAll(os[1..]);
    }
  }

  /** Every loop uses an index of its own: none below d, and none shared with a loop around it. */
  ghost predicate LoopsFrom(ss: seq<Stmt>, d: nat)
    decreases ss, 0
  {
    ss == [] || (LoopFrom(ss[0], d) && LoopsFrom(ss[1..], d))
  }

  ghost predicate LoopFrom(stmt: Stmt, d: nat)
    decreases stmt, 0
  {
    match stmt
    case IfNotNull(_, body) => LoopsFrom(body, d)
    case CountDown(k, _, body) => d <= k && LoopsFrom(body, k + 1)
    case Block(body) => LoopsFrom(body, d)
    case IfFreePointers(body) => LoopsFrom(body, d)
    case _ => true
  }

  lemma {:induction false} LoopsFromAppend(a: seq<Stmt>, b: seq<Stmt>, d: nat)
    requires LoopsFrom(a, d) && LoopsFrom(b, d)
    ensures LoopsFrom(a + b, d)
    decreases |a|
  {
    if a == [] {
      assert a + b == b;
    } else {
      assert (a + b)[0] == a[0] && (a + b)[1..] == a[1..] + b;
      LoopsFromAppend(a[1..], b, d);
    }
  }

  lemma {:induction false} LoopsFromLower(ss: seq<Stmt>, d: nat, e: nat)
    requires LoopsFrom(ss, d) && e <= d
    ensures LoopsFrom(ss, e)
    decreases ss, 0
  {
    if ss != [] {
      LoopsFromLower(ss[1..], d, e);
      match ss[0]
      case IfNotNull(_, body) => LoopsFromLower(body, d, e);
      case Block(body) => LoopsFromLower(body, d, e);
      case IfFreePointers(body) => LoopsFromLower(body, d, e);
      case _ =>
    }
  }

  /** The code for an item uses only loop indexes from its nesting depth on, each its own. */
  lemma {:induction false} LoopIndexesDistinct(tables: Tables, rank: string -> nat, depth: nat, t: string,
                                              prefix: Access, op: Access, name: Access)
    requires Ranked(tables, rank) && rank(t) > 0
    ensures LoopsFrom(Compile(tables, rank, depth, t, prefix, op, name), depth)
    decreases rank(t), 2
  {
    assert Falls(rank, t, Classify(tables, t));
    match Classify(tables, t)
    case ListOf(b) =>
      var base := prefix + (if op == [Arrow] && name == [] then [] else op) + name;
      var fieldOp := if op == [Arrow] then Arrow else Dot;
      LoopIndexesDistinct(tables, rank, depth + 2, b, base, [fieldOp], [Element(depth)]);
      var body := Compile(tables, rank, depth + 2, b, base, [fieldOp], [Element(depth)]);
      LoopsFromLower(body, depth + 2, depth + 1);
      ListLoops(depth, base + [fieldOp] + [Items], base + [fieldOp] + [Count], body);
    case PointerTo(b) =>
      var base := prefix + op + name;
      LoopIndexesDistinct(tables, rank, depth + 1, b, base, [Arrow], []);
      var body := Compile(tables, rank, depth + 1, b, base, [Arrow], []);
      LoopsFromLower(body, depth + 1, depth);
      LoopsSingle(Free(base), depth);
      LoopsFromAppend(body, [Free(base)], depth);
      LoopsSingle(IfNotNull(base, body + [Free(base)]), depth);
    case StructOf(fs) =>
      FieldLoops(tables, rank, depth + 1, t, fs, prefix + op + name, FieldOp(op, name));
      var body := CompileFields(tables, rank, depth + 1, t, fs, prefix + op + name, FieldOp(op, name));
      LoopsFromLower(body, depth + 1, depth);
      LoopsSingle(Block(body), depth);
    case Alias(b) => LoopIndexesDistinct(tables, rank, depth, b, prefix, op, name);
    case Text => LoopsSingle(FreeUnlessJson(prefix + op + name), depth);
    case Delegated(r, _) =>
      LoopsSingle(Destroy(r, false, prefix), depth);
      LoopsSingle(Destroy(r, true, prefix + op + name), depth);
    case Foreign(r) =>
      LoopsSingle(Destroy(r, false, prefix), depth);
      LoopsSingle(Destroy(r, true, prefix + op + name), depth);
    case Plain =>
  }

  lemma LoopsSingle(stmt: Stmt, d: nat)
    requires LoopFrom(stmt, d)
    ensures LoopsFrom([stmt], d)
  {
    assert [stmt][1..] == [];
    assert LoopsFrom([], d);
  }

  lemma ListLoops(depth: nat, items: Access, count: Access, body: seq<Stmt>)
    requires LoopsFrom(body, depth + 1)
    ensures LoopsFrom([IfNotNull(items, [CountDown(depth, count, body), Free(items)])], depth)
  {
    var inner := [CountDown(depth, count, body), Free(items)];
    LoopsSingle(Free(items), depth);
    assert inner[1..] == [Free(items)];
    LoopsSingle(IfNotNull(items, inner), depth);
  }

  lemma {:induction false} FieldLoops(tables: Tables, rank: string -> nat, depth: nat, t: string,
                                     fs: seq<Field>, base: Access, op: Access)
    requires Ranked(tables, rank) && rank(t) > 0
    requires forall i :: 0 <= i < |fs| ==> 0 < rank(fs[i].cType) < rank(t)
    ensures LoopsFrom(CompileFields(tables, rank, depth, t, fs, base, op), depth)
    decreases rank(t), 0, |fs|
  {
    if fs != [] {
      LoopIndexesDistinct(tables, rank, depth, fs[0].cType, base, op, [Member(fs[0].name)]);
      FieldLoops(tables, rank, depth, t, fs[1..], base, op);
      LoopsFromAppend(Compile(tables, rank, depth, fs[0].cType, base, op, [Member(fs[0].name)]),
                      CompileFields(tables, rank, depth, t, fs[1..], base, op), depth);
    }
  }
}
