/**
 * When the destructor generator ends.  It follows type names with no regard to
 * where it has been, so it ends on exactly the structs from which no chain of
 * types visits a type twice.
 */
module DestructorEnds {
  import opened Wrappers
  import opened CTypes
  import opened MiniC
  import opened Destructor
  import opened DestructorShapes

  // ---------------------------------------------------------------------
  // The generator as far as a given number of nested calls reaches

  function Generate(fuel: nat, tables: Tables, depth: nat, t: string, prefix: Access, op: Access, name: Access): Option<seq<Stmt>>
    decreases fuel, 0
  {
    if fuel == 0 then None
    else match Classify(tables, t)
      case ListOf(b) =>
        var base := prefix + (if op == [Arrow] && name == [] then [] else op) + name;
        var fieldOp := if op == [Arrow] then Arrow else Dot;
        (match Generate(fuel - 1, tables, depth + 2, b, base, [fieldOp], [Element(depth)])
         case Some(body) => Some(ListCodeOf(depth, base, fieldOp, body))
         case None => None)
      case PointerTo(b) =>
        var base := prefix + op + name;
        (match Generate(fuel - 1, tables, depth + 1, b, base, [Arrow], [])
         case Some(body) => Some([IfNotNull(base, body + [Free(base)])])
         case None => None)
      case StructOf(fs) =>
        (match GenerateFields(fuel - 1, tables, depth + 1, fs, prefix + op + name, FieldOp(op, name))
         case Some(body) => Some([Block(body)])
         case None => None)
      case Alias(b) => Generate(fuel - 1, tables, depth, b, prefix, op, name)
      case Text => Some([FreeUnlessJson(prefix + op + name)])
      case Delegated(r, _) => Some(DestroyCode(r, prefix, op, name))
      case Foreign(target) =>
        Some(if TakenForScalar(tables, prefix, name) then [] else DestroyCode(target, prefix, op, name))
      case Plain => Some([])
  }

  function GenerateFields(fuel: nat, tables: Tables, depth: nat, fs: seq<Field>, base: Access, op: Access): Option<seq<Stmt>>
    decreases fuel, 1, |fs|
  {
    if fs == [] then Some([])
    else
      match Generate(fuel, tables, depth, fs[0].cType, base, op, [Member(fs[0].name)])
      case None => None
      case Some(code) =>
        match GenerateFields(fuel, tables, depth, fs[1..], base, op)
        case None => None
        case Some(rest) => Some(code + rest)
  }

  // ---------------------------------------------------------------------
  // It ends when types nest only so deep

  predicate Shallow(fuel: nat, tables: Tables, t: string)
    decreases fuel
  {
    fuel > 0 &&
    match Classify(tables, t)
    case ListOf(b) => Shallow(fuel - 1, tables, b)
    case PointerTo(b) => Shallow(fuel - 1, tables, b)
    case StructOf(fs) => forall i :: 0 <= i < |fs| ==> Shallow(fuel - 1, tables, fs[i].cType)
    case Alias(b) => Shallow(fuel - 1, tables, b)
    case _ => true
  }

  lemma {:induction false} GeneratesIff(fuel: nat, tables: Tables, depth: nat, t: string,
                                       prefix: Access, op: Access, name: Access)
    ensures Generate(fuel, tables, depth, t, prefix, op, name).Some? <==> Shallow(fuel, tables, t)
    decreases fuel, 0
  {
    if fuel > 0 {
      match Classify(tables, t)
      case ListOf(b) =>
        var base := prefix + (if op == [Arrow] && name == [] then [] else op) + name;
        var fieldOp := if op == [Arrow] then Arrow else Dot;
        GeneratesIff(fuel - 1, tables, depth + 2, b, base, [fieldOp], [Element(depth)]);
        ListGenerates(fuel, tables, depth, t, b, prefix, op, name);
      case PointerTo(b) =>
        GeneratesIff(fuel - 1, tables, depth + 1, b, prefix + op + name, [Arrow], []);
        PointerGenerates(fuel, tables, depth, t, b, prefix, op, name);
      case StructOf(fs) => FieldsGenerateIff(fuel - 1, tables, depth + 1, fs, prefix + op + name, FieldOp(op, name));
      case Alias(b) => GeneratesIff(fuel - 1, tables, depth, b, prefix, op, name);
      case _ =>
    }
  }

  lemma ListGenerates(fuel: nat, tables: Tables, depth: nat, t: string, b: string, prefix: Access, op: Access, name: Access)
    requires fuel > 0 && Classify(tables, t) == ListOf(b)
    ensures var base := prefix + (if op == [Arrow] && name == [] then [] else op) + name;
      var fieldOp := if op == [Arrow] then Arrow else Dot;
      Generate(fuel, tables, depth, t, prefix, op, name).Some?
      <==> Generate(fuel - 1, tables, depth + 2, b, base, [fieldOp], [Element(depth)]).Some?
  {
  }

  lemma PointerGenerates(fuel: nat, tables: Tables, depth: nat, t: string, b: string,
                         prefix: Access, op: Access, name: Access)
    requires fuel > 0 && Classify(tables, t) == PointerTo(b)
    ensures Generate(fuel, tables, depth, t, prefix, op, name).Some?
            <==> Generate(fuel - 1, tables, depth + 1, b, prefix + op + name, [Arrow], []).Some?
  {
  }

  lemma {:induction false} FieldsGenerateIff(fuel: nat, tables: Tables, depth: nat, fs: seq<Field>, base: Access, op: Access)
    ensures GenerateFields(fuel, tables, depth, fs, base, op).Some?
            <==> forall i :: 0 <= i < |fs| ==> Shallow(fuel, tables, fs[i].cType)
    decreases fuel, 1, |fs|
  {
    if fs != [] {
      GeneratesIff(fuel, tables, depth, fs[0].cType, base, op, [Member(fs[0].name)]);
      FieldsGenerateIff(fuel, tables, depth, fs[1..], base, op);
      assert forall i :: 1 <= i < |fs| ==> fs[i] == fs[1..][i - 1];
    }
  }

  /** The least depth that is enough, or zero if none is. */
  ghost function Height(tables: Tables, t: string): (h: nat)
    ensures h > 0 <==> exists fuel :: Shallow(fuel, tables, t)
    ensures h > 0 ==> Shallow(h, tables, t)
    ensures forall fuel :: Shallow(fuel, tables, t) ==> h <= fuel
  {
    if exists fuel :: Shallow(fuel, tables, t) then
      var fuel: nat :| Shallow(fuel, tables, t);
      var h := Least(tables, t, fuel);
      assert Shallow(h, tables, t);
      h
    else 0
  }

  ghost function Least(tables: Tables, t: string, fuel: nat): (h: nat)
    requires Shallow(fuel, tables, t)
    ensures 0 < h <= fuel && Shallow(h, tables, t) && forall f :: Shallow(f, tables, t) ==> h <= f
  {
    if forall f: nat :: f < fuel ==> !Shallow(f, tables, t) then fuel
    else
      var f: nat :| f < fuel && Shallow(f, tables, t);
      Least(tables, t, f)
  }

  /** The rank by which the other proofs go: it exists for exactly the types on which the generator ends. */
  lemma HeightRanks(tables: Tables)
    ensures Ranked(tables, (t: string) => Height(tables, t))
  {
    var rank := (t: string) => Height(tables, t);
    forall t | rank(t) > 0
      ensures Falls(rank, t, Classify(tables, t))
    {
      var fuel := Height(tables, t) - 1;
      match Classify(tables, t)
      case ListOf(b) => assert Shallow(fuel, tables, b);
      case PointerTo(b) => assert Shallow(fuel, tables, b);
      case Alias(b) => assert Shallow(fuel, tables, b);
      case StructOf(fs) => assert forall i :: 0 <= i < |fs| ==> Shallow(fuel, tables, fs[i].cType);
      case _ =>
    }
  }

  lemma {:induction false} RankedIsShallow(tables: Tables, rank: string -> nat, t: string, fuel: nat)
    requires Ranked(tables, rank) && 0 < rank(t) <= fuel
    ensures Shallow(fuel, tables, t)
    decreases fuel
  {
    assert Falls(rank, t, Classify(tables, t));
    match Classify(tables, t)
    case ListOf(b) => RankedIsShallow(tables, rank, b, fuel - 1);
    case PointerTo(b) => RankedIsShallow(tables, rank, b, fuel - 1);
    case Alias(b) => RankedIsShallow(tables, rank, b, fuel - 1);
    case StructOf(fs) =>
      forall i | 0 <= i < |fs| ensures Shallow(fuel - 1, tables, fs[i].cType) {
        RankedIsShallow(tables, rank, fs[i].cType, fuel - 1);
      }
    case _ =>
  }

  /** What the generator returns is the code whose runs are specified. */
  lemma {:induction false} GeneratesCompiled(fuel: nat, tables: Tables, rank: string -> nat, depth: nat, t: string,
                                            prefix: Access, op: Access, name: Access)
    requires Ranked(tables, rank) && rank(t) > 0 && Shallow(fuel, tables, t)
    ensures Generate(fuel, tables, depth, t, prefix, op, name) == Some(Compile(tables, rank, depth, t, prefix, op, name))
    decreases fuel, 0
  {
    assert Falls(rank, t, Classify(tables, t));
    match Classify(tables, t)
    case ListOf(b) =>
      var base := prefix + (if op == [Arrow] && name == [] then [] else op) + name;
      GeneratesCompiled(fuel - 1, tables, rank, depth + 2, b, base, [if op == [Arrow] then Arrow else Dot], [Element(depth)]);
    case PointerTo(b) => GeneratesCompiled(fuel - 1, tables, rank, depth + 1, b, prefix + op + name, [Arrow], []);
    case StructOf(fs) =>
      FieldsGenerateCompiled(fuel - 1, tables, rank, depth + 1, t, fs, prefix + op + name, FieldOp(op, name));
    case Alias(b) => GeneratesCompiled(fuel - 1, tables, rank, depth, b, prefix, op, name);
    case _ =>
  }

  lemma {:induction false} FieldsGenerateCompiled(fuel: nat, tables: Tables, rank: string -> nat, depth: nat, t: string,
                                                 fs: seq<Field>, base: Access, op: Access)
    requires Ranked(tables, rank) && rank(t) > 0 && forall i :: 0 <= i < |fs| ==> 0 < rank(fs[i].cType) < rank(t)
    requires forall i :: 0 <= i < |fs| ==> Shallow(fuel, tables, fs[i].cType)
    ensures GenerateFields(fuel, tables, depth, fs, base, op)
            == Some(CompileFields(tables, rank, depth, t, fs, base, op))
    decreases fuel, 1, |fs|
  {
    if fs != [] {
      GeneratesCompiled(fuel, tables, rank, depth, fs[0].cType, base, op, [Member(fs[0].name)]);
      FieldsGenerateCompiled(fuel, tables, rank, depth, t, fs[1..], base, op);
    }
  }

  // ---------------------------------------------------------------------
  // Types nest only so deep when no chain repeats a type

  /** The generator goes from type t to type u. */
  ghost predicate Steps(tables: Tables, t: string, u: string) {
    match Classify(tables, t)
    case ListOf(b) => u == b
    case PointerTo(b) => u == b
    case StructOf(fs) => exists i :: 0 <= i < |fs| && fs[i].cType == u
    case Alias(b) => u == b
    case _ => false
  }

  ghost predicate StepsAt(tables: Tables, p: seq<string>, i: nat)
    requires i + 1 < |p|
  {
    Steps(tables, p[i], p[i + 1])
  }

  ghost predicate IsChain(tables: Tables, p: seq<string>) {
    forall i :: 0 <= i < |p| - 1 ==> StepsAt(tables, p, i)
  }

  ghost predicate Repeats(p: seq<string>) {
    exists i, j :: 0 <= i < j < |p| && p[i] == p[j]
  }

  /** Some type reached from t contains itself. */
  ghost predicate Recursive(tables: Tables, t: string) {
    exists p :: |p| > 0 && p[0] == t && IsChain(tables, p) && Repeats(p)
  }

  lemma {:induction false} DeepChain(fuel: nat, tables: Tables, t: string) returns (p: seq<string>)
    requires !Shallow(fuel, tables, t)
    ensures |p| == fuel + 1 && p[0] == t && IsChain(tables, p)
    decreases fuel
  {
    p := [t];
    if fuel > 0 {
      var u := DeepNext(fuel, tables, t);
      var rest := DeepChain(fuel - 1, tables, u);
      p := [t] + rest;
      forall i | 0 <= i < |p| - 1 ensures StepsAt(tables, p, i) {
        if i > 0 {
          assert StepsAt(tables, rest, i - 1);
        }
      }
    }
  }

  lemma DeepNext(fuel: nat, tables: Tables, t: string) returns (u: string)
    requires fuel > 0 && !Shallow(fuel, tables, t)
    ensures Steps(tables, t, u) && !Shallow(fuel - 1, tables, u)
  {
    match Classify(tables, t)
    case ListOf(b) => u := b;
    case PointerTo(b) => u := b;
    case Alias(b) => u := b;
    case StructOf(fs) =>
      var i :| 0 <= i < |fs| && !Shallow(fuel - 1, tables, fs[i].cType);
      u := fs[i].cType;
  }

  lemma {:induction false} RanksFall(tables: Tables, rank: string -> nat, p: seq<string>, i: nat, j: nat)
    requires Ranked(tables, rank) && IsChain(tables, p) && i <= j < |p| && rank(p[i]) > 0
    ensures 0 < rank(p[j]) <= rank(p[i]) - (j - i)
    decreases j - i
  {
    if i < j {
      RanksFall(tables, rank, p, i, j - 1);
      assert StepsAt(tables, p, j - 1);
      StepFalls(tables, rank, p[j - 1], p[j]);
    }
  }

  lemma StepFalls(tables: Tables, rank: string -> nat, t: string, u: string)
    requires Ranked(tables, rank) && rank(t) > 0 && Steps(tables, t, u)
    ensures 0 < rank(u) < rank(t)
  {
    assert Falls(rank, t, Classify(tables, t));
  }

  // Every type reached from t is a piece of t or of a name in the tables.

  ghost function Names(tables: Tables, t: string): set<string> {
    {t, ""} + tables.typedefs.Values + (set u, f | u in tables.fieldTypes && f in tables.fieldTypes[u] :: tables.fieldTypes[u][f])
  }

  ghost function Universe(tables: Tables, t: string): set<string> {
    set s, i, j | s in Names(tables, t) && 0 <= i <= j <= |s| :: s[i..j]
  }

  lemma PieceOf(tables: Tables, t: string, s: string, u: string, i: nat, j: nat)
    requires s in Names(tables, t) && i <= j <= |s| && u == s[i..j]
    ensures u in Universe(tables, t)
  {
  }

  lemma PieceOfPiece(tables: Tables, t: string, u: string, i: nat, j: nat)
    requires u in Universe(tables, t) && i <= j <= |u|
    ensures u[i..j] in Universe(tables, t)
  {
    var s, k, m :| s in Names(tables, t) && 0 <= k <= m <= |s| && u == s[k..m];
    SliceOfSlice(s, k, m, i, j);
    PieceOf(tables, t, s, u[i..j], k + i, k + j);
  }

  lemma SliceOfSlice(s: string, k: nat, m: nat, i: nat, j: nat)
    requires k <= m <= |s| && i <= j <= m - k
    ensures s[k..m][i..j] == s[k + i..k + j]
  {
    var a, b := s[k..m][i..j], s[k + i..k + j];
    assert |a| == |b| && forall x :: 0 <= x < |a| ==> a[x] == s[k..m][i + x] == s[k + i + x] == b[x];
  }

  lemma {:induction false} PackageSuffix(packageName: string, s: string) returns (i: nat)
    requires LeadingPackage(packageName, s).Some?
    ensures i <= |s| && LeadingPackage(packageName, s).value == s[i..|s|]
    decreases |s|
  {
    if packageName + "_" <= s {
      i := |packageName| + 1;
      assert s[i..] == s[i..|s|];
    } else {
      var k := PackageSuffix(packageName, s[1..]);
      i := k + 1;
      assert s[1..][k..|s| - 1] == s[i..|s|];
    }
  }

  lemma StepsInside(tables: Tables, t: string, u: string, v: string)
    requires u in Universe(tables, t) && Steps(tables, u, v)
    ensures v in Universe(tables, t)
  {
    match Classify(tables, u)
    case ListOf(b) => PieceOfPiece(tables, t, u, 0, |u| - 5);
    case PointerTo(b) => PieceOfPiece(tables, t, u, 0, |u| - 4);
    case StructOf(fs) => FieldInside(tables, t, u, fs, v);
    case Alias(b) => AliasInside(tables, t, u);
  }

  lemma FieldInside(tables: Tables, t: string, u: string, fs: seq<Field>, v: string)
    requires Classify(tables, u) == StructOf(fs) && exists i :: 0 <= i < |fs| && fs[i].cType == v
    ensures v in Universe(tables, t)
  {
    var i :| 0 <= i < |fs| && fs[i].cType == v;
    assert v == FieldType(tables, u, fs[i].name);
    assert v in Names(tables, t);
    assert v == v[0..|v|];
    PieceOf(tables, t, v, v, 0, |v|);
  }

  lemma AliasInside(tables: Tables, t: string, u: string)
    requires u in Universe(tables, t) && Classify(tables, u).Alias?
    ensures Classify(tables, u).base in Universe(tables, t)
  {
    if u in tables.typedefs && u !in tables.structFields && u !in tables.enums {
      var target := tables.typedefs[u];
      assert target in Names(tables, t);
      var i := PackageSuffix(tables.packageName, target);
      PieceOf(tables, t, target, target[i..|target|], i, |target|);
    } else {
      var i := PackageSuffix(tables.packageName, u);
      PieceOfPiece(tables, t, u, i, |u|);
    }
  }

  lemma {:induction false} ChainInside(tables: Tables, t: string, p: seq<string>, k: nat)
    requires IsChain(tables, p) && k < |p| && p[0] == t
    ensures p[k] in Universe(tables, t)
    decreases k
  {
    if k == 0 {
      assert t in Names(tables, t) && t == t[0..|t|];
      PieceOf(tables, t, t, t, 0, |t|);
    } else {
      ChainInside(tables, t, p, k - 1);
      assert StepsAt(tables, p, k - 1);
      StepsInside(tables, t, p[k - 1], p[k]);
    }
  }

  /** Without a repetition there are no more places than values. */
  lemma {:induction false} Pigeonhole(p: seq<string>, all: set<string>)
    requires (forall i :: 0 <= i < |p| ==> p[i] in all) && |p| > |all|
    ensures Repeats(p)
    decreases |p|
  {
    var x, rest := p[0], p[1..];
    if i :| 0 <= i < |rest| && rest[i] == x {
      assert p[0] == p[i + 1];
    } else {
      forall i | 0 <= i < |rest| ensures rest[i] in all - {x} {
        assert rest[i] == p[i + 1];
      }
      assert |all - {x}| == |all| - 1;
      Pigeonhole(rest, all - {x});
      var i, j :| 0 <= i < j < |rest| && rest[i] == rest[j];
      assert p[i + 1] == p[j + 1];
    }
  }

  // ---------------------------------------------------------------------

  lemma RankedNotRecursive(tables: Tables, rank: string -> nat, t: string)
    requires Ranked(tables, rank) && rank(t) > 0
    ensures !Recursive(tables, t)
  {
    forall p | |p| > 0 && p[0] == t && IsChain(tables, p)
      ensures !Repeats(p)
    {
      forall i, j | 0 <= i < j < |p| ensures p[i] != p[j] {
        RanksFall(tables, rank, p, 0, i);
        RanksFall(tables, rank, p, i, j);
      }
    }
  }

  lemma NotRecursiveShallow(tables: Tables, t: string) returns (fuel: nat)
    requires !Recursive(tables, t)
    ensures Shallow(fuel, tables, t)
  {
    var all := Universe(tables, t);
    fuel := |all|;
    if !Shallow(fuel, tables, t) {
      var p := DeepChain(fuel, tables, t);
      forall i | 0 <= i < |p| ensures p[i] in all {
        ChainInside(tables, t, p, i);
      }
      Pigeonhole(p, all);
      assert false;
    }
  }

  /** The generator returns if and only if no type that its struct leads to contains itself. */
  lemma GeneratorEndsIff(tables: Tables)
    ensures (exists fuel :: Generate(fuel, tables, 1, tables.structName, [Root], [Arrow], []).Some?)
            <==> !Recursive(tables, tables.structName)
  {
    var t := tables.structName;
    forall fuel: nat
      ensures Generate(fuel, tables, 1, t, [Root], [Arrow], []).Some? <==> Shallow(fuel, tables, t)
    {
      GeneratesIff(fuel, tables, 1, t, [Root], [Arrow], []);
    }
    if Recursive(tables, t) {
      HeightRanks(tables);
      if Height(tables, t) > 0 {
        RankedNotRecursive(tables, (t: string) => Height(tables, t), t);
      }
    } else {
      var fuel := NotRecursiveShallow(tables, t);
      assert Generate(fuel, tables, 1, t, [Root], [Arrow], []).Some?;
    }
  }

  /**
   * Exactly then there is a rank for the types it leads to, and what it returns is
   * the code whose runs are specified.
   */
  lemma RankedIffEnds(tables: Tables)
    ensures (exists rank :: Ranked(tables, rank) && rank(tables.structName) > 0) <==> !Recursive(tables, tables.structName)
  {
    var t := tables.structName;
    if Recursive(tables, t) {
      forall rank: string -> nat | Ranked(tables, rank)
        ensures rank(t) == 0
      {
        if rank(t) > 0 {
          RankedNotRecursive(tables, rank, t);
        }
      }
    } else {
      var fuel := NotRecursiveShallow(tables, t);
      HeightRanks(tables);
      assert Height(tables, t) > 0;
    }
  }

  lemma GeneratedIsCompiled(tables: Tables, rank: string -> nat, fuel: nat)
    requires Ranked(tables, rank) && rank(tables.structName) > 0
    ensures var g := Generate(fuel, tables, 1, tables.structName, [Root], [Arrow], []);
      g.Some? ==> g.value == Compile(tables, rank, 1, tables.structName, [Root], [Arrow], [])
    ensures fuel >= rank(tables.structName) ==>
      Generate(fuel, tables, 1, tables.structName, [Root], [Arrow], []).Some?
  {
    var t := tables.structName;
    GeneratesIff(fuel, tables, 1, t, [Root], [Arrow], []);
    if fuel >= rank(t) {
      RankedIsShallow(tables, rank, t, fuel);
    }
    if Shallow(fuel, tables, t) {
      GeneratesCompiled(fuel, tables, rank, 1, t, [Root], [Arrow], []);
    }
  }
}
