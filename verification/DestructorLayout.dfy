/**
 * The generated destructors over the layout of the package's C types: what
 * `Destructor` and `DestructorShapes` prove holds of exactly the objects these
 * types have.
 */
module DestructorLayout {
  import opened Wrappers
  import opened CTypes
  import opened MiniC
  import opened Destructor
  import opened DestructorShapes
  import opened CLayout

  /** A name under which the generator meets type t. */
  ghost predicate Names(p: Package, t: CType, name: string) {
    name == Printed(p.name, t) || name == Bare(p.name, t)
  }

  ghost predicate Setting(p: Package, level: string -> nat, rank: string -> nat, t: CType, name: string) {
    && WellNamed(p) && AliasesEnd(p, level) && Ranked(TablesOf(p), rank)
    && WellTyped(p, t) && Names(p, t, name) && rank(name) > 0
  }

  /** The objects the generator's reading of a name describes are the objects of the type. */
  lemma {:induction false} HasTypeIsA(p: Package, level: string -> nat, rank: string -> nat, t: CType, name: string, o: Obj)
    requires Setting(p, level, rank, t, name)
    ensures HasType(TablesOf(p), rank, name, o) <==> IsA(p, level, t, o)
    decreases rank(name), 3
  {
    match t
    case ListType(e) => ListIsA(p, level, rank, t, name, o);
    case PointerType(e) => PointerIsA(p, level, rank, t, name, o);
    case Own(_) => OwnIsA(p, level, rank, t, name, o);
    case _ => LeafIsA(p, level, rank, t, name, o);
  }

  lemma LeafIsA(p: Package, level: string -> nat, rank: string -> nat, t: CType, name: string, o: Obj)
    requires Setting(p, level, rank, t, name) && (t.Scalar? || t.TextType? || t.Other?)
    ensures HasType(TablesOf(p), rank, name, o) <==> IsA(p, level, t, o)
  {
    ClassifyPrinted(p, t);
    LeafHas(TablesOf(p), rank, name, o);
    LeafIs(p, level, t, o);
    if t.Other? {
      NamedLeaf(p, t.name, o);
    }
  }

  lemma LeafHas(tables: Tables, rank: string -> nat, name: string, o: Obj)
    requires Ranked(tables, rank) && rank(name) > 0
    ensures Classify(tables, name).Plain? ==> (HasType(tables, rank, name, o) <==> o.PlainObj?)
    ensures Classify(tables, name).Text? ==> (HasType(tables, rank, name, o) <==> o.NullText? || o.TextObj?)
    ensures Classify(tables, name).Foreign? ==>
      (HasType(tables, rank, name, o) <==> HasLeaf(LeafOf(tables, Classify(tables, name).target), o))
  {
  }

  lemma LeafIs(p: Package, level: string -> nat, t: CType, o: Obj)
    requires AliasesEnd(p, level) && WellNamed(p)
    ensures t.Scalar? ==> (IsA(p, level, t, o) <==> o.PlainObj?)
    ensures t.TextType? ==> (IsA(p, level, t, o) <==> o.NullText? || o.TextObj?)
    ensures t.Other? ==> (IsA(p, level, t, o) <==> IsNamed(p, t.name, o))
  {
  }

  lemma {:induction false} ListIsA(p: Package, level: string -> nat, rank: string -> nat, t: CType, name: string, o: Obj)
    requires Setting(p, level, rank, t, name) && t.ListType?
    ensures HasType(TablesOf(p), rank, name, o) <==> IsA(p, level, t, o)
    decreases rank(name), 2
  {
    var tables := TablesOf(p);
    var inner := InnerName(p, t, t.elem, name);
    assert Falls(rank, name, Classify(tables, name));
    if o.ListObj? {
      forall i | 0 <= i < |o.elems|
        ensures HasType(tables, rank, inner, o.elems[i]) <==> IsA(p, level, t.elem, o.elems[i])
      {
        HasTypeIsA(p, level, rank, t.elem, inner, o.elems[i]);
      }
    }
  }

  lemma {:induction false} PointerIsA(p: Package, level: string -> nat, rank: string -> nat, t: CType, name: string, o: Obj)
    requires Setting(p, level, rank, t, name) && t.PointerType?
    ensures HasType(TablesOf(p), rank, name, o) <==> IsA(p, level, t, o)
    decreases rank(name), 2
  {
    var inner := InnerName(p, t, t.target, name);
    assert Falls(rank, name, Classify(TablesOf(p), name));
    if o.PointerObj? {
      HasTypeIsA(p, level, rank, t.target, inner, o.target);
    }
  }

  lemma {:induction false} OwnIsA(p: Package, level: string -> nat, rank: string -> nat, t: CType, name: string, o: Obj)
    requires Setting(p, level, rank, t, name) && t.Own?
    ensures HasType(TablesOf(p), rank, name, o) <==> IsA(p, level, t, o)
    decreases rank(name), 2
  {
    var n := t.name;
    if name == Printed(p.name, t) {
      ClassifyPrinted(p, t);
      assert Falls(rank, name, Classify(TablesOf(p), name));
      OwnBare(p, t, n);
      HasTypeIsA(p, level, rank, t, n, o);
    } else {
      DeclIsA(p, level, rank, n, o);
    }
  }

  lemma OwnBare(p: Package, t: CType, n: string)
    requires t == Own(n)
    ensures Bare(p.name, t) == n
  {
  }

  /** The name of what is in a list or behind a pointer. */
  lemma InnerName(p: Package, t: CType, e: CType, name: string) returns (inner: string)
    requires WellNamed(p) && WellTyped(p, t) && Names(p, t, name) && (t == ListType(e) || t == PointerType(e))
    ensures Names(p, e, inner) && WellTyped(p, e)
    ensures t.ListType? ==> Classify(TablesOf(p), name) == ListOf(inner)
    ensures t.PointerType? ==> Classify(TablesOf(p), name) == PointerTo(inner)
  {
    ClassifyPrinted(p, t);
    if name == Printed(p.name, t) {
      inner := Printed(p.name, e);
    } else {
      inner := Bare(p.name, e);
      if Innermost(t).Own? {
        ClassifyBare(p, t);
      } else {
        BareIsPrinted(p, t);
        BareIsPrinted(p, e);
      }
    }
  }

  /** A declared type under its own name. */
  lemma {:induction false} DeclIsA(p: Package, level: string -> nat, rank: string -> nat, n: string, o: Obj)
    requires Setting(p, level, rank, Own(n), n)
    ensures HasType(TablesOf(p), rank, n, o) <==> IsA(p, level, Own(n), o)
    decreases rank(n), 1
  {
    assert Falls(rank, n, Classify(TablesOf(p), n));
    ClassifyBare(p, Own(n));
    assert WellDeclared(p, p.decls[n]);
    match p.decls[n]
    case Struct(fs) =>
      FieldRanks(p, rank, n, fs);
      StructIsA(p, level, rank, n, fs, o);
    case AliasOf(u) =>
      AliasHas(TablesOf(p), rank, n, Bare(p.name, u), o);
      AliasIs(p, level, n, u, o);
      HasTypeIsA(p, level, rank, u, Bare(p.name, u), o);
    case _ => PlainBoth(p, level, rank, n, o);
  }

  lemma AliasHas(tables: Tables, rank: string -> nat, n: string, b: string, o: Obj)
    requires Ranked(tables, rank) && rank(n) > 0 && Classify(tables, n) == Alias(b)
    ensures 0 < rank(b) < rank(n) && (HasType(tables, rank, n, o) <==> HasType(tables, rank, b, o))
  {
    assert Falls(rank, n, Classify(tables, n));
  }

  lemma AliasIs(p: Package, level: string -> nat, n: string, u: CType, o: Obj)
    requires WellNamed(p) && AliasesEnd(p, level) && n in p.decls && p.decls[n] == AliasOf(u)
    ensures IsA(p, level, Own(n), o) <==> IsA(p, level, u, o)
  {
    assert WellDeclared(p, p.decls[n]);
  }

  /** Declarations without parts. */
  lemma PlainBoth(p: Package, level: string -> nat, rank: string -> nat, n: string, o: Obj)
    requires Setting(p, level, rank, Own(n), n) && (p.decls[n].Enumeration? || p.decls[n].Renamed?)
    ensures HasType(TablesOf(p), rank, n, o) <==> IsA(p, level, Own(n), o)
  {
    ClassifyBare(p, Own(n));
    if p.decls[n].Renamed? {
      NamedLeaf(p, p.decls[n].of, o);
    }
  }

  lemma FieldRanks(p: Package, rank: string -> nat, n: string, fs: seq<FieldDecl>)
    requires Ranked(TablesOf(p), rank) && rank(n) > 0
    requires Classify(TablesOf(p), n) == StructOf(PrintedFields(p.name, fs))
    ensures forall i :: 0 <= i < |fs| ==> 0 < rank(PrintedFields(p.name, fs)[i].cType) < rank(n)
  {
    assert Falls(rank, n, Classify(TablesOf(p), n));
  }

  lemma {:induction false} StructIsA(p: Package, level: string -> nat, rank: string -> nat, n: string, fs: seq<FieldDecl>, o: Obj)
    requires Setting(p, level, rank, Own(n), n) && p.decls[n] == Struct(fs)
    requires Classify(TablesOf(p), n) == StructOf(PrintedFields(p.name, fs))
    requires forall i :: 0 <= i < |fs| ==> 0 < rank(PrintedFields(p.name, fs)[i].cType) < rank(n)
    ensures HasType(TablesOf(p), rank, n, o) <==> IsA(p, level, Own(n), o)
    decreases rank(n), 0
  {
    assert WellDeclared(p, p.decls[n]);
    var printed := PrintedFields(p.name, fs);
    StructHas(TablesOf(p), rank, n, printed, o);
    StructIs(p, level, n, fs, o);
    if o.StructObj? && |o.values| == |fs| {
      forall i | 0 <= i < |fs|
        ensures HasType(TablesOf(p), rank, printed[i].cType, o.values[i]) <==> IsA(p, level, fs[i].cType, o.values[i])
      {
        HasTypeIsA(p, level, rank, fs[i].cType, printed[i].cType, o.values[i]);
      }
    }
  }

  lemma StructHas(tables: Tables, rank: string -> nat, n: string, fields: seq<Field>, o: Obj)
    requires Ranked(tables, rank) && rank(n) > 0 && Classify(tables, n) == StructOf(fields)
    requires forall i :: 0 <= i < |fields| ==> 0 < rank(fields[i].cType) < rank(n)
    ensures HasType(tables, rank, n, o) <==>
      && o.StructObj? && |o.names| == |o.values| == |fields|
      && (forall i :: 0 <= i < |fields| ==> o.names[i] == fields[i].name)
      && (forall i :: 0 <= i < |fields| ==> HasType(tables, rank, fields[i].cType, o.values[i]))
  {
  }

  lemma StructIs(p: Package, level: string -> nat, n: string, fs: seq<FieldDecl>, o: Obj)
    requires WellNamed(p) && AliasesEnd(p, level) && n in p.decls && p.decls[n] == Struct(fs)
    ensures IsA(p, level, Own(n), o) <==>
      && o.StructObj? && |o.names| == |o.values| == |fs|
      && (forall i :: 0 <= i < |fs| ==> o.names[i] == fs[i].name)
      && (forall i :: 0 <= i < |fs| ==> IsA(p, level, fs[i].cType, o.values[i]))
  {
  }

  lemma NamedLeaf(p: Package, n: string, o: Obj)
    ensures HasLeaf(LeafOf(TablesOf(p), n), o) <==> IsNamed(p, n, o)
  {
  }

  // ---------------------------------------------------------------------
  // The results over the layout

  /** A call on an object of the struct, everything it owns live and owned once. */
  ghost predicate OwnedTree(p: Package, level: string -> nat, c: Call, s: State)
    requires WellNamed(p) && AliasesEnd(p, level)
  {
    && c.routines == p.routines
    && c.root.PointerObj? && IsA(p, level, Own(p.structName), c.root.target)
    && NoRepeats(Teardown(c.root, c.json)) && Addrs(Teardown(c.root, c.json)) <= s.live
  }

  ghost predicate Generated(p: Package, level: string -> nat, rank: string -> nat) {
    Setting(p, level, rank, Own(p.structName), p.structName)
  }

  lemma OwnedIff(p: Package, level: string -> nat, rank: string -> nat, c: Call, s: State)
    requires Generated(p, level, rank)
    ensures OwnedTree(p, level, c, s) <==> Owned(TablesOf(p), rank, c, s)
  {
    if c.root.PointerObj? {
      HasTypeIsA(p, level, rank, Own(p.structName), p.structName, c.root.target);
    }
  }

  lemma FieldsDistinct(p: Package)
    requires WellNamed(p)
    ensures DistinctFields(TablesOf(p))
  {
    var tables := TablesOf(p);
    forall t | t in tables.structFields
      ensures forall i, j :: 0 <= i < j < |tables.structFields[t]| ==> tables.structFields[t][i] != tables.structFields[t][j]
    {
      assert WellDeclared(p, p.decls[t]);
    }
  }

  /** Every block an object of an accepted struct owns is released exactly once. */
  lemma TreeReleased(p: Package, level: string -> nat, rank: string -> nat, c: Call, s: State)
    requires Generated(p, level, rank) && RootAccepted(TablesOf(p), rank) && OwnedTree(p, level, c, s)
    ensures Releases(TablesOf(p), rank, c, s) && NoRepeats(Released(c))
  {
    FieldsDistinct(p);
    OwnedIff(p, level, rank, c, s);
    RoutineReleases(TablesOf(p), rank, c, s);
  }

  /** And the routine is right on every object of the struct exactly when the struct is accepted. */
  lemma CorrectIffTypeAccepted(p: Package, level: string -> nat, rank: string -> nat)
    requires Generated(p, level, rank)
    ensures (forall c, s :: OwnedTree(p, level, c, s) ==> Releases(TablesOf(p), rank, c, s))
            <==> RootAccepted(TablesOf(p), rank)
  {
    FieldsDistinct(p);
    CorrectIffAccepted(TablesOf(p), rank);
    forall c, s
      ensures OwnedTree(p, level, c, s) <==> Owned(TablesOf(p), rank, c, s)
    {
      OwnedIff(p, level, rank, c, s);
    }
  }

  // ---------------------------------------------------------------------
  // What is released

  /** Every block of an object, however it is reached. */
  function BlocksOf(o: Obj): multiset<Addr>
    decreases o, 1
  {
    match o
    case TextObj(a) => multiset{a}
    case StructObj(_, vs) => BlocksOfAll(vs)
    case ListObj(a, es) => BlocksOfAll(es) + multiset{a}
    case PointerObj(a, x) => BlocksOf(x) + multiset{a}
    case DelegatedObj(bs, ts) => multiset(bs) + multiset(ts)
    case _ => multiset{}
  }

  function BlocksOfAll(os: seq<Obj>): multiset<Addr>
    decreases os, 0
  {
    if os == [] then multiset{} else BlocksOf(os[0]) + BlocksOfAll(os[1..])
  }

  /** The release order holds every block of the object; with a JSON tree, every block but the texts. */
  lemma {:induction false} TeardownIsAll(o: Obj)
    ensures multiset(Teardown(o, false)) == BlocksOf(o)
    ensures multiset(Teardown(o, true)) + Texts(o) == BlocksOf(o)
    decreases o, 1
  {
    JsonKeepsTexts(o);
    match o
    case StructObj(_, vs) => TeardownAllIsAll(vs);
    case ListObj(_, es) => TeardownAllIsAll(es);
    case PointerObj(_, x) => TeardownIsAll(x);
    case _ =>
  }

  lemma {:induction false} TeardownAllIsAll(os: seq<Obj>)
    ensures multiset(TeardownAll(os, false)) == BlocksOfAll(os)
    ensures multiset(TeardownBack(os, false)) == BlocksOfAll(os)
    decreases os, 0
  {
    if os != [] {
      TeardownIsAll(os[0]);
      TeardownAllIsAll(os[1..]);
    }
  }
}
