/**
 * How the destructor generator reads a C type name, and the object trees those
 * types describe (gotocjson/gotocjson.go, process_item).
 */
module CTypes {
  import opened Wrappers

  /**
   * What the generator is given: the package, the struct whose routine is written,
   * and the tables process_item consults.  integral holds the (struct, field) pairs
   * whose foreign C type is of that category.  The last three say what the tables do
   * not: which other type names are scalars or texts in C, and which routines
   * destroy_..._ptr_tree there are.
   */
  datatype Tables = Tables(
    packageName: string,
    structName: string,
    structFields: map<string, seq<string>>,
    fieldTypes: map<string, map<string, string>>,
    enums: set<string>,
    typedefs: map<string, string>,
    structTypedefs: set<string>,
    integral: set<(string, string)>,
    scalars: set<string>,
    texts: set<string>,
    routines: set<string>)

  datatype Field = Field(name: string, cType: string)

  /** Which branch of process_item a type name takes. */
  datatype Shape =
    | ListOf(base: string)
    | PointerTo(base: string)
    | StructOf(fields: seq<Field>)
    | Alias(base: string)
    | Delegated(routine: string, target: string)
    | Foreign(target: string)
    | Text
    | Plain

  const SCALARS := {"bool", "int", "int32", "int64", "float64", "struct_timespec"}

  /** (.+)_List$ */
  function TrailingList(t: string): Option<string> {
    if |t| > 5 && t[|t| - 5..] == "_List" then Some(t[..|t| - 5]) else None
  }

  /** (.+)_[Pp]tr$ */
  function TrailingPtr(t: string): Option<string> {
    if |t| > 4 && (t[|t| - 4..] == "_Ptr" || t[|t| - 4..] == "_ptr") then Some(t[..|t| - 4]) else None
  }

  /** The unanchored pattern <package>_(.+): its leftmost match. */
  function LeadingPackage(packageName: string, t: string): Option<string> {
    if |t| <= |packageName| + 1 then None
    else if packageName + "_" <= t then Some(t[|packageName| + 1..])
    else LeadingPackage(packageName, t[1..])
  }

  function FieldType(tables: Tables, structName: string, field: string): string {
    if structName in tables.fieldTypes && field in tables.fieldTypes[structName]
    then tables.fieldTypes[structName][field] else ""
  }

  function Classify(tables: Tables, t: string): Shape {
    if TrailingList(t).Some? then ListOf(TrailingList(t).value)
    else if TrailingPtr(t).Some? then PointerTo(TrailingPtr(t).value)
    else if t in tables.structFields then
      var names := tables.structFields[t];
      StructOf(seq(|names|, i requires 0 <= i < |names| => Field(names[i], FieldType(tables, t, names[i]))))
    else if t in tables.enums then Plain
    else if t in tables.typedefs then
      var target := tables.typedefs[t];
      if LeadingPackage(tables.packageName, target).Some?
      then Alias(LeadingPackage(tables.packageName, target).value)
      else if target in tables.structTypedefs then Delegated(tables.packageName + "_" + target, target)
      else Delegated(target, target)
    else if t in SCALARS then Plain
    else if t == "string" then Text
    else if LeadingPackage(tables.packageName, t).Some?
    then Alias(LeadingPackage(tables.packageName, t).value)
    else Foreign(t)
  }

  /**
   * A rank that falls with every step process_item takes into a type.  Types of rank
   * zero are left open; the generator ends on exactly the types that can have another.
   */
  ghost predicate Ranked(tables: Tables, rank: string -> nat) {
    forall t {:trigger Falls(rank, t, Classify(tables, t))} :: rank(t) > 0 ==> Falls(rank, t, Classify(tables, t))
  }

  ghost predicate Falls(rank: string -> nat, t: string, s: Shape) {
    match s
    case ListOf(b) => 0 < rank(b) < rank(t)
    case PointerTo(b) => 0 < rank(b) < rank(t)
    case Alias(b) => 0 < rank(b) < rank(t)
    case StructOf(fs) => forall i :: 0 <= i < |fs| ==> 0 < rank(fs[i].cType) < rank(t)
    case _ => true
  }

  /** What an object owns whose layout the tables do not give: nothing, characters, or blocks of its own. */
  datatype Leaf = Nothing | Characters | Blocks

  function LeafOf(tables: Tables, t: string): Leaf {
    if t in SCALARS || t in tables.scalars then Nothing
    else if t == "string" || t in tables.texts then Characters
    else Blocks
  }

  /** Field names are distinct within a struct, as in Go. */
  ghost predicate DistinctFields(tables: Tables) {
    forall t :: t in tables.structFields ==>
      var names := tables.structFields[t];
      forall i, j :: 0 <= i < j < |names| ==> names[i] != names[j]
  }

  // ---------------------------------------------------------------------
  // Object trees

  /** The address of a heap block. */
  type Addr = nat

  /**
   * An object together with everything it owns.  A list owns the block holding
   * its elements, a pointer the block holding its target, a text its character
   * block.  A delegated object is destroyed by another routine; texts are kept
   * apart because they belong to the JSON tree when there is one.
   */
  datatype Obj =
    | PlainObj
    | NullText
    | TextObj(addr: Addr)
    | StructObj(names: seq<string>, values: seq<Obj>)
    | NullList(count: nat)
    | ListObj(addr: Addr, elems: seq<Obj>)
    | NullPointer
    | PointerObj(addr: Addr, target: Obj)
    | DelegatedObj(blocks: seq<Addr>, texts: seq<Addr>)

  ghost predicate HasType(tables: Tables, rank: string -> nat, t: string, o: Obj)
    requires Ranked(tables, rank) && rank(t) > 0
    decreases rank(t)
  {
    assert Falls(rank, t, Classify(tables, t));
    match Classify(tables, t)
    case ListOf(b) =>
      o.NullList? || (o.ListObj? && forall i :: 0 <= i < |o.elems| ==> HasType(tables, rank, b, o.elems[i]))
    case PointerTo(b) => o.NullPointer? || (o.PointerObj? && HasType(tables, rank, b, o.target))
    case StructOf(fs) =>
      && o.StructObj? && |o.names| == |o.values| == |fs|
      && (forall i :: 0 <= i < |fs| ==> o.names[i] == fs[i].name && HasType(tables, rank, fs[i].cType, o.values[i]))
    case Alias(b) => HasType(tables, rank, b, o)
    case Delegated(_, target) => HasLeaf(LeafOf(tables, target), o)
    case Foreign(target) => HasLeaf(LeafOf(tables, target), o)
    case Text => o.NullText? || o.TextObj?
    case Plain => o.PlainObj?
  }

  predicate HasLeaf(leaf: Leaf, o: Obj) {
    match leaf
    case Nothing => o.PlainObj?
    case Characters => o.NullText? || o.TextObj?
    case Blocks => o.DelegatedObj?
  }

  /**
   * The blocks an object owns, in the order a destructor must release them:
   * what a block holds goes before the block.  With a JSON tree present the
   * texts are not the object's own.
   */
  function Teardown(o: Obj, json: bool): seq<Addr>
    decreases o, 1
  {
    match o
    case TextObj(a) => if json then [] else [a]
    case StructObj(_, vs) => TeardownAll(vs, json)
    case ListObj(a, es) => TeardownBack(es, json) + [a]
    case PointerObj(a, x) => Teardown(x, json) + [a]
    case DelegatedObj(bs, ts) => if json then bs else bs + ts
    case _ => []
  }

  function TeardownAll(os: seq<Obj>, json: bool): seq<Addr>
    decreases os, 0
  {
    if os == [] then [] else Teardown(os[0], json) + TeardownAll(os[1..], json)
  }

  /** Last element first: the generated loops count down. */
  function TeardownBack(os: seq<Obj>, json: bool): seq<Addr>
    decreases os, 0
  {
    if os == [] then [] else TeardownBack(os[1..], json) + Teardown(os[0], json)
  }

  ghost predicate NoRepeats(s: seq<Addr>) {
    forall i, j :: 0 <= i < j < |s| ==> s[i] != s[j]
  }

  ghost function Addrs(s: seq<Addr>): set<Addr> { set a | a in s }

  // ---------------------------------------------------------------------
  // Children before parents

  /** Block a holds the object o somewhere in tree r: r contains a pointer or list block a over o. */
  ghost predicate Holds(r: Obj, a: Addr, o: Obj)
    decreases r
  {
    match r
    case PointerObj(b, x) => (a == b && o == x) || Holds(x, a, o)
    case ListObj(b, es) => (a == b && o in es) || exists i :: 0 <= i < |es| && Holds(es[i], a, o)
    case StructObj(_, vs) => exists i :: 0 <= i < |vs| && Holds(vs[i], a, o)
    case _ => false
  }

  /** Every address of part is followed by a in s. */
  ghost predicate AllBefore(s: seq<Addr>, part: seq<Addr>, a: Addr) {
    forall b :: b in part ==> exists i, j :: 0 <= i < j < |s| && s[i] == b && s[j] == a
  }

  lemma AllBeforeWidens(pre: seq<Addr>, s: seq<Addr>, post: seq<Addr>, part: seq<Addr>, a: Addr)
    requires AllBefore(s, part, a)
    ensures AllBefore(pre + s + post, part, a)
  {
    var r := pre + s + post;
    forall b | b in part ensures exists i, j :: 0 <= i < j < |r| && r[i] == b && r[j] == a {
      var i, j :| 0 <= i < j < |s| && s[i] == b && s[j] == a;
      assert r[|pre| + i] == b && r[|pre| + j] == a;
    }
  }

  /** In the teardown order, everything a block holds goes before the block itself. */
  lemma {:induction false} ChildrenFirst(r: Obj, json: bool, a: Addr, o: Obj)
    requires Holds(r, a, o)
    ensures AllBefore(Teardown(r, json), Teardown(o, json), a)
    decreases r, 1
  {
    match r
    case PointerObj(b, x) =>
      var s := Teardown(x, json);
      if a == b && o == x {
        HeldDirectly([], s, [], a);
        assert [] + s + [] == s;
      } else {
        ChildrenFirst(x, json, a, o);
        AllBeforeWidens([], s, [b], Teardown(o, json), a);
        assert [] + s + [b] == s + [b];
      }
    case ListObj(b, es) =>
      if a == b && o in es {
        var i :| 0 <= i < |es| && es[i] == o;
        var pre, post := BackContains(es, json, i);
        HeldDirectly(pre, Teardown(o, json), post, a);
      } else {
        var i :| 0 <= i < |es| && Holds(es[i], a, o);
        ChildrenFirst(es[i], json, a, o);
        var pre, post := BackContains(es, json, i);
        var s := Teardown(es[i], json);
        AllBeforeWidens(pre, s, post + [b], Teardown(o, json), a);
        assert pre + s + (post + [b]) == pre + s + post + [b];
      }
    case StructObj(_, vs) =>
      var i :| 0 <= i < |vs| && Holds(vs[i], a, o);
      ChildrenFirst(vs[i], json, a, o);
      var pre, post := AllContains(vs, json, i);
      AllBeforeWidens(pre, Teardown(vs[i], json), post, Teardown(o, json), a);
    case _ =>
  }

  lemma HeldDirectly(pre: seq<Addr>, s: seq<Addr>, post: seq<Addr>, a: Addr)
    ensures AllBefore(pre + s + post + [a], s, a)
  {
    var r := pre + s + post + [a];
    forall b | b in s ensures exists i, j :: 0 <= i < j < |r| && r[i] == b && r[j] == a {
      var k :| 0 <= k < |s| && s[k] == b;
      assert r[|pre| + k] == b && r[|r| - 1] == a;
    }
  }

  lemma {:induction false} AllContains(os: seq<Obj>, json: bool, i: nat) returns (pre: seq<Addr>, post: seq<Addr>)
    requires i < |os|
    ensures TeardownAll(os, json) == pre + Teardown(os[i], json) + post
  {
    if i == 0 {
      pre, post := [], TeardownAll(os[1..], json);
    } else {
      pre, post := AllContains(os[1..], json, i - 1);
      var head := Teardown(os[0], json);
      assert head + (pre + Teardown(os[i], json) + post) == (head + pre) + Teardown(os[i], json) + post;
      pre := head + pre;
    }
  }

  lemma {:induction false} BackContains(os: seq<Obj>, json: bool, i: nat) returns (pre: seq<Addr>, post: seq<Addr>)
    requires i < |os|
    ensures TeardownBack(os, json) == pre + Teardown(os[i], json) + post
  {
    if i == 0 {
      pre, post := TeardownBack(os[1..], json), [];
      assert pre + Teardown(os[0], json) + post == pre + Teardown(os[0], json);
    } else {
      pre, post := BackContains(os[1..], json, i - 1);
      var last := Teardown(os[0], json);
      assert (pre + Teardown(os[i], json) + post) + last == pre + Teardown(os[i], json) + (post + last);
      post := post + last;
    }
  }
}
