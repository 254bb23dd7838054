/**
 * The ordering of C type declarations in the Go-to-C generator
 * (gotocjson/gotocjson.go, topologically_sort_nodes).
 *
 * Every declared type has a source position and a list of the type names it
 * mentions.  The generator keeps only the names that are declared, sorts each
 * list by position, and then walks the names in position order, depth first,
 * emitting a type after the types it depends on.  There is no cycle check: a
 * name is marked as seen before its dependencies are visited.
 */
module TypeOrder {
  import opened TypeGraph
  import opened TypeLaws

  // ---------------------------------------------------------------------
  // The generator's own procedure

  /** The mentioned names that are declared, in their original order. */
  function Declared(names: seq<Name>, table: Table): seq<Name> {
    if names == [] then []
    else
      var rest := Declared(names[..|names| - 1], table);
      var last := names[|names| - 1];
      if last in table then rest + [last] else rest
  }

  /** Name by name: the declared ones stay, in their order and as often as they are mentioned. */
  lemma DeclaredMore(names: seq<Name>, x: Name, table: Table)
    ensures Declared([], table) == []
    ensures Declared(names + [x], table) == Declared(names, table) + if x in table then [x] else []
  {
    assert (names + [x])[..|names|] == names;
  }

  lemma {:induction false} DeclaredHolds(names: seq<Name>, table: Table)
    ensures forall n :: n in Declared(names, table) <==> n in names && n in table
  {
    if names != [] {
      DeclaredHolds(names[..|names| - 1], table);
      assert names == names[..|names| - 1] + [names[|names| - 1]];
    }
  }

  /** Compacts the list in place; the declared names end up in front of the returned index. */
  method KeepDeclared(names: array<Name>, table: Table) returns (newIndex: nat)
    modifies names
    ensures newIndex <= names.Length
    ensures names[..newIndex] == Declared(old(names[..]), table)
  {
    newIndex := 0;
    ghost var was := names[..];
    for oldIndex := 0 to names.Length
      invariant newIndex <= oldIndex
      invariant names[..newIndex] == Declared(was[..oldIndex], table)
      invariant forall i :: oldIndex <= i < names.Length ==> names[i] == was[i]
    {
      assert was[..oldIndex + 1][..oldIndex] == was[..oldIndex];
      if names[oldIndex] in table {
        names[newIndex] := names[oldIndex];
        newIndex := newIndex + 1;
      }
    }
    assert was[..names.Length] == was;
  }

  ghost predicate DistinctPositions(table: Table) {
    forall a, b :: a in table && b in table && a != b ==> table[a].pos != table[b].pos
  }

  ghost predicate SortedByPosition(names: seq<Name>, table: Table) {
    && (forall n :: n in names ==> n in table)
    && (forall i, j :: 0 <= i < j < |names| ==> table[names[i]].pos <= table[names[j]].pos)
  }

  lemma InsertKeepsSorted(s: seq<Name>, at: nat, n: Name, table: Table)
    requires SortedByPosition(s, table) && n in table && at <= |s|
    requires at > 0 ==> table[s[at - 1]].pos <= table[n].pos
    requires at < |s| ==> table[n].pos < table[s[at]].pos
    ensures SortedByPosition(s[..at] + [n] + s[at..], table)
  {
    var r := s[..at] + [n] + s[at..];
    forall i | 0 <= i < |r| ensures r[i] in table {
      InsertAt(s, at, n, i);
    }
    forall i, j | 0 <= i < j < |r| ensures table[r[i]].pos <= table[r[j]].pos
    {
      InsertPair(s, at, n, table, i, j);
    }
  }

  lemma InsertCounts(s: seq<Name>, at: nat, n: Name)
    requires at <= |s|
    ensures multiset(s[..at] + [n] + s[at..]) == multiset(s) + multiset{n}
  {
    assert s == s[..at] + s[at..];
  }

  lemma InsertPair(s: seq<Name>, at: nat, n: Name, table: Table, i: nat, j: nat)
    requires SortedByPosition(s, table) && n in table && at <= |s| && i < j <= |s|
    requires at > 0 ==> table[s[at - 1]].pos <= table[n].pos
    requires at < |s| ==> table[n].pos < table[s[at]].pos
    ensures var r := s[..at] + [n] + s[at..];
      r[i] in table && r[j] in table && table[r[i]].pos <= table[r[j]].pos
  {
    InsertAt(s, at, n, i);
    InsertAt(s, at, n, j);
    if j == at {
      assert i == at - 1 || table[s[i]].pos <= table[s[at - 1]].pos;
    } else if i == at {
      assert j - 1 == at || table[s[at]].pos <= table[s[j - 1]].pos;
    }
  }

  lemma InsertAt(s: seq<Name>, at: nat, n: Name, i: nat)
    requires at <= |s| && i <= |s|
    ensures (s[..at] + [n] + s[at..])[i] == if i < at then s[i] else if i == at then n else s[i - 1]
  {
  }

  /** Stands for the library sort: any correct sort by position. */
  method SortByPosition(names: seq<Name>, table: Table) returns (sorted: seq<Name>)
    requires forall n :: n in names ==> n in table
    ensures SortedByPosition(sorted, table) && multiset(sorted) == multiset(names)
  {
    sorted := [];
    for i := 0 to |names|
      invariant SortedByPosition(sorted, table) && multiset(sorted) == multiset(names[..i])
    {
      assert names[..i + 1] == names[..i] + [names[i]];
      sorted := InsertByPosition(sorted, names[i], table);
    }
    assert names[..|names|] == names;
  }

  method InsertByPosition(s: seq<Name>, n: Name, table: Table) returns (r: seq<Name>)
    requires SortedByPosition(s, table) && n in table
    ensures SortedByPosition(r, table) && multiset(r) == multiset(s) + multiset{n}
  {
    var at := |s|;
    while at > 0 && table[n].pos < table[s[at - 1]].pos
      invariant 0 <= at <= |s|
      invariant at < |s| ==> table[n].pos < table[s[at]].pos
    {
      at := at - 1;
    }
    InsertKeepsSorted(s, at, n, table);
    InsertCounts(s, at, n);
    r := s[..at] + [n] + s[at..];
  }

  lemma HeadCounts(s: seq<Name>)
    requires s != []
    ensures s[0] in multiset(s) && multiset(s[1..]) == multiset(s) - multiset{s[0]}
  {
    assert s == [s[0]] + s[1..];
  }

  lemma SmallestFirst(s: seq<Name>, n: Name, table: Table)
    requires SortedByPosition(s, table) && n in multiset(s)
    ensures n in table && |s| > 0 && table[s[0]].pos <= table[n].pos
  {
    var i :| 0 <= i < |s| && s[i] == n;
  }

  /** With distinct positions the sorted list is unique, so the choice of sort does not matter. */
  lemma {:induction false} SortedUnique(a: seq<Name>, b: seq<Name>, table: Table)
    requires DistinctPositions(table) && multiset(a) == multiset(b)
    requires SortedByPosition(a, table) && SortedByPosition(b, table)
    ensures a == b
  {
    if a == [] {
      assert |multiset(b)| == 0;
    } else {
      assert |multiset(b)| == |multiset(a)|;
      SameHead(a, b, table);
      SameTail(a, b);
      SortedUnique(a[1..], b[1..], table);
    }
  }

  lemma SameHead(a: seq<Name>, b: seq<Name>, table: Table)
    requires DistinctPositions(table) && multiset(a) == multiset(b) && a != [] && b != []
    requires SortedByPosition(a, table) && SortedByPosition(b, table)
    ensures a[0] == b[0]
  {
    assert b[0] in multiset(b) && a[0] in multiset(a);
    SmallestFirst(a, b[0], table);
    SmallestFirst(b, a[0], table);
  }

  lemma SameTail(a: seq<Name>, b: seq<Name>)
    requires multiset(a) == multiset(b) && a != [] && b != [] && a[0] == b[0]
    ensures multiset(a[1..]) == multiset(b[1..])
  {
    HeadCounts(a);
    HeadCounts(b);
    assert multiset(a[1..]) == multiset(a) - multiset{a[0]};
  }

  /** g is the filtered and sorted dependency graph of the table. */
  ghost predicate IsGraphOf(g: Graph, table: Table) {
    && g.Keys == table.Keys
    && (forall u :: u in g ==> SortedByPosition(g[u], table)
                               && multiset(g[u]) == multiset(Declared(table[u].dependsOn, table)))
  }

  lemma GraphOfClosed(g: Graph, table: Table)
    requires IsGraphOf(g, table)
    ensures Closed(g)
    ensures forall u, v :: u in table && v in table ==> (v in g[u] <==> v in table[u].dependsOn)
  {
    forall u, v | u in g && v in table
      ensures v in g[u] <==> v in table[u].dependsOn
    {
      DeclaredHolds(table[u].dependsOn, table);
      assert v in g[u] <==> v in multiset(g[u]);
      assert v in Declared(table[u].dependsOn, table) <==> v in multiset(Declared(table[u].dependsOn, table));
    }
  }

  datatype DeclarationKind = DeclarationKind(name: Name, kind: string)

  function NamesOf(s: seq<DeclarationKind>): (r: seq<Name>)
    ensures |r| == |s| && forall i :: 0 <= i < |s| ==> r[i] == s[i].name
  {
    seq(|s|, i requires 0 <= i < |s| => s[i].name)
  }

  /** The recursive closure of the sort, with the two variables it updates. */
  class TypeWalker {
    const table: Table
    const dependency: Graph
    var hasBeenSeen: set<Name>
    var finalTypeOrder: seq<DeclarationKind>

    constructor (table: Table, dependency: Graph)
      ensures this.table == table && this.dependency == dependency
      ensures hasBeenSeen == {} && finalTypeOrder == []
    {
      this.table := table;
      this.dependency := dependency;
      hasBeenSeen := {};
      finalTypeOrder := [];
    }

    ghost function State(): Walk
      reads this
    {
      Walk(hasBeenSeen, NamesOf(finalTypeOrder))
    }

    ghost predicate KindsMatch()
      reads this
    {
      forall d :: d in finalTypeOrder ==> d.name in table && d.kind == table[d.name].kind
    }

    method ProcessTypeNames(typeNames: seq<Name>)
      requires Closed(dependency) && dependency.Keys == table.Keys && KindsMatch()
      requires forall n :: n in typeNames ==> n in dependency
      modifies this
      ensures KindsMatch()
      ensures State() == Visit(dependency, typeNames, old(State()))
      decreases dependency.Keys - hasBeenSeen, |typeNames|
    {
      ghost var start := State();
      for i := 0 to |typeNames|
        invariant KindsMatch() && start.seen <= hasBeenSeen
        invariant forall n :: n in typeNames[i..] ==> n in dependency
        invariant Visit(dependency, typeNames, start) == Visit(dependency, typeNames[i..], State())
      {
        var typeName := typeNames[i];
        assert typeNames[i..][1..] == typeNames[i + 1..];
        if typeName !in hasBeenSeen {
          ghost var before := State();
          hasBeenSeen := hasBeenSeen + {typeName};
          assert State() == Walk(before.seen + {typeName}, before.order);
          ProcessTypeNames(dependency[typeName]);
          ghost var inner := State();
          finalTypeOrder := finalTypeOrder + [DeclarationKind(typeName, table[typeName].kind)];
          assert State() == Walk(inner.seen, inner.order + [typeName]);
        }
      }
    }
  }

  /** x was declared before y but y was emitted first: some type declared no later than x needs y. */
  ghost predicate StableOn(table: Table, g: Graph, order: seq<Name>) {
    forall x, y :: x in table && y in table && table[x].pos < table[y].pos && Before(order, y, x)
      ==> exists z :: z in table && table[z].pos <= table[x].pos && DependsOn(g, z, y)
  }

  ghost predicate Mentions(table: Table, u: Name, v: Name) {
    u in table && v in table && v in table[u].dependsOn
  }

  /**
   * Of two types that u mentions, the one declared first is emitted first, if nothing
   * but u mentions the other one and the first does not lead back to u.
   */
  ghost predicate SiblingsOn(table: Table, g: Graph, order: seq<Name>) {
    forall u, x, y ::
      && Mentions(table, u, x) && Mentions(table, u, y) && table[x].pos < table[y].pos
      && (forall w :: Mentions(table, w, y) ==> w == u) && !Reaches(g, x, u)
      ==> Before(order, x, y)
  }

  lemma MentionsAre(table: Table, g: Graph, u: Name, v: Name)
    requires IsGraphOf(g, table) && u in table
    ensures v in g[u] <==> Mentions(table, u, v)
  {
    DeclaredHolds(table[u].dependsOn, table);
    assert v in g[u] <==> v in multiset(g[u]);
    assert v in Declared(table[u].dependsOn, table) <==> v in multiset(Declared(table[u].dependsOn, table));
    DeclaredIff(table[u].dependsOn, table, v);
  }

  lemma {:induction false} DeclaredIff(names: seq<Name>, table: Table, v: Name)
    ensures v in Declared(names, table) <==> v in names && v in table
  {
    if names != [] {
      DeclaredIff(names[..|names| - 1], table, v);
      assert names == names[..|names| - 1] + [names[|names| - 1]];
    }
  }

  lemma SortedGuards(table: Table, names: seq<Name>, x: Name, y: Name)
    requires SortedByPosition(names, table) && x in names && x in table && y in table && table[x].pos < table[y].pos
    ensures Guards(names, x, y)
  {
    var i :| 0 <= i < |names| && names[i] == x;
    forall j | 0 <= j < |names| && names[j] == y
      ensures x in names[..j]
    {
      assert i < j;
      assert names[..j][i] == x;
    }
  }

  lemma SiblingsByPosition(table: Table, g: Graph, order: seq<Name>)
    requires IsGraphOf(g, table) && Closed(g) && Enumerates(g, order) && SortedByPosition(order, table)
    ensures SiblingsOn(table, g, Emitted(g, order))
  {
    forall u, x, y |
      && Mentions(table, u, x) && Mentions(table, u, y) && table[x].pos < table[y].pos
      && (forall w :: Mentions(table, w, y) ==> w == u) && !Reaches(g, x, u)
      ensures Before(Emitted(g, order), x, y)
    {
      MentionsAre(table, g, u, x);
      SortedGuards(table, g[u], x, y);
      assert x in Range(order);
      SortedGuards(table, order, x, y);
      forall w | w in g && y in g[w]
        ensures w == u
      {
        MentionsAre(table, g, w, y);
      }
      SiblingsInOrder(g, order, u, x, y);
    }
  }

  /** For every declaration the declared names it mentions, in declaration order; the names in some order of the map. */
  method CollectDependencies(table: Table) returns (g: Graph, tentative: seq<Name>)
    requires DistinctPositions(table)
    ensures IsGraphOf(g, table)
    ensures Distinct(tentative) && Range(tentative) == table.Keys
  {
    var dependency: Graph := map[];
    tentative := [];
    var remaining := table.Keys;
    while remaining != {}
      invariant remaining <= table.Keys && dependency.Keys == table.Keys - remaining
      invariant forall u :: u in dependency ==>
        && SortedByPosition(dependency[u], table)
        && multiset(dependency[u]) == multiset(Declared(table[u].dependsOn, table))
      invariant Distinct(tentative) && Range(tentative) == dependency.Keys
      decreases remaining
    {
      var typeName :| typeName in remaining;
      var sorted := SortedDependencies(table[typeName].dependsOn, table);
      dependency := dependency[typeName := sorted];
      OneMoreName(tentative, typeName);
      tentative := tentative + [typeName];
      remaining := remaining - {typeName};
    }
    g := dependency;
  }

  method SortedDependencies(mentioned: seq<Name>, table: Table) returns (sorted: seq<Name>)
    requires DistinctPositions(table)
    ensures SortedByPosition(sorted, table) && multiset(sorted) == multiset(Declared(mentioned, table))
  {
    var names := new Name[|mentioned|](i requires 0 <= i < |mentioned| => mentioned[i]);
    assert names[..] == mentioned;
    var newIndex := KeepDeclared(names, table);
    DeclaredHolds(mentioned, table);
    sorted := SortByPosition(names[..newIndex], table);
  }

  lemma OneMoreName(names: seq<Name>, x: Name)
    requires Distinct(names) && x !in Range(names)
    ensures Distinct(names + [x]) && Range(names + [x]) == Range(names) + {x}
  {
  }

  method TopologicallySortNodes(table: Table) returns (finalTypeOrder: seq<DeclarationKind>, g: Graph)
    requires DistinctPositions(table)
    ensures IsGraphOf(g, table) && Closed(g)
    ensures exists order :: Enumerates(g, order) && SortedByPosition(order, table)
                            && NamesOf(finalTypeOrder) == Emitted(g, order)
    ensures Distinct(NamesOf(finalTypeOrder)) && Range(NamesOf(finalTypeOrder)) == table.Keys
    ensures forall d :: d in finalTypeOrder ==> d.name in table && d.kind == table[d.name].kind
    ensures Ordered(g, NamesOf(finalTypeOrder))
    ensures DependenciesFirst(g, NamesOf(finalTypeOrder)) <==> Acyclic(g)
    ensures StableOn(table, g, NamesOf(finalTypeOrder))
    ensures SiblingsOn(table, g, NamesOf(finalTypeOrder))
    ensures Acyclic(g) ==> exists order, rank: Name -> nat, top: nat ::
      SortedByPosition(order, table) && IsUnfolding(g, rank, order, top, NamesOf(finalTypeOrder))
  {
    var tentative: seq<Name>;
    g, tentative := CollectDependencies(table);
    GraphOfClosed(g, table);
    InRange(tentative, table.Keys);
    var order := SortByPosition(tentative, table);
    SortedEnumeration(tentative, order, table);
    assert Enumerates(g, order);
    InRange(order, g.Keys);
    var walker := new TypeWalker(table, g);
    walker.ProcessTypeNames(order);
    finalTypeOrder := walker.finalTypeOrder;
    assert NamesOf(finalTypeOrder) == Emitted(g, order);
    EmitsEachOnceInOrder(g, order);
    DependenciesFirstIffAcyclic(g, order);
    StableByPosition(table, g, order);
    SiblingsByPosition(table, g, order);
    if Acyclic(g) {
      var rank, top := Unfolds(g, order);
    }
  }

  lemma SortedEnumeration(names: seq<Name>, order: seq<Name>, table: Table)
    requires Distinct(names) && multiset(names) == multiset(order)
    ensures Distinct(order) && Range(order) == Range(names)
  {
    DistinctCounts(names);
    forall i, j | 0 <= i < j < |order| ensures order[i] != order[j] {
      CountedTwice(order, i, j);
    }
    forall x ensures x in Range(order) <==> x in Range(names) {
      assert x in order <==> x in multiset(order);
      assert x in names <==> x in multiset(names);
    }
  }

  lemma CountedTwice(s: seq<Name>, i: nat, j: nat)
    requires i < j < |s|
    ensures s[i] == s[j] ==> multiset(s)[s[i]] >= 2
  {
    assert s == s[..j] + s[j..];
    assert s[..j][i] == s[i] && s[j..][0] == s[j];
    assert s[i] in multiset(s[..j]) && s[j] in multiset(s[j..]);
  }

  lemma {:induction false} DistinctCounts(s: seq<Name>)
    requires Distinct(s)
    ensures forall x :: multiset(s)[x] <= 1
  {
    if s != [] {
      DistinctCounts(s[1..]);
      assert s == [s[0]] + s[1..];
      assert s[0] !in s[1..];
    }
  }

  lemma StableByPosition(table: Table, g: Graph, order: seq<Name>)
    requires IsGraphOf(g, table) && Closed(g) && Enumerates(g, order)
    requires SortedByPosition(order, table)
    ensures StableOn(table, g, Emitted(g, order))
  {
    forall x, y | x in table && y in table && table[x].pos < table[y].pos && Before(Emitted(g, order), y, x)
      ensures exists z :: z in table && table[z].pos <= table[x].pos && DependsOn(g, z, y)
    {
      var z := StableAt(table, g, order, x, y);
    }
  }

  lemma StableAt(table: Table, g: Graph, order: seq<Name>, x: Name, y: Name) returns (z: Name)
    requires Closed(g) && Enumerates(g, order) && g.Keys == table.Keys && x in table && y in table
    requires SortedByPosition(order, table)
    requires table[x].pos < table[y].pos && Before(Emitted(g, order), y, x)
    ensures z in table && table[z].pos <= table[x].pos && DependsOn(g, z, y)
  {
    assert x in Range(order) && y in Range(order);
    var i :| 0 <= i < |order| && order[i] == x;
    var j :| 0 <= j < |order| && order[j] == y;
    Stable(g, order, i, j);
    var k :| 0 <= k <= i && DependsOn(g, order[k], order[j]);
    z := order[k];
  }

  lemma SameEnumeration(a: seq<Name>, b: seq<Name>)
    requires Distinct(a) && Distinct(b) && Range(a) == Range(b)
    ensures multiset(a) == multiset(b)
  {
    DistinctCounts(a);
    DistinctCounts(b);
    forall x ensures multiset(a)[x] == multiset(b)[x] {
      assert x in a <==> x in Range(a);
      assert x in b <==> x in Range(b);
      assert x in a <==> x in multiset(a);
      assert x in b <==> x in multiset(b);
    }
  }

  /** The position order and the graph are unique, so the emitted order is a function of the table. */
  lemma OrderDetermined(table: Table, g: Graph, h: Graph, a: seq<Name>, b: seq<Name>)
    requires DistinctPositions(table) && IsGraphOf(g, table) && IsGraphOf(h, table)
    requires Enumerates(g, a) && Enumerates(h, b)
    requires SortedByPosition(a, table) && SortedByPosition(b, table)
    ensures g == h && a == b
  {
    forall u | u in g ensures g[u] == h[u] {
      SortedUnique(g[u], h[u], table);
    }
    SameEnumeration(a, b);
    SortedUnique(a, b, table);
  }
}
