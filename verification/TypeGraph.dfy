/**
 * The depth-first walk that orders types by their dependencies, on any graph
 * (gotocjson/gotocjson.go, topologically_sort_nodes).
 */
module TypeGraph {

  type Name = string

  /** One entry of the `dependency` table. */
  datatype Declaration = Declaration(kind: string, pos: int, dependsOn: seq<Name>)

  type Table = map<Name, Declaration>

  /** A dependency graph: for each declared name, the declared names it depends on, in visiting order. */
  type Graph = map<Name, seq<Name>>

  ghost predicate Closed(g: Graph) {
    forall u, v :: u in g && v in g[u] ==> v in g
  }

  // ---------------------------------------------------------------------
  // Reachability

  ghost predicate IsPath(g: Graph, p: seq<Name>) {
    && |p| > 0
    && (forall i :: 0 <= i < |p| ==> p[i] in g)
    && (forall i :: 0 <= i < |p| - 1 ==> p[i + 1] in g[p[i]])
  }

  /** There is a (possibly empty) chain of dependencies from u to v. */
  ghost predicate Reaches(g: Graph, u: Name, v: Name) {
    exists p :: IsPath(g, p) && p[0] == u && p[|p| - 1] == v
  }

  /** u transitively depends on v: at least one dependency step. */
  ghost predicate DependsOn(g: Graph, u: Name, v: Name) {
    u in g && exists w :: w in g[u] && Reaches(g, w, v)
  }

  ghost predicate Acyclic(g: Graph) {
    forall u :: u in g ==> !DependsOn(g, u, u)
  }

  lemma ReachesSelf(g: Graph, u: Name)
    requires u in g
    ensures Reaches(g, u, u)
  {
    assert IsPath(g, [u]) && [u][0] == u && [u][|[u]| - 1] == u;
  }

  lemma ReachesStep(g: Graph, u: Name, v: Name, w: Name)
    requires Reaches(g, u, v) && w in g && w in g[v]
    ensures Reaches(g, u, w)
  {
    var p :| IsPath(g, p) && p[0] == u && p[|p| - 1] == v;
    var q := p + [w];
    assert IsPath(g, q) && q[0] == u && q[|q| - 1] == w;
  }

  lemma ReachesTransitive(g: Graph, u: Name, v: Name, w: Name)
    requires Reaches(g, u, v) && Reaches(g, v, w)
    ensures Reaches(g, u, w)
  {
    var p :| IsPath(g, p) && p[0] == u && p[|p| - 1] == v;
    var q :| IsPath(g, q) && q[0] == v && q[|q| - 1] == w;
    var r := p + q[1..];
    assert forall i :: |p| <= i < |r| ==> r[i] == q[i - |p| + 1];
    assert IsPath(g, r) && r[0] == u && r[|r| - 1] == w;
  }

  // ---------------------------------------------------------------------
  // The walk, as a function of the seen set and the emitted order

  datatype Walk = Walk(seen: set<Name>, order: seq<Name>)

  ghost function Range(s: seq<Name>): set<Name> { set x | x in s }

  ghost function Visit(g: Graph, names: seq<Name>, s: Walk): (r: Walk)
    requires Closed(g)
    requires forall n :: n in names ==> n in g
    ensures s.seen <= r.seen
    decreases g.Keys - s.seen, |names|
  {
    if names == [] then s
    else
      var u := names[0];
      if u in s.seen then Visit(g, names[1..], s)
      else
        var inner := Visit(g, g[u], Walk(s.seen + {u}, s.order));
        Visit(g, names[1..], Walk(inner.seen, inner.order + [u]))
  }

  /** Visiting two lists one after the other is visiting their concatenation. */
  lemma {:induction false} VisitAppend(g: Graph, a: seq<Name>, b: seq<Name>, s: Walk)
    requires Closed(g)
    requires forall n :: n in a + b ==> n in g
    ensures (forall n :: n in a ==> n in g) && (forall n :: n in b ==> n in g)
    ensures Visit(g, a + b, s) == Visit(g, b, Visit(g, a, s))
    decreases g.Keys - s.seen, |a|
  {
    assert forall n :: n in a ==> n in a + b;
    assert forall n :: n in b ==> n in a + b;
    if a == [] {
      assert a + b == b;
    } else {
      var u := a[0];
      assert (a + b)[1..] == a[1..] + b;
      if u in s.seen {
        VisitAppend(g, a[1..], b, s);
      } else {
        var inner := Visit(g, g[u], Walk(s.seen + {u}, s.order));
        VisitAppend(g, a[1..], b, Walk(inner.seen, inner.order + [u]));
      }
    }
  }

  // ---------------------------------------------------------------------
  // What a visit keeps

  ghost predicate Distinct(s: seq<Name>) {
    forall i, j :: 0 <= i < j < |s| ==> s[i] != s[j]
  }

  /** a occurs in s, and before every occurrence of b. */
  ghost predicate Before(s: seq<Name>, a: Name, b: Name) {
    exists i :: 0 <= i < |s| && s[i] == a && forall k :: 0 <= k <= i ==> s[k] != b
  }

  /** Every emitted type comes after each of its dependencies that does not lead back to it. */
  ghost predicate Ordered(g: Graph, order: seq<Name>) {
    forall u, v :: u in order && u in g && v in g[u] && !Reaches(g, v, u) ==> Before(order, v, u)
  }

  /** The names marked as seen whose own emission is still pending. */
  ghost function Pending(s: Walk): set<Name> { s.seen - Range(s.order) }

  ghost predicate Consistent(g: Graph, s: Walk) {
    && Range(s.order) <= s.seen <= g.Keys
    && Distinct(s.order)
    && Ordered(g, s.order)
  }

  lemma OrderedAppend(g: Graph, order: seq<Name>, u: Name)
    requires Ordered(g, order) && u in g && u !in order
    requires forall v :: v in g[u] ==> v in order || Reaches(g, v, u)
    ensures Ordered(g, order + [u])
  {
    var r := order + [u];
    forall x, v | x in r && x in g && v in g[x] && !Reaches(g, v, x)
      ensures Before(r, v, x)
    {
      if x in order {
        assert Before(order, v, x);
        var i :| 0 <= i < |order| && order[i] == v && forall k :: 0 <= k <= i ==> order[k] != x;
        assert r[i] == v;
      } else {
        assert x == u && v in order;
        var i :| 0 <= i < |order| && order[i] == v;
        assert r[i] == v;
      }
    }
  }

  /**
   * The invariant of the walk.  Nothing pending changes; everything asked for is
   * seen afterwards; the order only grows, by names reachable from the list; and
   * the emitted part stays distinct and ordered.
   */
  lemma {:induction false} VisitKeeps(g: Graph, names: seq<Name>, s: Walk)
    requires Closed(g) && Consistent(g, s)
    requires forall n :: n in names ==> n in g
    requires forall p, n :: p in Pending(s) && n in names ==> Reaches(g, p, n)
    ensures var r := Visit(g, names, s);
      && Consistent(g, r)
      && Pending(r) == Pending(s)
      && Range(names) <= r.seen
      && s.order <= r.order
      && (forall y :: y in r.seen && y !in s.seen ==> exists n :: n in names && Reaches(g, n, y))
    decreases g.Keys - s.seen, |names|
  {
    if names == [] {
    } else {
      var u := names[0];
      var rest := names[1..];
      assert forall n :: n in rest ==> n in names;
      if u in s.seen {
        VisitKeeps(g, rest, s);
        var r := Visit(g, rest, s);
        assert forall n :: n in names ==> n == u || n in rest;
      } else {
        var marked := Walk(s.seen + {u}, s.order);
        VisitMarked(g, names, s);
        var inner := Visit(g, g[u], marked);
        var emitted := Walk(inner.seen, inner.order + [u]);
        EmitKeeps(g, u, s, inner);
        VisitKeeps(g, rest, emitted);
        var r := Visit(g, rest, emitted);
        assert forall n :: n in names ==> n == u || n in rest;
        forall y | y in r.seen && y !in s.seen
          ensures exists n :: n in names && Reaches(g, n, y)
        {
          if y in emitted.seen {
            assert Reaches(g, u, y);
          }
        }
      }
    }
  }

  /** The visit of one unseen name's dependencies, with that name pending. */
  lemma {:induction false} VisitMarked(g: Graph, names: seq<Name>, s: Walk)
    requires Closed(g) && Consistent(g, s)
    requires forall n :: n in names ==> n in g
    requires forall p, n :: p in Pending(s) && n in names ==> Reaches(g, p, n)
    requires |names| > 0 && names[0] !in s.seen
    ensures var u := names[0];
      var inner := Visit(g, g[u], Walk(s.seen + {u}, s.order));
      && Consistent(g, inner)
      && Pending(inner) == Pending(s) + {u}
      && Range(g[u]) <= inner.seen
      && s.order <= inner.order
      && (forall p :: p in Pending(s) + {u} ==> Reaches(g, p, u))
      && (forall y :: y in inner.seen && y !in s.seen ==> Reaches(g, u, y))
    decreases g.Keys - s.seen, |names|, 0
  {
    var u := names[0];
    var marked := Walk(s.seen + {u}, s.order);
    ReachesSelf(g, u);
    assert Pending(marked) == Pending(s) + {u};
    forall p, n | p in Pending(marked) && n in g[u]
      ensures Reaches(g, p, n)
    {
      ReachesStep(g, p, u, n);
    }
    VisitKeeps(g, g[u], marked);
    var inner := Visit(g, g[u], marked);
    forall y | y in inner.seen && y !in s.seen
      ensures Reaches(g, u, y)
    {
      if y != u {
        var n :| n in g[u] && Reaches(g, n, y);
        ReachesStep(g, u, u, n);
        ReachesTransitive(g, u, n, y);
      }
    }
  }

  lemma EmitKeeps(g: Graph, u: Name, s: Walk, inner: Walk)
    requires u in g && u !in s.seen && Consistent(g, s) && Consistent(g, inner)
    requires Pending(inner) == Pending(s) + {u} && Range(g[u]) <= inner.seen && s.order <= inner.order
    requires forall p :: p in Pending(s) + {u} ==> Reaches(g, p, u)
    ensures var emitted := Walk(inner.seen, inner.order + [u]);
      Consistent(g, emitted) && Pending(emitted) == Pending(s) && s.order <= emitted.order
      && u in emitted.seen
  {
    var emitted := Walk(inner.seen, inner.order + [u]);
    assert u in Pending(inner);
    assert Range(emitted.order) == Range(inner.order) + {u};
    forall v | v in g[u] ensures v in inner.order || Reaches(g, v, u) {
      assert v in Range(g[u]);
      if v !in inner.order {
        assert v in Pending(inner);
      }
    }
    OrderedAppend(g, inner.order, u);
  }

  // ---------------------------------------------------------------------
  // Whole runs

  const START := Walk({}, [])

  /** A list holding every declared name once. */
  ghost predicate Enumerates(g: Graph, names: seq<Name>) {
    Distinct(names) && Range(names) == g.Keys
  }

  ghost function Emitted(g: Graph, names: seq<Name>): seq<Name>
    requires Closed(g) && Range(names) <= g.Keys
  {
    InRange(names, g.Keys);
    Visit(g, names, START).order
  }

  lemma InRange(names: seq<Name>, keys: set<Name>)
    requires Range(names) <= keys
    ensures forall n :: n in names ==> n in keys
  {
    assert forall n :: n in names ==> n in Range(names);
  }

  /** A run over part of the enumeration: everything seen has been emitted. */
  lemma RunKeeps(g: Graph, names: seq<Name>)
    requires Closed(g) && Range(names) <= g.Keys
    ensures forall n :: n in names ==> n in g
    ensures var r := Visit(g, names, START);
      && Consistent(g, r) && r.seen == Range(r.order) && Range(names) <= r.seen
      && (forall y :: y in r.seen ==> exists n :: n in names && Reaches(g, n, y))
  {
    InRange(names, g.Keys);
    VisitKeeps(g, names, START);
    var r := Visit(g, names, START);
    assert Pending(START) == {};
    assert Pending(r) == {};
    assert r.seen == Range(r.order);
  }

  /** On every graph, cyclic or not: each declared type is emitted exactly once, dependencies first. */
  lemma EmitsEachOnceInOrder(g: Graph, names: seq<Name>)
    requires Closed(g) && Enumerates(g, names)
    ensures Enumerates(g, Emitted(g, names))
    ensures Ordered(g, Emitted(g, names))
  {
    RunKeeps(g, names);
  }

  ghost predicate DependenciesFirst(g: Graph, order: seq<Name>) {
    forall u, v :: u in g && v in g[u] ==> Before(order, v, u)
  }

  /** Every dependency precedes its dependent exactly when the graph has no cycle. */
  lemma DependenciesFirstIffAcyclic(g: Graph, names: seq<Name>)
    requires Closed(g) && Enumerates(g, names)
    ensures DependenciesFirst(g, Emitted(g, names)) <==> Acyclic(g)
  {
    EmitsEachOnceInOrder(g, names);
    var order := Emitted(g, names);
    assert forall n :: n in g ==> n in Range(order);
    if Acyclic(g) {
      forall u, v | u in g && v in g[u] ensures Before(order, v, u) {
        assert Reaches(g, v, u) ==> DependsOn(g, u, u);
      }
    }
    if DependenciesFirst(g, order) {
      forall u | u in g ensures !DependsOn(g, u, u) {
        if DependsOn(g, u, u) {
          TransitivelyFirst(g, order, u, u);
        }
      }
    }
  }

  /** On an acyclic graph the transitive dependencies come first as well. */
  lemma AcyclicTransitivelyFirst(g: Graph, names: seq<Name>, u: Name, v: Name)
    requires Closed(g) && Enumerates(g, names) && Acyclic(g) && DependsOn(g, u, v)
    ensures Before(Emitted(g, names), v, u)
  {
    DependenciesFirstIffAcyclic(g, names);
    EmitsEachOnceInOrder(g, names);
    TransitivelyFirst(g, Emitted(g, names), u, v);
  }

  lemma TransitivelyFirst(g: Graph, order: seq<Name>, u: Name, v: Name)
    requires Closed(g) && Enumerates(g, order) && DependenciesFirst(g, order) && DependsOn(g, u, v)
    ensures Before(order, v, u) && u != v
  {
    var w :| w in g[u] && Reaches(g, w, v);
    var p :| IsPath(g, p) && p[0] == w && p[|p| - 1] == v;
    PathGoesBack(g, order, [u] + p);
  }

  /** Along a path of at least two names, the last is emitted before the first. */
  lemma {:induction false} PathGoesBack(g: Graph, order: seq<Name>, p: seq<Name>)
    requires Closed(g) && Enumerates(g, order) && DependenciesFirst(g, order)
    requires |p| > 1 && IsPath(g, p)
    ensures Before(order, p[|p| - 1], p[0]) && p[0] != p[|p| - 1]
  {
    assert p[1] in g[p[0]];
    assert p[0] in Range(order) && p[1] in Range(order);
    if |p| > 2 {
      var q := p[1..];
      assert forall i :: 0 <= i < |q| ==> q[i] == p[i + 1];
      PathGoesBack(g, order, q);
      BeforeTransitive(order, q[|q| - 1], q[0], p[0]);
    } else {
      BeforeIrreflexive(order, p[1], p[0]);
    }
  }

  lemma BeforeIrreflexive(s: seq<Name>, a: Name, b: Name)
    requires Before(s, a, b)
    ensures a != b
  {
    var i :| 0 <= i < |s| && s[i] == a && forall k :: 0 <= k <= i ==> s[k] != b;
  }

  lemma BeforeTransitive(s: seq<Name>, a: Name, b: Name, c: Name)
    requires Distinct(s) && Before(s, a, b) && Before(s, b, c)
    ensures Before(s, a, c) && a != c
  {
    var i :| 0 <= i < |s| && s[i] == a && forall k :: 0 <= k <= i ==> s[k] != b;
    var j :| 0 <= j < |s| && s[j] == b && forall k :: 0 <= k <= j ==> s[k] != c;
    assert i < j;
    assert s[i] == a && forall k :: 0 <= k <= i ==> s[k] != c;
    BeforeIrreflexive(s, a, c);
  }

  /**
   * Stability: a type declared after x is emitted before x only because some
   * type declared no later than x transitively depends on it.
   */
  lemma Stable(g: Graph, names: seq<Name>, i: nat, j: nat)
    requires Closed(g) && Enumerates(g, names) && i < j < |names|
    requires Before(Emitted(g, names), names[j], names[i])
    ensures exists k :: 0 <= k <= i && DependsOn(g, names[k], names[j])
  {
    var x, y, head := names[i], names[j], names[..i + 1];
    var early := Visit(g, head, START).order;
    HeadFirst(g, names, i + 1);
    assert head[i] == x && x in Range(head);
    PrefixHolds(early, Emitted(g, names), y, x);
    assert y in Range(early);
    var n :| n in head && Reaches(g, n, y);
    var k :| 0 <= k < |head| && head[k] == n;
    assert names[k] == n != y;
    ReachesOther(g, n, y);
  }

  /** The first names are emitted first, with what they reach and nothing else. */
  lemma HeadFirst(g: Graph, names: seq<Name>, k: nat)
    requires Closed(g) && Enumerates(g, names) && k <= |names|
    ensures forall n :: n in names ==> n in g
    ensures var head := names[..k];
      var early := Visit(g, head, START).order;
      && early <= Emitted(g, names) && Distinct(Emitted(g, names)) && Range(head) <= Range(early)
      && forall y :: y in Range(early) ==> exists n :: n in head && Reaches(g, n, y)
  {
    var head, tail := names[..k], names[k..];
    assert names == head + tail;
    InRange(names, g.Keys);
    VisitAppend(g, head, tail, START);
    assert Range(head) <= Range(names);
    RunKeeps(g, head);
    RunKeeps(g, names);
    OrderGrows(g, tail, Visit(g, head, START));
  }

  /** A later walk only adds to the order. */
  lemma OrderGrows(g: Graph, names: seq<Name>, s: Walk)
    requires Closed(g) && Consistent(g, s) && s.seen == Range(s.order)
    requires forall n :: n in names ==> n in g
    ensures s.order <= Visit(g, names, s).order
  {
    assert Pending(s) == {};
    VisitKeeps(g, names, s);
  }

  lemma PrefixHolds(part: seq<Name>, whole: seq<Name>, y: Name, x: Name)
    requires part <= whole && Distinct(whole) && x in part && Before(whole, y, x)
    ensures y in part
  {
    var i :| 0 <= i < |whole| && whole[i] == y && forall k :: 0 <= k <= i ==> whole[k] != x;
    var k :| 0 <= k < |part| && part[k] == x;
    assert whole[k] == x;
    assert i < k;
    assert part[i] == y;
  }

  lemma ReachesOther(g: Graph, u: Name, v: Name)
    requires Reaches(g, u, v) && u != v
    ensures DependsOn(g, u, v)
  {
    var p :| IsPath(g, p) && p[0] == u && p[|p| - 1] == v;
    var q := p[1..];
    assert forall i :: 0 <= i < |q| ==> q[i] == p[i + 1];
    assert IsPath(g, q) && q[|q| - 1] == v;
    assert q[0] in g[u] && Reaches(g, q[0], v);
  }

  /** Each name's dependencies (itself apart) are listed before it. */
  ghost predicate Respects(g: Graph, names: seq<Name>) {
    forall k, v :: 0 <= k < |names| && names[k] in g && v in g[names[k]] ==> v in names[..k + 1]
  }

  /** The declaration order comes out unchanged exactly when it already respects every dependency. */
  lemma UnchangedIffRespects(g: Graph, names: seq<Name>)
    requires Closed(g) && Enumerates(g, names)
    ensures Emitted(g, names) == names <==> Respects(g, names)
  {
    InRange(names, g.Keys);
    assert names[..|names|] == names;
    if Respects(g, names) {
      RespectedPrefix(g, names, |names|);
    }
    if Emitted(g, names) == names {
      forall k, v | 0 <= k < |names| && v in g[names[k]]
        ensures v in names[..k + 1]
      {
        UnchangedAt(g, names, k);
      }
    }
  }

  lemma UnchangedAt(g: Graph, names: seq<Name>, k: nat)
    requires Closed(g) && Enumerates(g, names) && Emitted(g, names) == names && k < |names|
    ensures names[k] in g && forall v :: v in g[names[k]] ==> v in names[..k + 1]
  {
    UnchangedPrefix(g, names, k);
    assert names[..k + 1] == names[..k] + [names[k]];
    UnchangedStep(g, names, names[..k], names[k]);
  }

  /** All dependencies already seen: the visit does nothing. */
  lemma {:induction false} VisitSeen(g: Graph, names: seq<Name>, s: Walk)
    requires Closed(g) && (forall n :: n in names ==> n in g && n in s.seen)
    ensures Visit(g, names, s) == s
    decreases |names|
  {
    if names != [] {
      VisitSeen(g, names[1..], s);
    }
  }

  lemma {:induction false} RespectedPrefix(g: Graph, names: seq<Name>, k: nat)
    requires Closed(g) && Enumerates(g, names) && Respects(g, names) && k <= |names|
    ensures forall n :: n in names ==> n in g
    ensures Visit(g, names[..k], START) == Walk(Range(names[..k]), names[..k])
  {
    InRange(names, g.Keys);
    if k > 0 {
      var u := names[k - 1];
      RespectedPrefix(g, names, k - 1);
      assert names[..k] == names[..k - 1] + [u];
      assert forall v :: v in g[u] ==> v in names[..k];
      RespectedStep(g, names[..k - 1], u);
    }
  }

  lemma RespectedStep(g: Graph, head: seq<Name>, u: Name)
    requires Closed(g) && u in g && u !in head && forall n :: n in head ==> n in g
    requires Visit(g, head, START) == Walk(Range(head), head)
    requires forall v :: v in g[u] ==> v in head + [u]
    ensures forall n :: n in head + [u] ==> n in g
    ensures Visit(g, head + [u], START) == Walk(Range(head + [u]), head + [u])
  {
    var s := Walk(Range(head), head);
    VisitAppend(g, head, [u], START);
    VisitSeen(g, g[u], Walk(s.seen + {u}, s.order));
    assert [u][1..] == [];
    RangeAppend(head, u);
  }

  lemma {:induction false} UnchangedPrefix(g: Graph, names: seq<Name>, k: nat)
    requires Closed(g) && Enumerates(g, names) && Emitted(g, names) == names && k <= |names|
    ensures forall n :: n in names ==> n in g
    ensures Visit(g, names[..k], START) == Walk(Range(names[..k]), names[..k])
    decreases k, 0
  {
    InRange(names, g.Keys);
    if k > 0 {
      UnchangedPrefix(g, names, k - 1);
      assert names[..k] == names[..k - 1] + [names[k - 1]];
      UnchangedStep(g, names, names[..k - 1], names[k - 1]);
    }
  }

  /** If the names in head come out unchanged, the next name finds its dependencies among them. */
  lemma {:induction false} UnchangedStep(g: Graph, names: seq<Name>, head: seq<Name>, u: Name)
    requires Closed(g) && Enumerates(g, names) && Emitted(g, names) == names && head + [u] <= names
    requires forall n :: n in head + [u] ==> n in g
    requires forall n :: n in head ==> n in g
    requires Visit(g, head, START) == Walk(Range(head), head)
    ensures forall v :: v in g[u] ==> v in head + [u]
    ensures Visit(g, head + [u], START) == Walk(Range(head + [u]), head + [u])
  {
    var s := Walk(Range(head), head);
    assert Range(head) <= g.Keys;
    RunKeeps(g, head);
    assert Pending(s) == {};
    assert names[|head|] == (head + [u])[|head|] == u;
    assert u !in head by {
      assert forall i :: 0 <= i < |head| ==> head[i] == (head + [u])[i] == names[i];
    }
    var inner := Visit(g, g[u], Walk(s.seen + {u}, s.order));
    VisitOne(g, u, s);
    VisitAppend(g, head, [u], START);
    EmittedIsPrefix(g, names, head + [u]);
    SamePrefix(names, inner.order, head, u);
    RangeAppend(head, u);
    assert inner.seen == Range(inner.order) + Pending(inner);
    forall v | v in g[u] ensures v in head + [u] {
      assert v in Range(g[u]);
    }
  }

  lemma RangeAppend(s: seq<Name>, u: Name)
    ensures Range(s + [u]) == Range(s) + {u}
  {
    assert forall x :: x in s + [u] <==> x in s || x == u;
  }

  lemma SamePrefix(names: seq<Name>, a: seq<Name>, b: seq<Name>, u: Name)
    requires Distinct(names) && a + [u] <= names && b + [u] <= names
    ensures a == b
  {
    assert names[|a|] == (a + [u])[|a|] == u;
    assert names[|b|] == (b + [u])[|b|] == u;
    assert |a| == |b|;
    forall i | 0 <= i < |a| ensures a[i] == b[i] {
      assert names[i] == (a + [u])[i] == (b + [u])[i];
    }
  }

  lemma EmittedIsPrefix(g: Graph, names: seq<Name>, head: seq<Name>)
    requires Closed(g) && Enumerates(g, names) && head <= names
    requires forall n :: n in head ==> n in g
    ensures Visit(g, head, START).order <= Emitted(g, names)
  {
    var tail := names[|head|..];
    assert names == head + tail;
    assert Range(head) <= g.Keys;
    InRange(names, g.Keys);
    VisitAppend(g, head, tail, START);
    RunKeeps(g, head);
    var mid := Visit(g, head, START);
    assert Pending(mid) == {};
    assert forall n :: n in tail ==> n in names;
    VisitKeeps(g, tail, mid);
  }

  lemma VisitOne(g: Graph, u: Name, s: Walk)
    requires Closed(g) && Consistent(g, s) && Pending(s) == {} && u in g && u !in s.seen
    ensures var inner := Visit(g, g[u], Walk(s.seen + {u}, s.order));
      && Visit(g, [u], s) == Walk(inner.seen, inner.order + [u])
      && Consistent(g, inner) && Pending(inner) == {u} && Range(g[u]) <= inner.seen
  {
    VisitMarked(g, [u], s);
    assert [u][1..] == [];
  }
}
