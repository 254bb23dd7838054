/**
 * What the depth-first walk emits, said without the walk: on a graph without cycles
 * it is the full unfolding of the graph with repetitions dropped, and on any graph
 * the dependencies of a name come out in the order in which they are listed.
 */
module TypeLaws {
  import opened TypeGraph
  import Seqs

  // ---------------------------------------------------------------------
  // The unfolding

  /** A number that falls along every dependency; only graphs without cycles have one. */
  ghost predicate Falls(g: Graph, rank: Name -> nat) {
    forall u, v :: u in g && v in g[u] ==> rank(v) < rank(u)
  }

  ghost predicate Ranks(g: Graph, rank: Name -> nat, top: nat) {
    Falls(g, rank) && forall n :: n in g ==> rank(n) < top
  }

  /** Each name after the unfolding of its dependencies, as often as it is mentioned. */
  ghost function Unfold(g: Graph, rank: Name -> nat, u: Name): seq<Name>
    requires Closed(g) && Falls(g, rank) && u in g
    decreases rank(u), 1, 0
  {
    UnfoldAll(g, rank, g[u], rank(u)) + [u]
  }

  ghost function UnfoldAll(g: Graph, rank: Name -> nat, names: seq<Name>, top: nat): seq<Name>
    requires Closed(g) && Falls(g, rank)
    requires forall n :: n in names ==> n in g && rank(n) < top
    decreases top, 0, |names|
  {
    if names == [] then [] else Unfold(g, rank, names[0]) + UnfoldAll(g, rank, names[1..], top)
  }

  /** First occurrences only, and none of what has been seen. */
  ghost function Fresh(s: seq<Name>, seen: set<Name>): seq<Name> {
    if s == [] then []
    else if s[0] in seen then Fresh(s[1..], seen)
    else [s[0]] + Fresh(s[1..], seen + {s[0]})
  }

  lemma {:induction false} FreshAppend(a: seq<Name>, b: seq<Name>, seen: set<Name>)
    ensures Fresh(a + b, seen) == Fresh(a, seen) + Fresh(b, seen + Range(a))
  {
    if a == [] {
      Seqs.Nothing(b);
      assert seen + Range(a) == seen;
      Seqs.Nothing(Fresh(b, seen));
    } else {
      assert (a + b)[1..] == a[1..] + b;
      RangeHead(a);
      if a[0] in seen {
        FreshAppend(a[1..], b, seen);
        assert seen + Range(a[1..]) == seen + Range(a);
      } else {
        FreshAppend(a[1..], b, seen + {a[0]});
        assert seen + {a[0]} + Range(a[1..]) == seen + Range(a);
        Seqs.Assoc([a[0]], Fresh(a[1..], seen + {a[0]}), Fresh(b, seen + Range(a)));
      }
    }
  }

  lemma RangeHead(a: seq<Name>)
    requires a != []
    ensures Range(a) == {a[0]} + Range(a[1..])
  {
    assert a == [a[0]] + a[1..];
  }

  lemma RangeAppend(a: seq<Name>, b: seq<Name>)
    ensures Range(a + b) == Range(a) + Range(b)
  {
  }

  lemma {:induction false} FreshNone(a: seq<Name>, seen: set<Name>)
    requires Range(a) <= seen
    ensures Fresh(a, seen) == []
  {
    if a != [] {
      RangeHead(a);
      FreshNone(a[1..], seen);
    }
  }

  lemma {:induction false} FreshRange(a: seq<Name>, seen: set<Name>)
    ensures Range(Fresh(a, seen)) == Range(a) - seen
  {
    if a != [] {
      RangeHead(a);
      if a[0] in seen {
        FreshRange(a[1..], seen);
      } else {
        FreshRange(a[1..], seen + {a[0]});
        RangeAppend([a[0]], Fresh(a[1..], seen + {a[0]}));
        assert Range([a[0]]) == {a[0]};
      }
    }
  }

  /** What is emitted has its dependencies emitted. */
  ghost predicate Complete(g: Graph, order: seq<Name>) {
    forall u, v :: u in order && u in g && v in g[u] ==> v in order
  }

  lemma {:induction false} UnfoldEmitted(g: Graph, rank: Name -> nat, u: Name, order: seq<Name>)
    requires Closed(g) && Falls(g, rank) && Complete(g, order) && u in order && u in g
    ensures Range(Unfold(g, rank, u)) <= Range(order)
    decreases rank(u), 1, 0
  {
    UnfoldAllEmitted(g, rank, g[u], rank(u), order);
    RangeAppend(UnfoldAll(g, rank, g[u], rank(u)), [u]);
    assert Range([u]) == {u};
  }

  lemma {:induction false} UnfoldAllEmitted(g: Graph, rank: Name -> nat, names: seq<Name>, top: nat, order: seq<Name>)
    requires Closed(g) && Falls(g, rank) && Complete(g, order)
    requires forall n :: n in names ==> n in g && rank(n) < top && n in order
    ensures Range(UnfoldAll(g, rank, names, top)) <= Range(order)
    decreases top, 0, |names|
  {
    if names != [] {
      UnfoldEmitted(g, rank, names[0], order);
      UnfoldAllEmitted(g, rank, names[1..], top, order);
      RangeAppend(Unfold(g, rank, names[0]), UnfoldAll(g, rank, names[1..], top));
    } else {
      assert Range(UnfoldAll(g, rank, names, top)) == {};
    }
  }

  lemma {:induction false} UnfoldLower(g: Graph, rank: Name -> nat, u: Name, x: Name)
    requires Closed(g) && Falls(g, rank) && u in g && x in Unfold(g, rank, u)
    ensures x == u || rank(x) < rank(u)
    decreases rank(u), 1, 0
  {
    if x in UnfoldAll(g, rank, g[u], rank(u)) {
      UnfoldAllLower(g, rank, g[u], rank(u), x);
    }
  }

  lemma {:induction false} UnfoldAllLower(g: Graph, rank: Name -> nat, names: seq<Name>, top: nat, x: Name)
    requires Closed(g) && Falls(g, rank)
    requires forall n :: n in names ==> n in g && rank(n) < top
    requires x in UnfoldAll(g, rank, names, top)
    ensures rank(x) < top
    decreases top, 0, |names|
  {
    if x in Unfold(g, rank, names[0]) {
      UnfoldLower(g, rank, names[0], x);
    } else {
      UnfoldAllLower(g, rank, names[1..], top, x);
    }
  }

  /** Between visits without cycles: what is pending ranks above what is asked for, and the rest is complete. */
  ghost predicate Steady(g: Graph, rank: Name -> nat, s: Walk, top: nat) {
    && Range(s.order) <= s.seen <= g.Keys && Complete(g, s.order)
    && forall p :: p in s.seen && p !in s.order ==> rank(p) >= top
  }

  /** The walk adds the unfolding of the names, with what has been seen dropped. */
  lemma {:induction false} VisitUnfolds(g: Graph, rank: Name -> nat, names: seq<Name>, top: nat, s: Walk)
    requires Closed(g) && Falls(g, rank) && Steady(g, rank, s, top)
    requires forall n :: n in names ==> n in g && rank(n) < top
    ensures var r := Visit(g, names, s);
      && r.order == s.order + Fresh(UnfoldAll(g, rank, names, top), Range(s.order))
      && Steady(g, rank, r, top)
      && r.seen - Range(r.order) == s.seen - Range(s.order)
      && Range(names) <= Range(r.order)
    decreases g.Keys - s.seen, |names|
  {
    if names == [] {
      assert Range(names) == {};
      Seqs.Nothing(s.order);
    } else {
      var u, rest := names[0], names[1..];
      RangeHead(names);
      var first, later := Unfold(g, rank, u), UnfoldAll(g, rank, rest, top);
      FreshAppend(first, later, Range(s.order));
      if u in s.seen {
        UnfoldEmitted(g, rank, u, s.order);
        FreshNone(first, Range(s.order));
        assert Range(s.order) + Range(first) == Range(s.order);
        VisitUnfolds(g, rank, rest, top, s);
        Seqs.Nothing(Fresh(later, Range(s.order)));
      } else {
        var emitted := VisitOne(g, rank, u, top, s);
        VisitUnfolds(g, rank, rest, top, emitted);
        RangeAppend(s.order, Fresh(first, Range(s.order)));
        FreshRange(first, Range(s.order));
        assert Range(emitted.order) == Range(s.order) + Range(first);
        Seqs.Assoc(s.order, Fresh(first, Range(s.order)), Fresh(later, Range(emitted.order)));
        assert u in emitted.order;
        assert emitted.order <= Visit(g, rest, emitted).order;
      }
    }
  }

  /** One name that has not been seen: its dependencies, then the name. */
  lemma {:induction false} VisitOne(g: Graph, rank: Name -> nat, u: Name, top: nat, s: Walk) returns (emitted: Walk)
    requires Closed(g) && Falls(g, rank) && Steady(g, rank, s, top) && u in g && rank(u) < top && u !in s.seen
    ensures var inner := Visit(g, g[u], Walk(s.seen + {u}, s.order));
      emitted == Walk(inner.seen, inner.order + [u])
    ensures emitted.order == s.order + Fresh(Unfold(g, rank, u), Range(s.order))
    ensures Steady(g, rank, emitted, top) && s.seen + {u} <= emitted.seen
    ensures emitted.seen - Range(emitted.order) == s.seen - Range(s.order)
    decreases g.Keys - s.seen, 0
  {
    var marked := Walk(s.seen + {u}, s.order);
    assert g.Keys - marked.seen < g.Keys - s.seen;
    VisitUnfolds(g, rank, g[u], rank(u), marked);
    var inner := Visit(g, g[u], marked);
    emitted := Walk(inner.seen, inner.order + [u]);
    OneEmitted(g, rank, u, top, s, inner);
  }

  lemma OneEmitted(g: Graph, rank: Name -> nat, u: Name, top: nat, s: Walk, inner: Walk)
    requires Closed(g) && Falls(g, rank) && Steady(g, rank, s, top) && u in g && rank(u) < top && u !in s.seen
    requires s.seen + {u} <= inner.seen <= g.Keys
    requires inner.order == s.order + Fresh(UnfoldAll(g, rank, g[u], rank(u)), Range(s.order))
    requires Complete(g, inner.order) && Range(inner.order) <= inner.seen && Range(g[u]) <= Range(inner.order)
    requires inner.seen - Range(inner.order) == s.seen + {u} - Range(s.order)
    ensures var emitted := Walk(inner.seen, inner.order + [u]);
      && emitted.order == s.order + Fresh(Unfold(g, rank, u), Range(s.order))
      && Steady(g, rank, emitted, top)
      && emitted.seen - Range(emitted.order) == s.seen - Range(s.order)
  {
    var below := UnfoldAll(g, rank, g[u], rank(u));
    if u in below {
      UnfoldAllLower(g, rank, g[u], rank(u), u);
    }
    FreshAppend(below, [u], Range(s.order));
    assert Fresh([u], Range(s.order) + Range(below)) == [u];
    Seqs.Assoc(s.order, Fresh(below, Range(s.order)), [u]);
    PendingFalls(s, inner, u);
    EmittedComplete(g, u, inner.order);
  }

  lemma PendingFalls(s: Walk, inner: Walk, u: Name)
    requires Range(s.order) <= s.seen && u !in s.seen && u in inner.seen && Range(inner.order) <= inner.seen
    requires inner.seen - Range(inner.order) == s.seen + {u} - Range(s.order)
    ensures inner.seen - Range(inner.order + [u]) == s.seen - Range(s.order)
    ensures Range(inner.order + [u]) <= inner.seen
    ensures forall p :: p in inner.seen && p !in inner.order + [u] ==> p in s.seen && p !in s.order
  {
    var order := inner.order + [u];
    assert forall p :: p in Range(order) <==> p in Range(inner.order) || p == u;
    assert u in inner.seen - Range(inner.order);
    forall p
      ensures p in inner.seen - Range(order) <==> p in s.seen - Range(s.order)
    {
      assert p in inner.seen - Range(inner.order) <==> p in s.seen + {u} - Range(s.order);
    }
    forall p | p in inner.seen && p !in order
      ensures p in s.seen && p !in s.order
    {
      assert p in inner.seen - Range(order);
    }
  }

  lemma EmittedComplete(g: Graph, u: Name, order: seq<Name>)
    requires u in g && Complete(g, order) && Range(g[u]) <= Range(order)
    ensures Complete(g, order + [u])
  {
    assert forall v :: v in g[u] ==> v in Range(order);
  }

  /**
   * On a graph without cycles the walk emits the unfolding of the names in turn, first
   * occurrences only: dependencies before dependents, and everything else in the order
   * in which it is listed.
   */
  lemma EmitsUnfolding(g: Graph, rank: Name -> nat, names: seq<Name>, top: nat)
    requires Closed(g) && Falls(g, rank) && Range(names) <= g.Keys
    requires forall n :: n in names ==> n in g && rank(n) < top
    ensures Emitted(g, names) == Fresh(UnfoldAll(g, rank, names, top), {})
  {
    assert Range([]) == {};
    VisitUnfolds(g, rank, names, top, START);
    Seqs.Nothing(Fresh(UnfoldAll(g, rank, names, top), {}));
  }

  ghost predicate IsUnfolding(g: Graph, rank: Name -> nat, names: seq<Name>, top: nat, order: seq<Name>) {
    && Closed(g) && Enumerates(g, names) && Ranks(g, rank, top) && (forall n :: n in names ==> n in g)
    && order == Fresh(UnfoldAll(g, rank, names, top), {})
  }

  lemma Unfolds(g: Graph, names: seq<Name>) returns (rank: Name -> nat, top: nat)
    requires Closed(g) && Enumerates(g, names) && Acyclic(g)
    ensures IsUnfolding(g, rank, names, top, Emitted(g, names))
  {
    AcyclicIffFalls(g, names);
    rank, top :| Ranks(g, rank, top);
    InRange(names, g.Keys);
    EmitsUnfolding(g, rank, names, top);
  }

  /** There is such a number, and a bound on it, exactly when there is no cycle. */
  lemma AcyclicIffFalls(g: Graph, names: seq<Name>)
    requires Closed(g) && Enumerates(g, names)
    ensures Acyclic(g) <==> exists rank: Name -> nat, top: nat :: Ranks(g, rank, top)
  {
    if Acyclic(g) {
      DependenciesFirstIffAcyclic(g, names);
      EmitsEachOnceInOrder(g, names);
      var order := Emitted(g, names);
      var rank := (n: Name) => Place(order, n);
      forall u, v | u in g && v in g[u] ensures rank(v) < rank(u) {
        assert u in Range(order) && v in Range(order) && Before(order, v, u);
        PlaceBefore(order, v, u);
      }
      forall n | n in g ensures rank(n) < |order| {
        assert n in Range(order);
      }
      assert Ranks(g, rank, |order|);
    }
    if exists rank: Name -> nat, top: nat :: Ranks(g, rank, top) {
      var rank: Name -> nat, top: nat :| Ranks(g, rank, top);
      forall u | u in g ensures !DependsOn(g, u, u) {
        NoCycle(g, rank, u);
      }
    }
  }

  lemma NoCycle(g: Graph, rank: Name -> nat, u: Name)
    requires Falls(g, rank) && u in g
    ensures !DependsOn(g, u, u)
  {
    forall w, p | w in g[u] && IsPath(g, p) && p[0] == w
      ensures p[|p| - 1] != u
    {
      PathFalls(g, rank, p);
    }
  }

  ghost function Place(order: seq<Name>, n: Name): (p: nat)
    ensures n in order ==> p < |order| && order[p] == n && forall k :: 0 <= k < p ==> order[k] != n
  {
    if order == [] || order[0] == n then 0 else 1 + Place(order[1..], n)
  }

  lemma PlaceBefore(order: seq<Name>, v: Name, u: Name)
    requires Before(order, v, u) && u in order && v in order
    ensures Place(order, v) < Place(order, u)
  {
    var i :| 0 <= i < |order| && order[i] == v && forall k :: 0 <= k <= i ==> order[k] != u;
  }

  lemma {:induction false} PathFalls(g: Graph, rank: Name -> nat, p: seq<Name>)
    requires Falls(g, rank) && IsPath(g, p)
    ensures rank(p[|p| - 1]) <= rank(p[0])
    decreases |p|
  {
    if |p| > 1 {
      var q := p[..|p| - 1];
      assert forall i :: 0 <= i < |q| ==> q[i] == p[i];
      PathFalls(g, rank, q);
      assert p[|p| - 2 + 1] in g[p[|p| - 2]];
    }
  }

  // ---------------------------------------------------------------------
  // Siblings, on any graph

  /** Wherever y stands in the list, x stands before it. */
  ghost predicate Guards(names: seq<Name>, x: Name, y: Name) {
    forall j :: 0 <= j < |names| && names[j] == y ==> x in names[..j]
  }

  /** x comes out before y does, if y has been come to at all. */
  ghost predicate InTime(s: Walk, x: Name, y: Name) { y in s.seen ==> Before(s.order, x, y) }

  ghost predicate WillBe(names: seq<Name>, s: Walk, x: Name, y: Name) {
    y in names && y !in s.seen ==> x in s.order || (x !in Pending(s) && Guards(names, x, y))
  }

  /** Only u mentions y, and mentions x before it. */
  ghost predicate Siblings(g: Graph, u: Name, x: Name, y: Name) {
    u in g && Guards(g[u], x, y) && !Reaches(g, x, u) && forall w :: w in g && y in g[w] ==> w == u
  }

  lemma {:induction false} VisitSiblings(g: Graph, names: seq<Name>, s: Walk, u: Name, x: Name, y: Name)
    requires Closed(g) && Consistent(g, s) && Siblings(g, u, x, y)
    requires forall n :: n in names ==> n in g
    requires forall p, n :: p in Pending(s) && n in names ==> Reaches(g, p, n)
    requires InTime(s, x, y) && WillBe(names, s, x, y)
    ensures InTime(Visit(g, names, s), x, y)
    decreases g.Keys - s.seen, |names|
  {
    if names != [] {
      var h, rest := names[0], names[1..];
      assert forall n :: n in rest ==> n in names;
      if h in s.seen {
        RestWillBe(names, s, s, x, y);
        VisitSiblings(g, rest, s, u, x, y);
      } else {
        var marked := Walk(s.seen + {h}, s.order);
        SiblingMarked(g, names, s, u, x, y);
        VisitSiblings(g, g[h], marked, u, x, y);
        VisitMarked(g, names, s);
        var inner := Visit(g, g[h], marked);
        EmitKeeps(g, h, s, inner);
        var emitted := Walk(inner.seen, inner.order + [h]);
        SiblingEmitted(inner, h, x, y);
        assert h in emitted.order;
        RestWillBe(names, s, emitted, x, y);
        VisitSiblings(g, rest, emitted, u, x, y);
      }
    }
  }

  lemma RestWillBe(names: seq<Name>, s: Walk, s': Walk, x: Name, y: Name)
    requires names != [] && WillBe(names, s, x, y)
    requires s.seen <= s'.seen && s.order <= s'.order && Pending(s') == Pending(s) && names[0] in s'.seen
    ensures WillBe(names[1..], s', x, y)
  {
    var rest := names[1..];
    if y in rest && y !in s'.seen && x !in s'.order {
      assert x !in s.order;
      assert x !in Pending(s) && Guards(names, x, y);
      assert x != names[0];
      forall j | 0 <= j < |rest| && rest[j] == y
        ensures x in rest[..j]
      {
        assert names[j + 1] == y;
        var i :| 0 <= i < j + 1 && names[i] == x;
        assert rest[i - 1] == x;
      }
    }
  }

  lemma SiblingMarked(g: Graph, names: seq<Name>, s: Walk, u: Name, x: Name, y: Name)
    requires Closed(g) && Consistent(g, s) && Siblings(g, u, x, y)
    requires names != [] && names[0] !in s.seen && forall n :: n in names ==> n in g
    requires forall p, n :: p in Pending(s) && n in names ==> Reaches(g, p, n)
    requires InTime(s, x, y) && WillBe(names, s, x, y)
    ensures var h := names[0];
      var marked := Walk(s.seen + {h}, s.order);
      && Consistent(g, marked) && InTime(marked, x, y) && WillBe(g[h], marked, x, y)
      && (forall p, n :: p in Pending(marked) && n in g[h] ==> Reaches(g, p, n))
  {
    var h := names[0];
    var marked := Walk(s.seen + {h}, s.order);
    ReachesSelf(g, h);
    assert Pending(marked) == Pending(s) + {h};
    forall p, n | p in Pending(marked) && n in g[h]
      ensures Reaches(g, p, n)
    {
      ReachesStep(g, p, h, n);
    }
    if h == y && x in s.order {
      var i :| 0 <= i < |s.order| && s.order[i] == x;
      assert forall k :: 0 <= k <= i ==> s.order[k] in Range(s.order);
    }
    if y in g[h] && y !in marked.seen {
      assert h == u;
      assert x !in Pending(marked);
    }
  }

  lemma SiblingEmitted(inner: Walk, h: Name, x: Name, y: Name)
    requires InTime(inner, x, y) && h in inner.seen
    ensures InTime(Walk(inner.seen, inner.order + [h]), x, y)
  {
    if y in inner.seen {
      var i :| 0 <= i < |inner.order| && inner.order[i] == x && forall k :: 0 <= k <= i ==> inner.order[k] != y;
      assert (inner.order + [h])[i] == x && forall k :: 0 <= k <= i ==> (inner.order + [h])[k] != y;
    }
  }

  /**
   * Two names that u mentions, the second of which nothing else mentions, come out in
   * the order in which they are listed, both among u's dependencies and overall,
   * unless the first one leads back to u.
   */
  lemma SiblingsInOrder(g: Graph, names: seq<Name>, u: Name, x: Name, y: Name)
    requires Closed(g) && Enumerates(g, names) && Siblings(g, u, x, y) && y in g
    requires Guards(names, x, y)
    ensures Before(Emitted(g, names), x, y)
  {
    InRange(names, g.Keys);
    assert Pending(START) == {};
    VisitSiblings(g, names, START, u, x, y);
    RunKeeps(g, names);
    assert y in Range(names);
  }

  // ---------------------------------------------------------------------
  // Stability of one visit

  /**
   * Whatever is pending: when u is visited and y, which it lists after x, comes out
   * before x, something that u lists no later than x depends on y.
   */
  lemma VisitStable(g: Graph, u: Name, s: Walk, i: nat, j: nat)
    requires Closed(g) && Consistent(g, s) && u in g && u !in s.seen
    requires forall p :: p in Pending(s) ==> Reaches(g, p, u)
    requires i < j < |g[u]| && g[u][j] !in g[u][..i + 1]
    requires g[u][i] !in s.seen + {u} && g[u][j] !in s.seen
    requires Before(Visit(g, [u], s).order, g[u][j], g[u][i])
    ensures exists k :: 0 <= k <= i && DependsOn(g, g[u][k], g[u][j])
  {
    var x, y, head, tail := g[u][i], g[u][j], g[u][..i + 1], g[u][i + 1..];
    var marked := Walk(s.seen + {u}, s.order);
    MarkedFits(g, u, s);
    assert g[u] == head + tail;
    assert forall n :: n in head ==> n in g[u];
    assert forall n :: n in tail ==> n in g[u];
    VisitAppend(g, head, tail, marked);
    var mid := Visit(g, head, marked);
    VisitKeeps(g, head, marked);
    VisitKeeps(g, tail, mid);
    VisitAlone(g, u, s);
    assert head[i] == x;
    assert x in Range(head) && x !in Pending(marked);
    assert x in mid.seen && x in mid.order;
    WholeKeeps(g, u, s);
    PrefixHolds(mid.order, Visit(g, [u], s).order, y, x);
    assert y in Range(mid.order);
    var n :| n in head && Reaches(g, n, y);
    var k :| 0 <= k < |head| && head[k] == n;
    assert g[u][k] == n != y;
    ReachesOther(g, n, y);
  }

  lemma MarkedFits(g: Graph, u: Name, s: Walk)
    requires Closed(g) && Consistent(g, s) && u in g && u !in s.seen
    requires forall p :: p in Pending(s) ==> Reaches(g, p, u)
    ensures var marked := Walk(s.seen + {u}, s.order);
      && Consistent(g, marked) && Pending(marked) == Pending(s) + {u}
      && (forall p, n :: p in Pending(marked) && n in g[u] ==> Reaches(g, p, n))
  {
    var marked := Walk(s.seen + {u}, s.order);
    ReachesSelf(g, u);
    assert Pending(marked) == Pending(s) + {u};
    forall p, n | p in Pending(marked) && n in g[u]
      ensures Reaches(g, p, n)
    {
      ReachesStep(g, p, u, n);
    }
  }

  lemma VisitAlone(g: Graph, u: Name, s: Walk)
    requires Closed(g) && u in g && u !in s.seen
    ensures var inner := Visit(g, g[u], Walk(s.seen + {u}, s.order));
      Visit(g, [u], s) == Walk(inner.seen, inner.order + [u])
  {
    assert [u][0] == u && [u][1..] == [];
  }

  lemma WholeKeeps(g: Graph, u: Name, s: Walk)
    requires Closed(g) && Consistent(g, s) && u in g
    requires forall p :: p in Pending(s) ==> Reaches(g, p, u)
    ensures Distinct(Visit(g, [u], s).order)
  {
    VisitKeeps(g, [u], s);
  }
}
