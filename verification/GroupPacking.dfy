/** Packing the groups of a request (batcher/metrics/metrics.go, packGroups). */
module GroupPacking {
  import opened Wrappers
  import opened MetricsBuilder

  function Key(kind: string, name: string): string { kind + ":" + name }

  function GroupKey(g: Group): string { Key(g.kind, g.groupName) }

  function RefKey(r: Ref): string { Key(r.kind, r.name) }

  /** Keys tell groups apart as long as kinds hold no colon. */
  lemma KeyInjective(kind: string, name: string, kind': string, name': string)
    requires ':' !in kind && ':' !in kind'
    ensures Key(kind, name) == Key(kind', name') <==> kind == kind' && name == name'
  {
    FirstColon(kind, name);
    FirstColon(kind', name');
    var k, k' := Key(kind, name), Key(kind', name');
    assert k[..|kind|] == kind && k'[..|kind'|] == kind';
    assert k[|kind| + 1..] == name && k'[|kind'| + 1..] == name';
  }

  /** Groups without a colon in their types go together exactly when type and name agree. */
  lemma GroupsTogetherIff(g: Group, h: Group)
    requires ':' !in g.kind && ':' !in h.kind
    ensures GroupKey(g) == GroupKey(h) <==> g.kind == h.kind && g.groupName == h.groupName
  {
    KeyInjective(g.kind, g.groupName, h.kind, h.groupName);
  }

  lemma RefsTogetherIff(r: Ref, q: Ref)
    requires ':' !in r.kind && ':' !in q.kind
    ensures RefKey(r) == RefKey(q) <==> r.kind == q.kind && r.name == q.name
  {
    KeyInjective(r.kind, r.name, q.kind, q.name);
  }

  lemma FirstColon(kind: string, name: string)
    requires ':' !in kind
    ensures |kind| < |Key(kind, name)| && Key(kind, name)[|kind|] == ':'
    ensures forall i :: 0 <= i < |kind| ==> Key(kind, name)[i] != ':'
  {
    assert forall i :: 0 <= i < |kind| ==> Key(kind, name)[i] == kind[i];
  }

  // ---------------------------------------------------------------------
  // What packing means

  /** The last reference with that key. */
  function LastRef(refs: seq<Ref>, rk: string): Option<Ref> {
    if refs == [] then None
    else if RefKey(refs[|refs| - 1]) == rk then Some(refs[|refs| - 1])
    else LastRef(refs[..|refs| - 1], rk)
  }

  /** The last reference with that key in the groups with that key. */
  function LastIn(groups: seq<Group>, gk: string, rk: string): Option<Ref> {
    if groups == [] then None
    else
      var g := groups[|groups| - 1];
      if GroupKey(g) == gk && LastRef(g.resources, rk).Some? then LastRef(g.resources, rk)
      else LastIn(groups[..|groups| - 1], gk, rk)
  }

  /** The first group with that key. */
  function FirstWith(groups: seq<Group>, gk: string): Option<Group> {
    if groups == [] then None
    else
      var before := FirstWith(groups[..|groups| - 1], gk);
      if before.Some? then before
      else if GroupKey(groups[|groups| - 1]) == gk then Some(groups[|groups| - 1]) else None
  }

  /** A key has a first group exactly when some group has that key. */
  lemma {:induction false} FirstWithIff(groups: seq<Group>, gk: string)
    ensures FirstWith(groups, gk).Some? <==> exists g :: g in groups && GroupKey(g) == gk
  {
    if groups != [] {
      var init, last := groups[..|groups| - 1], groups[|groups| - 1];
      FirstWithIff(init, gk);
      assert groups == init + [last];
    }
  }

  ghost predicate DistinctRefs(refs: seq<Ref>) {
    forall i, j :: 0 <= i < j < |refs| ==> RefKey(refs[i]) != RefKey(refs[j])
  }

  ghost predicate DistinctGroups(groups: seq<Group>) {
    forall i, j :: 0 <= i < j < |groups| ==> GroupKey(groups[i]) != GroupKey(groups[j])
  }

  /** The references are, for every key, the last one given; each once, in any order. */
  ghost predicate LastOfEach(groups: seq<Group>, g: Group) {
    && DistinctRefs(g.resources)
    && forall r :: r in g.resources <==> LastIn(groups, GroupKey(g), RefKey(r)) == Some(r)
  }

  /** The groups by key, each once, in any order, named as the first with its key, with all its references. */
  ghost predicate Packs(groups: seq<Group>, out: seq<Group>) {
    && DistinctGroups(out)
    && (forall g :: g in groups ==> exists h :: h in out && GroupKey(h) == GroupKey(g))
    && (forall h :: h in out ==> PacksOne(groups, h))
  }

  ghost predicate PacksOne(groups: seq<Group>, h: Group) {
    var first := FirstWith(groups, GroupKey(h));
    first.Some? && h.kind == first.value.kind && h.groupName == first.value.groupName && LastOfEach(groups, h)
  }

  // ---------------------------------------------------------------------
  // The maps that are built on the way

  datatype Packing = Packing(group: Group, refs: map<string, Ref>)

  function Entry<T>(m: map<string, T>, k: string): Option<T> { if k in m then Some(m[k]) else None }

  function Newer<T>(last: Option<T>, before: Option<T>): Option<T> { if last.Some? then last else before }

  ghost predicate RefsByKey(refs: map<string, Ref>, groups: seq<Group>, gk: string) {
    forall rk :: LastIn(groups, gk, rk) == Entry(refs, rk)
  }

  ghost predicate Gathered(m: map<string, Packing>, groups: seq<Group>) {
    forall gk ::
      && FirstWith(groups, gk) == (if gk in m then Some(m[gk].group) else None)
      && (gk in m ==> RefsByKey(m[gk].refs, groups, gk))
  }

  lemma {:induction false} LastRefIff(refs: seq<Ref>, rk: string)
    ensures LastRef(refs, rk).Some? <==> exists r :: r in refs && RefKey(r) == rk
    ensures LastRef(refs, rk).Some? ==> RefKey(LastRef(refs, rk).value) == rk
  {
    if refs != [] {
      var init, last := refs[..|refs| - 1], refs[|refs| - 1];
      LastRefIff(init, rk);
      assert refs == init + [last];
    }
  }

  lemma {:induction false} LastInKnows(groups: seq<Group>, g: Group, r: Ref)
    requires g in groups && r in g.resources
    ensures LastIn(groups, GroupKey(g), RefKey(r)).Some?
  {
    var init, last := groups[..|groups| - 1], groups[|groups| - 1];
    assert groups == init + [last];
    if g == last {
      LastRefIff(g.resources, RefKey(r));
    }
    if g in init {
      LastInKnows(init, g, r);
    }
  }

  lemma {:induction false} LastInKey(groups: seq<Group>, gk: string, rk: string)
    ensures LastIn(groups, gk, rk).Some? ==> RefKey(LastIn(groups, gk, rk).value) == rk
  {
    if groups != [] {
      LastRefIff(groups[|groups| - 1].resources, rk);
      LastInKey(groups[..|groups| - 1], gk, rk);
    }
  }

  lemma {:induction false} FirstWithMember(groups: seq<Group>, gk: string)
    ensures FirstWith(groups, gk).Some? ==>
      FirstWith(groups, gk).value in groups && GroupKey(FirstWith(groups, gk).value) == gk
  {
    if groups != [] {
      FirstWithMember(groups[..|groups| - 1], gk);
    }
  }

  lemma {:induction false} LastInMember(groups: seq<Group>, gk: string, rk: string) returns (g: Group)
    requires LastIn(groups, gk, rk).Some?
    ensures g in groups && GroupKey(g) == gk && LastIn(groups, gk, rk).value in g.resources
  {
    var init, last := groups[..|groups| - 1], groups[|groups| - 1];
    if GroupKey(last) == gk && LastRef(last.resources, rk).Some? {
      g := last;
      LastRefMember(last.resources, rk);
    } else {
      g := LastInMember(init, gk, rk);
    }
  }

  lemma {:induction false} LastRefMember(refs: seq<Ref>, rk: string)
    requires LastRef(refs, rk).Some?
    ensures LastRef(refs, rk).value in refs
  {
    if RefKey(refs[|refs| - 1]) != rk {
      LastRefMember(refs[..|refs| - 1], rk);
    }
  }

  /** Packing keeps, for every group key and reference key, which reference is meant. */
  lemma PacksKeepsMeaning(groups: seq<Group>, out: seq<Group>, gk: string, rk: string)
    requires Packs(groups, out)
    ensures LastIn(out, gk, rk) == LastIn(groups, gk, rk)
  {
    LastInKey(out, gk, rk);
    LastInKey(groups, gk, rk);
    if LastIn(out, gk, rk).Some? {
      var h := LastInMember(out, gk, rk);
      assert PacksOne(groups, h);
    } else if LastIn(groups, gk, rk).Some? {
      var r := LastIn(groups, gk, rk).value;
      var g := LastInMember(groups, gk, rk);
      var h :| h in out && GroupKey(h) == gk;
      assert PacksOne(groups, h);
      assert r in h.resources;
      LastInKnows(out, h, r);
    }
  }

  // ---------------------------------------------------------------------
  // The loops

  method GatherRefs(refs: map<string, Ref>, g: Group, ghost before: seq<Group>) returns (r: map<string, Ref>)
    requires RefsByKey(refs, before, GroupKey(g))
    ensures RefsByKey(r, before + [g], GroupKey(g))
  {
    r := refs;
    for j := 0 to |g.resources|
      invariant forall rk :: Entry(r, rk) == Newer(LastRef(g.resources[..j], rk), LastIn(before, GroupKey(g), rk))
    {
      var res := g.resources[j];
      assert g.resources[..j + 1][..j] == g.resources[..j];
      r := r[RefKey(res) := res];
    }
    assert g.resources[..|g.resources|] == g.resources;
    assert (before + [g])[..|before|] == before;
  }

  lemma OtherKeyKeeps(m: map<string, Packing>, before: seq<Group>, g: Group, gk: string)
    requires Gathered(m, before) && gk != GroupKey(g) && gk in m
    ensures RefsByKey(m[gk].refs, before + [g], gk)
  {
    assert (before + [g])[..|before|] == before;
    assert RefsByKey(m[gk].refs, before, gk);
  }

  method Gather(groups: seq<Group>) returns (m: map<string, Packing>)
    ensures Gathered(m, groups)
  {
    m := map[];
    for i := 0 to |groups|
      invariant Gathered(m, groups[..i])
    {
      var g := groups[i];
      ghost var before := groups[..i];
      assert groups[..i + 1] == before + [g] && (before + [g])[..i] == before;
      var gk := GroupKey(g);
      ghost var known := m;
      if gk !in m {
        NoneBefore(before, gk);
        m := m[gk := Packing(g, map[])];
      }
      var rg := m[gk];
      var refs := GatherRefs(rg.refs, g, before);
      m := m[gk := Packing(rg.group, refs)];
      forall k | k in m
        ensures RefsByKey(m[k].refs, groups[..i + 1], k)
      {
        if k != gk {
          OtherKeyKeeps(known, before, g, k);
        }
      }
    }
    assert groups[..|groups|] == groups;
  }

  lemma {:induction false} NoneBefore(groups: seq<Group>, gk: string)
    requires FirstWith(groups, gk).None?
    ensures forall rk :: LastIn(groups, gk, rk) == None
  {
    if groups != [] {
      NoneBefore(groups[..|groups| - 1], gk);
    }
  }

  method Values(refs: map<string, Ref>) returns (out: seq<Ref>)
    requires forall rk :: rk in refs ==> RefKey(refs[rk]) == rk
    ensures DistinctRefs(out)
    ensures forall r :: r in out <==> RefKey(r) in refs && refs[RefKey(r)] == r
  {
    out := [];
    var left := refs.Keys;
    while left != {}
      invariant left <= refs.Keys
      invariant DistinctRefs(out)
      invariant forall r :: r in out <==> RefKey(r) in refs && refs[RefKey(r)] == r && RefKey(r) !in left
      decreases |left|
    {
      var rk :| rk in left;
      left := left - {rk};
      out := out + [refs[rk]];
    }
  }

  /** One group, named as the first with its key; its own references stay only if none were gathered. */
  method UnloadOne(groups: seq<Group>, gk: string, rg: Packing) returns (g: Group)
    requires FirstWith(groups, gk) == Some(rg.group) && RefsByKey(rg.refs, groups, gk)
    ensures GroupKey(g) == gk && PacksOne(groups, g)
  {
    FirstWithMember(groups, gk);
    g := rg.group;
    forall rk | rk in rg.refs
      ensures RefKey(rg.refs[rk]) == rk
    {
      LastInKey(groups, gk, rk);
    }
    if |rg.refs| > 0 {
      var resources := Values(rg.refs);
      g := g.(resources := resources);
    } else {
      NoReferences(groups, g);
    }
  }

  lemma NoReferences(groups: seq<Group>, g: Group)
    requires g in groups && forall rk :: LastIn(groups, GroupKey(g), rk) == None
    ensures g.resources == []
  {
    if g.resources != [] {
      LastInKnows(groups, g, g.resources[0]);
    }
  }

  method PackGroups(groups: seq<Group>) returns (out: seq<Group>)
    ensures Packs(groups, out)
  {
    out := groups;
    if |groups| == 0 {
      return;
    }
    var m := Gather(groups);
    out := [];
    var left := m.Keys;
    while left != {}
      invariant left <= m.Keys
      invariant DistinctGroups(out)
      invariant forall h :: h in out ==> PacksOne(groups, h) && GroupKey(h) in m && GroupKey(h) !in left
      invariant forall gk :: gk in m && gk !in left ==> exists h :: h in out && GroupKey(h) == gk
      decreases |left|
    {
      var gk :| gk in left;
      left := left - {gk};
      var g := UnloadOne(groups, gk, m[gk]);
      ghost var was := out;
      out := out + [g];
      assert g in out;
      assert forall h :: h in was ==> h in out;
    }
    forall g | g in groups
      ensures exists h :: h in out && GroupKey(h) == GroupKey(g)
    {
      FirstWithIff(groups, GroupKey(g));
      assert GroupKey(g) in m;
    }
  }
}
