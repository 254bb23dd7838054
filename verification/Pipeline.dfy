/**
 * What becomes of the contents of the payloads added to a batcher: every payload
 * holds some items, and every segment taken is built once (batcher/batcher.go, Batch).
 */
module Pipeline {
  import Batcher
  import BatcherLaws
  import Seqs

  /** The items of payloads. */
  ghost function Items<T>(buf: seq<string>, contents: string -> multiset<T>): multiset<T> {
    if buf == [] then multiset{} else Items(buf[..|buf| - 1], contents) + contents(buf[|buf| - 1])
  }

  lemma {:induction false} ItemsAppend<T>(a: seq<string>, b: seq<string>, contents: string -> multiset<T>)
    ensures Items(a + b, contents) == Items(a, contents) + Items(b, contents)
    decreases |b|
  {
    if b == [] {
      Seqs.Nothing(a);
    } else {
      var init, last := b[..|b| - 1], b[|b| - 1];
      ItemsAppend(a, init, contents);
      assert (a + b)[..|a + b| - 1] == a + init;
    }
  }

  /** The items of the segments built. */
  ghost function AllItems<T>(removed: seq<Batcher.Segment>, built: seq<nat>, contents: string -> multiset<T>): multiset<T>
    requires forall i :: 0 <= i < |built| ==> built[i] < |removed|
    decreases |built|
  {
    if built == [] then multiset{}
    else Items(removed[built[0]].payloads, contents) + AllItems(removed, built[1..], contents)
  }

  /** The items of the segments that a clear dropped. */
  ghost function Dropped<T>(removed: seq<Batcher.Segment>, contents: string -> multiset<T>): multiset<T> {
    if removed == [] then multiset{}
    else
      var last := removed[|removed| - 1];
      Dropped(removed[..|removed| - 1], contents) + if last.taken then multiset{} else Items(last.payloads, contents)
  }

  /** Distinct numbers of taken segments, with every taken one that is not empty among them. */
  ghost predicate Covers(removed: seq<Batcher.Segment>, built: seq<nat>) {
    && (forall i, j :: 0 <= i < j < |built| ==> built[i] != built[j])
    && (forall i :: 0 <= i < |built| ==> built[i] < |removed| && removed[built[i]].taken)
    && (forall k: nat :: k < |removed| && removed[k].taken && removed[k].payloads != [] ==> k in built)
  }

  function Without(built: seq<nat>, i: nat): seq<nat>
    requires i < |built|
  {
    built[..i] + built[i + 1..]
  }

  lemma WithoutLater(built: seq<nat>, i: nat)
    requires 0 < i < |built|
    ensures Without(built, i)[0] == built[0] && Without(built, i)[1..] == Without(built[1..], i - 1)
  {
  }

  /** The order in which segments are built does not matter. */
  lemma {:induction false} TakeOut<T>(removed: seq<Batcher.Segment>, built: seq<nat>, i: nat, contents: string -> multiset<T>)
    requires i < |built| && forall j :: 0 <= j < |built| ==> built[j] < |removed|
    ensures forall j :: 0 <= j < |Without(built, i)| ==> Without(built, i)[j] < |removed|
    ensures AllItems(removed, built, contents)
            == Items(removed[built[i]].payloads, contents) + AllItems(removed, Without(built, i), contents)
    decreases i
  {
    if i == 0 {
      assert Without(built, 0) == built[1..];
    } else {
      TakeOut(removed, built[1..], i - 1, contents);
      WithoutLater(built, i);
      FirstItems(removed, built, contents);
      FirstItems(removed, Without(built, i), contents);
      Exchange(
        Items(removed[built[0]].payloads, contents),
        Items(removed[built[i]].payloads, contents),
        AllItems(removed, Without(built, i)[1..], contents),
        AllItems(removed, built[1..], contents));
    }
  }

  lemma FirstItems<T>(removed: seq<Batcher.Segment>, built: seq<nat>, contents: string -> multiset<T>)
    requires built != [] && forall j :: 0 <= j < |built| ==> built[j] < |removed|
    ensures AllItems(removed, built, contents)
            == Items(removed[built[0]].payloads, contents) + AllItems(removed, built[1..], contents)
  {
  }

  /** Segments beyond those that are built do not matter. */
  lemma {:induction false} Earlier<T>(removed: seq<Batcher.Segment>, n: nat, built: seq<nat>, contents: string -> multiset<T>)
    requires n <= |removed| && forall j :: 0 <= j < |built| ==> built[j] < n
    ensures AllItems(removed, built, contents) == AllItems(removed[..n], built, contents)
    decreases |built|
  {
    if built != [] {
      Earlier(removed, n, built[1..], contents);
    }
  }

  /** Once everything taken is built: what was built and what was dropped are the items that left the buffer. */
  lemma {:induction false} RemovedAccounted<T>(removed: seq<Batcher.Segment>, built: seq<nat>, contents: string -> multiset<T>)
    requires Covers(removed, built)
    ensures AllItems(removed, built, contents) + Dropped(removed, contents) == Items(Batcher.Flatten(removed), contents)
    decreases |removed|
  {
    if removed == [] {
      assert built == [];
    } else {
      var n := |removed| - 1;
      LastRemoved(removed, contents);
      var init, items := removed[..n], Items(removed[n].payloads, contents);
      if n in built {
        var i :| 0 <= i < |built| && built[i] == n;
        LastBuilt(removed, built, i, contents);
        RemovedAccounted(init, Without(built, i), contents);
        Combine(AllItems(init, Without(built, i), contents), items, Dropped(init, contents));
      } else {
        LastNotBuilt(removed, built, contents);
        RemovedAccounted(init, built, contents);
        Combine(AllItems(init, built, contents), items, Dropped(init, contents));
      }
    }
  }

  lemma LastRemoved<T>(removed: seq<Batcher.Segment>, contents: string -> multiset<T>)
    requires removed != []
    ensures var n := |removed| - 1;
      var items := Items(removed[n].payloads, contents);
      && Items(Batcher.Flatten(removed), contents) == Items(Batcher.Flatten(removed[..n]), contents) + items
      && Dropped(removed, contents) == Dropped(removed[..n], contents) + if removed[n].taken then multiset{} else items
  {
    ItemsAppend(Batcher.Flatten(removed[..|removed| - 1]), removed[|removed| - 1].payloads, contents);
  }

  lemma Combine<T>(built: multiset<T>, items: multiset<T>, dropped: multiset<T>)
    ensures (built + items) + (dropped + multiset{}) == (built + dropped) + items
    ensures built + (dropped + items) == (built + dropped) + items
    ensures items == multiset{} ==> built + (dropped + multiset{}) == (built + dropped) + items
  {
  }

  lemma Exchange<T>(a: multiset<T>, b: multiset<T>, c: multiset<T>, bc: multiset<T>)
    requires bc == b + c
    ensures a + bc == b + (a + c)
  {
  }

  lemma LastBuilt<T>(removed: seq<Batcher.Segment>, built: seq<nat>, i: nat, contents: string -> multiset<T>)
    requires Covers(removed, built)
    requires removed != [] && i < |built| && built[i] == |removed| - 1
    ensures var n, rest := |removed| - 1, Without(built, i);
      && removed[n].taken && Covers(removed[..n], rest)
      && AllItems(removed, built, contents)
         == AllItems(removed[..n], rest, contents) + Items(removed[n].payloads, contents)
  {
    var n := |removed| - 1;
    StillCovers(removed, built, i);
    TakeOut(removed, built, i, contents);
    Earlier(removed, n, Without(built, i), contents);
  }

  lemma LastNotBuilt<T>(removed: seq<Batcher.Segment>, built: seq<nat>, contents: string -> multiset<T>)
    requires Covers(removed, built) && removed != [] && |removed| - 1 !in built
    ensures var n := |removed| - 1;
      && Covers(removed[..n], built) && (removed[n].taken ==> Items(removed[n].payloads, contents) == multiset{})
      && AllItems(removed, built, contents) == AllItems(removed[..n], built, contents)
  {
    NotBuilt(removed, built);
    Earlier(removed, |removed| - 1, built, contents);
  }

  lemma StillCovers(removed: seq<Batcher.Segment>, built: seq<nat>, i: nat)
    requires Covers(removed, built) && removed != [] && i < |built| && built[i] == |removed| - 1
    ensures Covers(removed[..|removed| - 1], Without(built, i))
  {
    var n, rest := |removed| - 1, Without(built, i);
    forall j | 0 <= j < |rest|
      ensures rest[j] < n && removed[rest[j]].taken
    {
      assert rest[j] == built[if j < i then j else j + 1];
    }
    forall k: nat | k < n && removed[k].taken && removed[k].payloads != []
      ensures k in rest
    {
      var j :| 0 <= j < |built| && built[j] == k;
      assert rest[if j < i then j else j - 1] == k;
    }
  }

  lemma NotBuilt(removed: seq<Batcher.Segment>, built: seq<nat>)
    requires Covers(removed, built) && removed != [] && |removed| - 1 !in built
    ensures Covers(removed[..|removed| - 1], built)
    ensures removed[|removed| - 1].taken ==> removed[|removed| - 1].payloads == []
  {
    var n := |removed| - 1;
    forall i | 0 <= i < |built|
      ensures built[i] < n
    {
      assert built[i] in built;
    }
  }

  ghost function CountIn<T>(contents: string -> multiset<T>, x: T): string -> nat { p => contents(p)[x] }

  lemma {:induction false} ItemsWeighed<T>(buf: seq<string>, contents: string -> multiset<T>, x: T)
    ensures Items(buf, contents)[x] == BatcherLaws.Weight(buf, CountIn(contents, x))
  {
    if buf != [] {
      ItemsWeighed(buf[..|buf| - 1], contents, x);
    }
  }

  /** Once all are idle, the items appended are those of the payloads that adds were begun with. */
  lemma ItemsBegun<T>(maxBytes: nat, turns: seq<Batcher.Turn>, contents: string -> multiset<T>)
    ensures var s := Batcher.Run(Batcher.New(maxBytes), turns);
      Batcher.Quiet(s) ==> Items(s.added, contents) == Items(BatcherLaws.Begun(maxBytes, turns), contents)
  {
    var s, begun := Batcher.Run(Batcher.New(maxBytes), turns), BatcherLaws.Begun(maxBytes, turns);
    if Batcher.Quiet(s) {
      forall x: T
        ensures Items(s.added, contents)[x] == Items(begun, contents)[x]
      {
        ItemBegun(maxBytes, turns, contents, x);
      }
      SameCounts(Items(s.added, contents), Items(begun, contents));
    }
  }

  lemma ItemBegun<T>(maxBytes: nat, turns: seq<Batcher.Turn>, contents: string -> multiset<T>, x: T)
    requires Batcher.Quiet(Batcher.Run(Batcher.New(maxBytes), turns))
    ensures var s := Batcher.Run(Batcher.New(maxBytes), turns);
      Items(s.added, contents)[x] == Items(BatcherLaws.Begun(maxBytes, turns), contents)[x]
  {
    var s := Batcher.Run(Batcher.New(maxBytes), turns);
    var n := BatcherLaws.AllBelow(turns);
    ItemsWeighed(s.added, contents, x);
    ItemsWeighed(BatcherLaws.Begun(maxBytes, turns), contents, x);
    BatcherLaws.BegunWeighed(maxBytes, turns, n, CountIn(contents, x));
    BatcherLaws.NobodyWaits(s, n, CountIn(contents, x));
  }

  lemma SameCounts<T>(a: multiset<T>, b: multiset<T>)
    requires forall x: T :: a[x] == b[x]
    ensures a == b
  {
    assert forall x :: x in a ==> a[x] == b[x];
    assert a <= b <= a;
  }

  /**
   * In every interleaving of adds, batches, clears, resets and ticks, once all
   * goroutines are idle: every item of every payload an add was begun with is in a
   * segment that was built, and in one only, or was dropped by a clear, or is still
   * buffered.
   */
  lemma EveryItemOnce<T>(maxBytes: nat, turns: seq<Batcher.Turn>, contents: string -> multiset<T>)
    ensures var s := Batcher.Run(Batcher.New(maxBytes), turns);
      && (forall i :: 0 <= i < |s.built| ==> s.built[i] < |s.removed|)
      && (Batcher.Quiet(s) ==>
           AllItems(s.removed, s.built, contents) + Dropped(s.removed, contents) + Items(s.buf, contents)
           == Items(BatcherLaws.Begun(maxBytes, turns), contents))
  {
    Batcher.NothingLostOrDoubled(maxBytes, turns);
    var s := Batcher.Run(Batcher.New(maxBytes), turns);
    forall i | 0 <= i < |s.built|
      ensures s.built[i] < |s.removed| && s.removed[s.built[i]].taken
    {
      assert Batcher.IsTaken(s, s.built[i]);
    }
    if Batcher.Quiet(s) {
      forall k: nat | k < |s.removed| && s.removed[k].taken && s.removed[k].payloads != []
        ensures k in s.built
      {
        assert Batcher.IsTaken(s, k);
      }
      RemovedAccounted(s.removed, s.built, contents);
      ItemsAppend(Batcher.Flatten(s.removed), s.buf, contents);
      ItemsBegun(maxBytes, turns, contents);
    }
  }
}
