/**
 * Laws of whole runs of the batcher in terms of what its callers did (batcher/batcher.go):
 * every payload an add began with is accounted for, nothing leaves the buffer
 * below the limit, and nothing is dropped without a clear.
 */
module BatcherLaws {
  import opened Wrappers
  import opened Batcher
  import Seqs

  /** The payloads of the adds that were begun, in the order they were begun. */
  function Begun(maxBytes: nat, turns: seq<Turn>): seq<Payload> {
    if turns == [] then []
    else
      var init, last := turns[..|turns| - 1], turns[|turns| - 1];
      Begun(maxBytes, init)
      + if Run(New(maxBytes), init).At(last.t).Idle? && last.start.Add? then [last.start.p] else []
  }

  // ---------------------------------------------------------------------
  // Weighing payloads: by length, or by being a given one

  ghost function Weight(buf: seq<Payload>, w: Payload -> nat): nat {
    if buf == [] then 0 else Weight(buf[..|buf| - 1], w) + w(buf[|buf| - 1])
  }

  function Length(p: Payload): nat { |p| }

  ghost function Is(q: Payload): Payload -> nat { p => if p == q then 1 else 0 }

  lemma {:induction false} WeightAppend(a: seq<Payload>, b: seq<Payload>, w: Payload -> nat)
    ensures Weight(a + b, w) == Weight(a, w) + Weight(b, w)
    decreases |b|
  {
    if b == [] {
      assert a + b == a;
    } else {
      assert (a + b)[..|a + b| - 1] == a + b[..|b| - 1];
      WeightAppend(a, b[..|b| - 1], w);
    }
  }

  lemma {:induction false} TotalIsWeight(buf: seq<Payload>)
    ensures Weight(buf, Length) == Total(buf)
  {
    if buf != [] {
      TotalIsWeight(buf[..|buf| - 1]);
    }
  }

  lemma {:induction false} CountIsWeight(buf: seq<Payload>, q: Payload)
    ensures Weight(buf, Is(q)) == multiset(buf)[q]
  {
    if buf != [] {
      var n := |buf| - 1;
      CountIsWeight(buf[..n], q);
      assert buf == buf[..n] + [buf[n]];
    }
  }

  lemma SameItems(a: seq<Payload>, b: seq<Payload>)
    requires forall q :: Weight(a, Is(q)) == Weight(b, Is(q))
    ensures multiset(a) == multiset(b)
  {
    forall q
      ensures multiset(a)[q] == multiset(b)[q]
    {
      CountIsWeight(a, q);
      CountIsWeight(b, q);
    }
  }

  // ---------------------------------------------------------------------
  // Every add counts

  /** The payload of an add that is begun but not yet in the buffer. */
  ghost function Carried(job: Job, w: Payload -> nat): nat {
    if job.AddWait? || job.AddAppend? then w(job.p) else 0
  }

  /** The same for the goroutines below n. */
  ghost function Waiting(s: State, n: nat, w: Payload -> nat): nat {
    if n == 0 then 0 else Waiting(s, n - 1, w) + Carried(s.At(n - 1), w)
  }

  lemma {:induction false} WaitingMoves(s: State, s': State, t: nat, n: nat, w: Payload -> nat)
    requires forall u :: u != t ==> s'.At(u) == s.At(u)
    ensures t < n ==> Waiting(s', n, w) + Carried(s.At(t), w) == Waiting(s, n, w) + Carried(s'.At(t), w)
    ensures t >= n ==> Waiting(s', n, w) == Waiting(s, n, w)
  {
    if n > 0 {
      WaitingMoves(s, s', t, n - 1, w);
    }
  }

  lemma {:induction false} NobodyWaits(s: State, n: nat, w: Payload -> nat)
    requires Quiet(s)
    ensures Waiting(s, n, w) == 0
  {
    if n > 0 {
      NobodyWaits(s, n - 1, w);
    }
  }

  lemma OthersKeep(s: State, t: nat, start: Start)
    ensures forall u :: u != t ==> Move(s, t, start).At(u) == s.At(u)
  {
  }

  /** What a step adds to the payloads appended and carried is the payload it begins with. */
  lemma StepWeight(s: State, t: nat, start: Start, w: Payload -> nat)
    ensures var s' := Move(s, t, start);
      Weight(s'.added, w) + Carried(s'.At(t), w)
      == Weight(s.added, w) + Carried(s.At(t), w) + if s.At(t).Idle? && start.Add? then w(start.p) else 0
  {
    if s.At(t).AddAppend? {
      WeightAppend(s.added, [s.At(t).p], w);
      assert [s.At(t).p][..0] == [];
    }
  }

  ghost predicate Below(turns: seq<Turn>, n: nat) { forall i :: 0 <= i < |turns| ==> turns[i].t < n }

  lemma {:induction false} AllBelow(turns: seq<Turn>) returns (n: nat)
    ensures Below(turns, n)
  {
    n := 0;
    if turns != [] {
      var t := turns[|turns| - 1].t;
      n := AllBelow(turns[..|turns| - 1]);
      n := if t < n then n else t + 1;
      assert forall i :: 0 <= i < |turns| - 1 ==> turns[i] == turns[..|turns| - 1][i];
    }
  }

  lemma {:induction false} BegunWeighed(maxBytes: nat, turns: seq<Turn>, n: nat, w: Payload -> nat)
    requires Below(turns, n)
    ensures var s := Run(New(maxBytes), turns);
      Weight(s.added, w) + Waiting(s, n, w) == Weight(Begun(maxBytes, turns), w)
  {
    if turns == [] {
      NobodyWaits(New(maxBytes), n, w);
    } else {
      var init, last := turns[..|turns| - 1], turns[|turns| - 1];
      var s := Run(New(maxBytes), init);
      BegunWeighed(maxBytes, init, n, w);
      OthersKeep(s, last.t, last.start);
      WaitingMoves(s, Move(s, last.t, last.start), last.t, n, w);
      StepWeight(s, last.t, last.start, w);
      BegunNext(maxBytes, turns, w);
    }
  }

  lemma BegunNext(maxBytes: nat, turns: seq<Turn>, w: Payload -> nat)
    requires turns != []
    ensures var init, last := turns[..|turns| - 1], turns[|turns| - 1];
      Weight(Begun(maxBytes, turns), w) == Weight(Begun(maxBytes, init), w)
        + if Run(New(maxBytes), init).At(last.t).Idle? && last.start.Add? then w(last.start.p) else 0
  {
    var init, last := turns[..|turns| - 1], turns[|turns| - 1];
    if Run(New(maxBytes), init).At(last.t).Idle? && last.start.Add? {
      WeightAppend(Begun(maxBytes, init), [last.start.p], w);
      assert [last.start.p][..0] == [];
    } else {
      Seqs.Nothing(Begun(maxBytes, init));
    }
  }

  /**
   * In every interleaving, once all goroutines are idle: the payloads that left the
   * buffer and those in it are, all together, the payloads adds were begun with.
   */
  lemma EveryAddAccounted(maxBytes: nat, turns: seq<Turn>)
    ensures var s := Run(New(maxBytes), turns);
      Quiet(s) ==> multiset(Flatten(s.removed) + s.buf) == multiset(Begun(maxBytes, turns))
  {
    var s := Run(New(maxBytes), turns);
    RunKeeps(maxBytes, turns);
    if Quiet(s) {
      var n := AllBelow(turns);
      forall q
        ensures Weight(s.added, Is(q)) == Weight(Begun(maxBytes, turns), Is(q))
      {
        BegunWeighed(maxBytes, turns, n, Is(q));
        NobodyWaits(s, n, Is(q));
      }
      SameItems(s.added, Begun(maxBytes, turns));
    }
  }

  // ---------------------------------------------------------------------
  // Nothing leaves below the limit

  ghost predicate OnlyAdds(turns: seq<Turn>) { forall i :: 0 <= i < |turns| ==> turns[i].start.Add? }

  /** Everyone is adding or idle, and nobody has seen more than the limit. */
  ghost predicate Filling(s: State, maxBytes: nat) {
    && s.maxBytes == maxBytes && s.removed == [] && s.built == []
    && forall t :: var job := s.At(t); job.Idle? || (InAdd(job) && (job.AddCompare? ==> job.size <= maxBytes))
  }

  lemma FillingMoves(s: State, t: nat, start: Start, maxBytes: nat)
    requires Filling(s, maxBytes) && start.Add? && s.bufSize <= maxBytes
    ensures Filling(Move(s, t, start), maxBytes)
  {
    var s' := Move(s, t, start);
    OthersKeep(s, t, start);
    var job := s.At(t);
    assert job.Idle? || (InAdd(job) && (job.AddCompare? ==> job.size <= maxBytes));
  }

  lemma SizeBelowTotal(s: State)
    requires Sized(s) && (forall t :: s.At(t).Idle? || InAdd(s.At(t)))
    ensures s.bufSize <= Total(s.buf)
  {
    if s.lock.Some? {
      assert s.At(s.lock.value).Idle? || InAdd(s.At(s.lock.value));
    }
  }

  lemma {:induction false} RunFills(maxBytes: nat, turns: seq<Turn>)
    requires OnlyAdds(turns) && Total(Begun(maxBytes, turns)) <= maxBytes
    ensures Filling(Run(New(maxBytes), turns), maxBytes)
  {
    if turns != [] {
      var init, last := turns[..|turns| - 1], turns[|turns| - 1];
      assert forall i :: 0 <= i < |init| ==> init[i] == turns[i];
      TotalIsWeight(Begun(maxBytes, turns));
      TotalIsWeight(Begun(maxBytes, init));
      BegunNext(maxBytes, turns, Length);
      RunFills(maxBytes, init);
      SizeWithin(maxBytes, init);
      FillingMoves(Run(New(maxBytes), init), last.t, last.start, maxBytes);
    }
  }

  lemma SizeWithin(maxBytes: nat, turns: seq<Turn>)
    requires Total(Begun(maxBytes, turns)) <= maxBytes && Filling(Run(New(maxBytes), turns), maxBytes)
    ensures Run(New(maxBytes), turns).bufSize <= maxBytes
  {
    var s := Run(New(maxBytes), turns);
    RunKeeps(maxBytes, turns);
    SizeBelowTotal(s);
    assert s.buf == s.added by {
      assert Flatten([]) + s.buf == s.buf;
    }
    var n := AllBelow(turns);
    BegunWeighed(maxBytes, turns, n, Length);
    TotalIsWeight(s.added);
    TotalIsWeight(Begun(maxBytes, turns));
  }

  /**
   * However many goroutines add at once, a batch is not begun before the limit is
   * exceeded: as long as the payloads begun with are together within it, all that
   * were appended stay in the buffer.
   */
  lemma KeptWithinLimit(maxBytes: nat, turns: seq<Turn>)
    requires OnlyAdds(turns) && Total(Begun(maxBytes, turns)) <= maxBytes
    ensures var s := Run(New(maxBytes), turns);
      s.removed == [] && s.built == [] && (Quiet(s) ==> multiset(s.buf) == multiset(Begun(maxBytes, turns)))
  {
    var s := Run(New(maxBytes), turns);
    RunFills(maxBytes, turns);
    RunKeeps(maxBytes, turns);
    EveryAddAccounted(maxBytes, turns);
    assert Flatten([]) + s.buf == s.buf;
  }

  // ---------------------------------------------------------------------
  // Only a clear drops, and the builder never gets an empty batch

  ghost predicate NoClears(turns: seq<Turn>) { forall i :: 0 <= i < |turns| ==> !turns[i].start.Clear? }

  ghost predicate NobodyClears(s: State) {
    (forall t :: !InClear(s.At(t))) && forall k :: 0 <= k < |s.removed| ==> s.removed[k].taken
  }

  lemma {:induction false} RunClearsNothing(maxBytes: nat, turns: seq<Turn>)
    requires NoClears(turns)
    ensures NobodyClears(Run(New(maxBytes), turns))
  {
    if turns != [] {
      var init, last := turns[..|turns| - 1], turns[|turns| - 1];
      assert forall i :: 0 <= i < |init| ==> init[i] == turns[i];
      RunClearsNothing(maxBytes, init);
      var s := Run(New(maxBytes), init);
      OthersKeep(s, last.t, last.start);
      assert !InClear(s.At(last.t));
    }
  }

  ghost predicate BuildsSome(s: State) {
    forall i :: 0 <= i < |s.built| ==> s.built[i] < |s.removed| && s.removed[s.built[i]].payloads != []
  }

  lemma BuildsSomeMoves(s: State, t: nat, start: Start)
    requires BuildsSome(s)
    ensures BuildsSome(Move(s, t, start))
  {
    var s' := Move(s, t, start);
    assert |s'.removed| >= |s.removed| && s'.removed[..|s.removed|] == s.removed;
    forall i | 0 <= i < |s'.built|
      ensures s'.built[i] < |s'.removed| && s'.removed[s'.built[i]].payloads != []
    {
      if i < |s.built| {
        assert s'.built[i] == s.built[i];
        assert s'.removed[s.built[i]] == s'.removed[..|s.removed|][s.built[i]];
      }
    }
  }

  /** In every interleaving the builder is never called with nothing. */
  lemma {:induction false} BuilderGetsSome(maxBytes: nat, turns: seq<Turn>)
    ensures BuildsSome(Run(New(maxBytes), turns))
  {
    if turns != [] {
      var init, last := turns[..|turns| - 1], turns[|turns| - 1];
      BuilderGetsSome(maxBytes, init);
      BuildsSomeMoves(Run(New(maxBytes), init), last.t, last.start);
    }
  }

  /**
   * Without a clear, every payload an add was begun with is given to the builder or
   * still buffered once all goroutines are idle, however they come between each other.
   */
  lemma WithoutClears(maxBytes: nat, turns: seq<Turn>)
    requires NoClears(turns)
    ensures var s := Run(New(maxBytes), turns);
      Quiet(s) ==>
        && multiset(Flatten(s.removed) + s.buf) == multiset(Begun(maxBytes, turns))
        && forall k: nat :: k < |s.removed| && s.removed[k].payloads != [] ==> k in s.built
  {
    var s := Run(New(maxBytes), turns);
    RunClearsNothing(maxBytes, turns);
    EveryAddAccounted(maxBytes, turns);
    NothingLostOrDoubled(maxBytes, turns);
    forall k: nat | Quiet(s) && k < |s.removed| && s.removed[k].payloads != []
      ensures k in s.built
    {
      assert IsTaken(s, k);
    }
  }

  // ---------------------------------------------------------------------
  // Whole operations, literally

  /** What an operation nobody comes between takes, drops, builds and leaves. */
  lemma WholeExactly(s: State, start: Start)
    requires s.bufSize == Total(s.buf)
    ensures var s' := Whole(s, start);
      match start
      case Add(p) =>
        if Total(s.buf) + |p| > s.maxBytes
        then s'.buf == [] && s'.removed == s.removed + [Segment(s.buf + [p], true)] && s'.built == s.built + [|s.removed|]
        else s'.buf == s.buf + [p] && s'.removed == s.removed && s'.built == s.built
      case Clear => s'.buf == [] && s'.removed == s.removed + [Segment(s.buf, false)] && s'.built == s.built
      case _ =>
        && s'.buf == [] && s'.removed == s.removed + [Segment(s.buf, true)]
        && s'.built == s.built + (if s.buf == [] then [] else [|s.removed|])
    ensures Whole(s, start).maxBytes == if start.Reset? then start.maxBytes else s.maxBytes
  {
    Seqs.Nothing(s.built);
  }
}
