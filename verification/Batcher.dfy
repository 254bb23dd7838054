/**
 * The buffered batcher (batcher/batcher.go): Add, Batch, Clear, Reset and the ticker
 * as steps that other goroutines may come between, and the same operations run alone.
 */
module Batcher {
  import opened Wrappers
  import Seqs

  type Payload = string

  /** What left the buffer at one moment: taken by a batch, or dropped by a clear. */
  datatype Segment = Segment(payloads: seq<Payload>, taken: bool)

  function Total(buf: seq<Payload>): nat {
    if buf == [] then 0 else Total(buf[..|buf| - 1]) + |buf[|buf| - 1]|
  }

  function Flatten(removed: seq<Segment>): seq<Payload> {
    if removed == [] then [] else Flatten(removed[..|removed| - 1]) + removed[|removed| - 1].payloads
  }

  lemma FlattenAppend(removed: seq<Segment>, seg: Segment)
    ensures Flatten(removed + [seg]) == Flatten(removed) + seg.payloads
  {
    assert (removed + [seg])[..|removed|] == removed;
  }

  // ---------------------------------------------------------------------
  // The steps

  /** What a goroutine may begin when it is idle; a tick and the exit begin a batch. */
  datatype Start = Add(p: Payload) | Batch | Clear | Reset(maxBytes: nat)

  /** Where a goroutine is. A batch knows the limit that follows it when it is part of a reset. */
  datatype Job =
    | Idle
    | AddWait(p: Payload) | AddAppend(p: Payload) | AddCount(p: Payload) | AddUnlock | AddCheck | AddCompare(size: int)
    | BatchWait(next: Option<nat>) | BatchTake(next: Option<nat>) | BatchEmpty(next: Option<nat>, buf: seq<Payload>)
    | BatchZero(next: Option<nat>, k: nat) | BatchUnlock(next: Option<nat>, k: nat) | Building(next: Option<nat>, k: nat)
    | ResetWrite(maxBytes: nat)
    | ClearWait | ClearEmpty | ClearZero | ClearUnlock

  /**
   * The batcher and its goroutines. The last three fields are history: the payloads
   * in the order they were appended, what left the buffer, and which of these
   * segments were given to the builder.
   */
  datatype State = State(
    lock: Option<nat>, buf: seq<Payload>, bufSize: int, maxBytes: nat, jobs: map<nat, Job>,
    added: seq<Payload>, removed: seq<Segment>, built: seq<nat>)
  {
    function At(t: nat): Job { if t in jobs then jobs[t] else Idle }

    function Go(t: nat, job: Job): State { this.(jobs := jobs[t := job]) }
  }

  function New(maxBytes: nat): State { State(None, [], 0, maxBytes, map[], [], [], []) }

  function Begin(start: Start): Job {
    match start
    case Add(p) => AddWait(p)
    case Batch => BatchWait(None)
    case Clear => ClearWait
    case Reset(m) => BatchWait(Some(m))
  }

  function Acquire(s: State, t: nat, job: Job): State {
    if s.lock.None? then s.(lock := Some(t)).Go(t, job) else s
  }

  predicate InAdd(job: Job) {
    job.AddWait? || job.AddAppend? || job.AddCount? || job.AddUnlock? || job.AddCheck? || job.AddCompare?
  }

  predicate InBatch(job: Job) {
    job.BatchWait? || job.BatchTake? || job.BatchEmpty? || job.BatchZero? || job.BatchUnlock?
  }

  predicate InClear(job: Job) { job.ClearWait? || job.ClearEmpty? || job.ClearZero? || job.ClearUnlock? }

  function MoveAdd(s: State, t: nat): State
    requires InAdd(s.At(t))
  {
    match s.At(t)
    case AddWait(p) => Acquire(s, t, AddAppend(p))
    case AddAppend(p) => s.(buf := s.buf + [p], added := s.added + [p]).Go(t, AddCount(p))
    case AddCount(p) => s.(bufSize := s.bufSize + |p|).Go(t, AddUnlock)
    case AddUnlock => s.(lock := None).Go(t, AddCheck)
    case AddCheck => s.Go(t, AddCompare(s.bufSize))
    case AddCompare(size) => s.Go(t, if size > s.maxBytes then BatchWait(None) else Idle)
  }

  function MoveBatch(s: State, t: nat): State
    requires InBatch(s.At(t))
  {
    match s.At(t)
    case BatchWait(next) => Acquire(s, t, BatchTake(next))
    case BatchTake(next) => s.Go(t, BatchEmpty(next, s.buf))
    case BatchEmpty(next, buf) =>
      s.(buf := [], removed := s.removed + [Segment(buf, true)]).Go(t, BatchZero(next, |s.removed|))
    case BatchZero(next, k) => s.(bufSize := 0).Go(t, BatchUnlock(next, k))
    case BatchUnlock(next, k) => s.(lock := None).Go(t, Building(next, k))
  }

  /** The builder gets what was taken, unless that is nothing. */
  function MoveBuild(s: State, t: nat): State
    requires s.At(t).Building?
  {
    var Building(next, k) := s.At(t);
    var s' := if k < |s.removed| && s.removed[k].payloads != [] then s.(built := s.built + [k]) else s;
    s'.Go(t, if next.Some? then ResetWrite(next.value) else Idle)
  }

  function MoveClear(s: State, t: nat): State
    requires InClear(s.At(t))
  {
    match s.At(t)
    case ClearWait => Acquire(s, t, ClearEmpty)
    case ClearEmpty => s.(buf := [], removed := s.removed + [Segment(s.buf, false)]).Go(t, ClearZero)
    case ClearZero => s.(bufSize := 0).Go(t, ClearUnlock)
    case ClearUnlock => s.(lock := None).Go(t, Idle)
  }

  /** Goroutine t takes one step; waiting for a lock that is taken, it stays. */
  function Move(s: State, t: nat, start: Start): State {
    var job := s.At(t);
    if job.Idle? then s.Go(t, Begin(start))
    else if InAdd(job) then MoveAdd(s, t)
    else if InBatch(job) then MoveBatch(s, t)
    else if InClear(job) then MoveClear(s, t)
    else if job.Building? then MoveBuild(s, t)
    else s.(maxBytes := job.maxBytes).Go(t, Idle)
  }

  /** One step of a run: which goroutine moves, and what it begins if it is idle. */
  datatype Turn = Turn(t: nat, start: Start)

  function Run(s: State, turns: seq<Turn>): State {
    if turns == [] then s
    else Move(Run(s, turns[..|turns| - 1]), turns[|turns| - 1].t, turns[|turns| - 1].start)
  }

  // ---------------------------------------------------------------------
  // What every step keeps

  predicate InCritical(job: Job) {
    job.AddAppend? || job.AddCount? || job.AddUnlock? || job.BatchTake? || job.BatchEmpty? || job.BatchZero?
    || job.BatchUnlock? || job.ClearEmpty? || job.ClearZero? || job.ClearUnlock?
  }

  /** Exactly the goroutine between its lock and its unlock holds the lock. */
  ghost predicate Exclusive(s: State) {
    forall t: nat :: InCritical(s.At(t)) <==> s.lock == Some(t)
  }

  /** How size and buffer differ while the lock holder is halfway. */
  predicate SizeDuring(job: Job, buf: seq<Payload>, bufSize: int) {
    match job
    case AddCount(p) => bufSize + |p| == Total(buf)
    case BatchEmpty(_, copy) => bufSize == Total(buf) && copy == buf
    case BatchZero(_, _) => buf == []
    case ClearZero => buf == []
    case _ => bufSize == Total(buf)
  }

  predicate Sized(s: State) {
    match s.lock
    case None => s.bufSize == Total(s.buf)
    case Some(t) => SizeDuring(s.At(t), s.buf, s.bufSize)
  }

  /** What left the buffer and what is in it are the payloads added, in order. */
  predicate Accounted(s: State) {
    Flatten(s.removed) + s.buf == s.added
  }

  /** The segment a goroutine has taken and not yet given to the builder. */
  function Ticket(job: Job): Option<nat> {
    if job.BatchZero? || job.BatchUnlock? || job.Building? then Some(job.k) else None
  }

  predicate IsTaken(s: State, k: nat) { k < |s.removed| && s.removed[k].taken }

  ghost predicate TicketsValid(s: State) {
    forall t :: Ticket(s.At(t)).Some? ==> IsTaken(s, Ticket(s.At(t)).value) && Ticket(s.At(t)).value !in s.built
  }

  ghost predicate TicketsDistinct(s: State) {
    forall t, u :: Ticket(s.At(t)).Some? && Ticket(s.At(t)) == Ticket(s.At(u)) ==> t == u
  }

  ghost predicate Held(s: State, k: nat) { exists t :: Ticket(s.At(t)) == Some(k) }

  /** A taken segment that is not empty was given to the builder or is on its way. */
  ghost predicate NoneForgotten(s: State) {
    forall k: nat :: IsTaken(s, k) && s.removed[k].payloads != [] && k !in s.built ==> Held(s, k)
  }

  ghost predicate BuiltOnce(s: State) {
    && (forall i, j :: 0 <= i < j < |s.built| ==> s.built[i] != s.built[j])
    && forall i :: 0 <= i < |s.built| ==> IsTaken(s, s.built[i])
  }

  ghost predicate Keeps(s: State) {
    && Exclusive(s) && Sized(s) && Accounted(s)
    && TicketsValid(s) && TicketsDistinct(s) && NoneForgotten(s) && BuiltOnce(s)
  }

  lemma MoveExclusive(s: State, t: nat, start: Start)
    requires Exclusive(s)
    ensures Exclusive(Move(s, t, start))
  {
    var s' := Move(s, t, start);
    assert InCritical(s.At(t)) <==> s.lock == Some(t);
    forall u
      ensures InCritical(s'.At(u)) <==> s'.lock == Some(u)
    {
      assert InCritical(s.At(u)) <==> s.lock == Some(u);
      if u != t {
        assert s'.At(u) == s.At(u);
      }
    }
  }

  lemma MoveSized(s: State, t: nat, start: Start)
    requires Exclusive(s) && Sized(s)
    ensures Sized(Move(s, t, start))
  {
    assert InCritical(s.At(t)) <==> s.lock == Some(t);
    if InAdd(s.At(t)) {
      AddSized(s, t);
    }
  }

  lemma AddSized(s: State, t: nat)
    requires InAdd(s.At(t)) && Sized(s) && (InCritical(s.At(t)) <==> s.lock == Some(t))
    ensures Sized(MoveAdd(s, t))
  {
    if s.At(t).AddAppend? {
    }
  }

  predicate TicketsKept(s: State, t: nat, s': State) {
    && s'.removed == s.removed && s'.built == s.built
    && Ticket(s'.At(t)) == Ticket(s.At(t))
    && s'.jobs == s.jobs[t := s'.At(t)]
  }

  /** Other steps leave buffer and history alone, and the ticket as it is. */
  lemma OtherMoves(s: State, t: nat, start: Start)
    requires !s.At(t).AddAppend? && !s.At(t).BatchEmpty? && !s.At(t).ClearEmpty? && !s.At(t).Building?
    ensures var s' := Move(s, t, start);
      s' == s || (s'.buf == s.buf && s'.added == s.added && TicketsKept(s, t, s'))
  {
  }

  lemma MoveAccounted(s: State, t: nat, start: Start)
    requires Exclusive(s) && Sized(s) && Accounted(s)
    ensures Accounted(Move(s, t, start))
  {
    assert InCritical(s.At(t)) <==> s.lock == Some(t);
    if s.At(t).AddAppend? {
      AppendAccounted(s, t);
    } else if s.At(t).BatchEmpty? || s.At(t).ClearEmpty? {
      EmptyAccounted(s, t);
    } else if !s.At(t).Building? {
      OtherMoves(s, t, start);
    }
  }

  lemma AppendAccounted(s: State, t: nat)
    requires s.At(t).AddAppend? && Accounted(s)
    ensures Accounted(MoveAdd(s, t))
  {
    Seqs.Assoc(Flatten(s.removed), s.buf, [s.At(t).p]);
  }

  lemma EmptyAccounted(s: State, t: nat)
    requires s.At(t).BatchEmpty? || s.At(t).ClearEmpty?
    requires Accounted(s) && (s.At(t).BatchEmpty? ==> s.At(t).buf == s.buf)
    ensures s.At(t).BatchEmpty? ==> Accounted(MoveBatch(s, t))
    ensures s.At(t).ClearEmpty? ==> Accounted(MoveClear(s, t))
  {
    if s.At(t).BatchEmpty? {
      RemoveAccounted(s, MoveBatch(s, t), true);
    } else {
      RemoveAccounted(s, MoveClear(s, t), false);
    }
  }

  lemma RemoveAccounted(s: State, s': State, taken: bool)
    requires Accounted(s) && s'.buf == [] && s'.added == s.added
    requires s'.removed == s.removed + [Segment(s.buf, taken)]
    ensures Accounted(s')
  {
    FlattenAppend(s.removed, Segment(s.buf, taken));
    Seqs.Nothing(s.added);
  }

  lemma MoveTickets(s: State, t: nat, start: Start)
    requires TicketsValid(s) && TicketsDistinct(s) && NoneForgotten(s) && BuiltOnce(s)
    ensures var s' := Move(s, t, start);
      TicketsValid(s') && TicketsDistinct(s') && NoneForgotten(s') && BuiltOnce(s')
  {
    var s' := Move(s, t, start);
    if s.At(t).BatchEmpty? {
      TakeTicket(s, t);
    } else if s.At(t).ClearEmpty? {
      ClearTickets(s, t);
    } else if s.At(t).Building? {
      BuildTicket(s, t);
    } else if s.At(t).AddAppend? {
      KeepTickets(s, t, s');
    } else {
      OtherMoves(s, t, start);
      if s' != s {
        KeepTickets(s, t, s');
      }
    }
  }

  lemma OthersStay(s: State, t: nat, s': State)
    requires s'.jobs == s.jobs[t := s'.At(t)]
    ensures forall u :: u != t ==> s'.At(u) == s.At(u)
  {
  }

  lemma KeepTickets(s: State, t: nat, s': State)
    requires TicketsValid(s) && TicketsDistinct(s) && NoneForgotten(s) && BuiltOnce(s)
    requires TicketsKept(s, t, s')
    ensures TicketsValid(s') && TicketsDistinct(s') && NoneForgotten(s') && BuiltOnce(s')
  {
    OthersStay(s, t, s');
    assert forall u :: Ticket(s'.At(u)) == Ticket(s.At(u));
    forall k: nat | IsTaken(s', k) && s'.removed[k].payloads != [] && k !in s'.built
      ensures Held(s', k)
    {
      assert IsTaken(s, k) && Held(s, k);
      var u :| Ticket(s.At(u)) == Some(k);
      assert Ticket(s'.At(u)) == Some(k);
    }
    forall i | 0 <= i < |s'.built|
      ensures IsTaken(s', s'.built[i])
    {
      assert IsTaken(s, s.built[i]);
    }
  }

  lemma TakeTicket(s: State, t: nat)
    requires TicketsValid(s) && TicketsDistinct(s) && NoneForgotten(s) && BuiltOnce(s)
    requires s.At(t).BatchEmpty?
    ensures var s' := MoveBatch(s, t);
      TicketsValid(s') && TicketsDistinct(s') && NoneForgotten(s') && BuiltOnce(s')
  {
    var s' := MoveBatch(s, t);
    var last := |s.removed|;
    OthersStay(s, t, s');
    assert Ticket(s'.At(t)) == Some(last) && Ticket(s.At(t)) == None;
    assert last !in s.built;
    forall k: nat | IsTaken(s', k) && s'.removed[k].payloads != [] && k !in s'.built
      ensures Held(s', k)
    {
      if k == last {
        assert Ticket(s'.At(t)) == Some(k);
      } else {
        assert IsTaken(s, k) && Held(s, k);
        var u :| Ticket(s.At(u)) == Some(k);
        assert Ticket(s'.At(u)) == Some(k);
      }
    }
  }

  lemma ClearTickets(s: State, t: nat)
    requires TicketsValid(s) && TicketsDistinct(s) && NoneForgotten(s) && BuiltOnce(s)
    requires s.At(t).ClearEmpty?
    ensures var s' := MoveClear(s, t);
      TicketsValid(s') && TicketsDistinct(s') && NoneForgotten(s') && BuiltOnce(s')
  {
    var s' := MoveClear(s, t);
    OthersStay(s, t, s');
    assert Ticket(s'.At(t)) == None && Ticket(s.At(t)) == None;
    assert forall u :: Ticket(s'.At(u)) == Ticket(s.At(u));
    forall k: nat | IsTaken(s', k) && s'.removed[k].payloads != [] && k !in s'.built
      ensures Held(s', k)
    {
      assert IsTaken(s, k) && Held(s, k);
      var u :| Ticket(s.At(u)) == Some(k);
      assert Ticket(s'.At(u)) == Some(k);
    }
  }

  lemma BuildTicket(s: State, t: nat)
    requires TicketsValid(s) && TicketsDistinct(s) && NoneForgotten(s) && BuiltOnce(s)
    requires s.At(t).Building?
    ensures var s' := MoveBuild(s, t);
      TicketsValid(s') && TicketsDistinct(s') && NoneForgotten(s') && BuiltOnce(s')
  {
    var s' := MoveBuild(s, t);
    var mine := s.At(t).k;
    OthersStay(s, t, s');
    assert Ticket(s'.At(t)) == None && Ticket(s.At(t)) == Some(mine);
    forall u | Ticket(s'.At(u)).Some?
      ensures IsTaken(s', Ticket(s'.At(u)).value) && Ticket(s'.At(u)).value !in s'.built
    {
      assert u != t && Ticket(s.At(u)) == Ticket(s'.At(u)) && Ticket(s.At(u)) != Some(mine);
      assert IsTaken(s, Ticket(s.At(u)).value);
    }
    forall k: nat | IsTaken(s', k) && s'.removed[k].payloads != [] && k !in s'.built
      ensures Held(s', k)
    {
      assert IsTaken(s, k) && Held(s, k);
      var u :| Ticket(s.At(u)) == Some(k);
      assert u != t;
      assert Ticket(s'.At(u)) == Some(k);
    }
    forall i | 0 <= i < |s'.built|
      ensures IsTaken(s', s'.built[i])
    {
      assert i < |s.built| ==> IsTaken(s, s.built[i]);
    }
  }

  lemma {:induction false} RunKeeps(maxBytes: nat, turns: seq<Turn>)
    ensures Keeps(Run(New(maxBytes), turns))
  {
    if turns == [] {
      assert Flatten([]) + [] == [];
    } else {
      var init, last := turns[..|turns| - 1], turns[|turns| - 1];
      RunKeeps(maxBytes, init);
      var s := Run(New(maxBytes), init);
      MoveExclusive(s, last.t, last.start);
      MoveSized(s, last.t, last.start);
      MoveAccounted(s, last.t, last.start);
      MoveTickets(s, last.t, last.start);
    }
  }

  /** In every interleaving: whenever the lock is free, the size is the sum of the buffered lengths. */
  lemma SizeIsSum(maxBytes: nat, turns: seq<Turn>)
    ensures var s := Run(New(maxBytes), turns); s.lock.None? ==> s.bufSize == Total(s.buf)
  {
    RunKeeps(maxBytes, turns);
  }

  ghost predicate Quiet(s: State) { forall t :: s.At(t).Idle? }

  /**
   * In every interleaving, once all goroutines are idle: the payloads added are, in
   * order, those of the segments removed and those buffered; every segment taken is
   * built exactly once unless empty, and no cleared one is.
   */
  lemma NothingLostOrDoubled(maxBytes: nat, turns: seq<Turn>)
    ensures var s := Run(New(maxBytes), turns);
      && Flatten(s.removed) + s.buf == s.added
      && (forall i, j :: 0 <= i < j < |s.built| ==> s.built[i] != s.built[j])
      && (forall i :: 0 <= i < |s.built| ==> IsTaken(s, s.built[i]))
      && (Quiet(s) ==> forall k: nat :: IsTaken(s, k) && s.removed[k].payloads != [] ==> k in s.built)
  {
    RunKeeps(maxBytes, turns);
    var s := Run(New(maxBytes), turns);
    if Quiet(s) {
      forall k: nat | IsTaken(s, k) && s.removed[k].payloads != []
        ensures k in s.built
      {
        assert k in s.built || Held(s, k);
        assert forall t :: Ticket(s.At(t)).None?;
      }
    }
  }

  // ---------------------------------------------------------------------
  // The soft limit

  /** A goroutine that is going to empty the buffer, or about to see that it is over limit l. */
  predicate Pending(job: Job, l: nat) {
    || job.AddCount? || job.AddUnlock? || job.AddCheck? || (job.AddCompare? && job.size > l)
    || job.BatchWait? || job.BatchTake? || job.BatchEmpty? || job.ClearEmpty?
  }

  ghost predicate SomePending(s: State, l: nat) { exists t :: Pending(s.At(t), l) }

  /** A buffer over limit l has someone coming for it. */
  ghost predicate Bounded(s: State, l: nat) { Total(s.buf) > l ==> SomePending(s, l) }

  /** A limit that a goroutine in the middle of a reset still has to write is at most l. */
  predicate WritesAtMost(job: Job, l: nat) {
    match job
    case ResetWrite(m) => m <= l
    case Building(next, _) => AtMost(next, l)
    case BatchWait(next) => AtMost(next, l)
    case BatchTake(next) => AtMost(next, l)
    case BatchEmpty(next, _) => AtMost(next, l)
    case BatchZero(next, _) => AtMost(next, l)
    case BatchUnlock(next, _) => AtMost(next, l)
    case _ => true
  }

  predicate AtMost(next: Option<nat>, l: nat) { next.Some? ==> next.value <= l }

  predicate StartsAtMost(start: Start, l: nat) { start.Reset? ==> start.maxBytes <= l }

  /** The limit, and every one that is still to be written, is at most l. */
  ghost predicate LimitsAtMost(s: State, l: nat) {
    s.maxBytes <= l && forall t :: WritesAtMost(s.At(t), l)
  }

  lemma MoveLimits(s: State, t: nat, start: Start, l: nat)
    requires LimitsAtMost(s, l) && StartsAtMost(start, l)
    ensures LimitsAtMost(Move(s, t, start), l)
  {
    var s' := Move(s, t, start);
    assert WritesAtMost(s.At(t), l);
    forall u
      ensures WritesAtMost(s'.At(u), l)
    {
      assert WritesAtMost(s.At(u), l);
      if u != t {
        assert s'.At(u) == s.At(u);
      }
    }
  }

  lemma MoveBounded(s: State, t: nat, start: Start, l: nat)
    requires Exclusive(s) && Sized(s) && LimitsAtMost(s, l) && Bounded(s, l)
    ensures Bounded(Move(s, t, start), l)
  {
    var s' := Move(s, t, start);
    assert InCritical(s.At(t)) <==> s.lock == Some(t);
    if Total(s'.buf) > l {
      if s.At(t).AddAppend? {
        assert Pending(s'.At(t), l);
      } else if s' != s {
        assert s'.buf == s.buf;
        PendingStays(s, t, start, l);
      }
    }
  }

  /** As long as the buffer is over the limit and unchanged, someone stays pending. */
  lemma PendingStays(s: State, t: nat, start: Start, l: nat)
    requires Exclusive(s) && Sized(s) && LimitsAtMost(s, l) && SomePending(s, l)
    requires Total(s.buf) > l && Move(s, t, start).buf == s.buf
    ensures SomePending(Move(s, t, start), l)
  {
    var s' := Move(s, t, start);
    assert InCritical(s.At(t)) <==> s.lock == Some(t);
    var u :| Pending(s.At(u), l);
    if u != t {
      assert s'.At(u) == s.At(u);
      assert Pending(s'.At(u), l);
    } else if s.At(t).AddCheck? && s.bufSize <= l {
      var h := s.lock.value;
      assert s'.At(h) == s.At(h);
      assert Pending(s'.At(h), l);
    } else {
      assert Pending(s'.At(t), l);
    }
  }

  /** The limit at the start and every limit a reset of the run sets are at most l. */
  ghost predicate RunAtMost(maxBytes: nat, turns: seq<Turn>, l: nat) {
    maxBytes <= l && forall i :: 0 <= i < |turns| ==> StartsAtMost(turns[i].start, l)
  }

  lemma {:induction false} RunBounded(maxBytes: nat, turns: seq<Turn>, l: nat)
    requires RunAtMost(maxBytes, turns, l)
    ensures var s := Run(New(maxBytes), turns); LimitsAtMost(s, l) && Bounded(s, l)
  {
    if turns != [] {
      var init, last := turns[..|turns| - 1], turns[|turns| - 1];
      RunBounded(maxBytes, init, l);
      RunKeeps(maxBytes, init);
      MoveLimits(Run(New(maxBytes), init), last.t, last.start, l);
      MoveBounded(Run(New(maxBytes), init), last.t, last.start, l);
    }
  }

  /**
   * The soft limit, despite the size being read without the lock: in every
   * interleaving, once all goroutines are idle the buffer is within the largest
   * limit that was ever set.
   */
  lemma QuietWithinLimit(maxBytes: nat, turns: seq<Turn>, l: nat)
    requires RunAtMost(maxBytes, turns, l)
    ensures var s := Run(New(maxBytes), turns); Quiet(s) ==> Total(s.buf) <= l
  {
    RunBounded(maxBytes, turns, l);
  }

  // ---------------------------------------------------------------------
  // Operations run alone

  /** The goroutine's next n steps with nobody between. */
  function Steps(s: State, t: nat, start: Start, n: nat): State
    decreases n
  {
    if n == 0 then s else Steps(Move(s, t, start), t, start, n - 1)
  }

  function Batched(s: State): State {
    s.(buf := [], bufSize := 0, removed := s.removed + [Segment(s.buf, true)],
       built := if s.buf != [] then s.built + [|s.removed|] else s.built)
  }

  function Appended(s: State, p: Payload): State {
    s.(buf := s.buf + [p], bufSize := s.bufSize + |p|, added := s.added + [p])
  }

  function Added(s: State, p: Payload): State {
    var s' := Appended(s, p);
    if s'.bufSize > s.maxBytes then Batched(s') else s'
  }

  function Cleared(s: State): State {
    s.(buf := [], bufSize := 0, removed := s.removed + [Segment(s.buf, false)])
  }

  /** What a whole operation does to a batcher nobody else uses. */
  function Whole(s: State, start: Start): State {
    match start
    case Add(p) => Added(s, p)
    case Batch => Batched(s)
    case Clear => Cleared(s)
    case Reset(m) => Batched(s).(maxBytes := m)
  }

  lemma {:induction false} StepsSplit(s: State, t: nat, start: Start, m: nat, n: nat)
    ensures Steps(s, t, start, m + n) == Steps(Steps(s, t, start, m), t, start, n)
    decreases m
  {
    if m > 0 {
      StepsSplit(Move(s, t, start), t, start, m - 1, n);
    }
  }

  /** The state with t at a job, as Steps leaves it. */
  predicate Reaches(s: State, t: nat, start: Start, n: nat, s': State, job: Job) {
    Steps(s, t, start, n) == s'.(jobs := s.jobs[t := job])
  }

  lemma ReachesNext(s: State, t: nat, start: Start, n: nat, s1: State, job: Job, s2: State, job': Job)
    requires Reaches(s, t, start, n, s1, job)
    requires Move(s1.(jobs := s.jobs[t := job]), t, start) == s2.(jobs := s.jobs[t := job'])
    ensures Reaches(s, t, start, n + 1, s2, job')
  {
    StepsSplit(s, t, start, n, 1);
    var mid := Steps(s, t, start, n);
    assert Steps(mid, t, start, 1) == Steps(Move(mid, t, start), t, start, 0);
  }

  lemma BatchAlone(s: State, t: nat, start: Start, n: nat, s1: State, next: Option<nat>)
    requires Reaches(s, t, start, n, s1, BatchWait(next)) && s1.lock.None?
    ensures Reaches(s, t, start, n + 6, Batched(s1), if next.Some? then ResetWrite(next.value) else Idle)
  {
    var k, locked := |s1.removed|, s1.(lock := Some(t));
    var emptied := locked.(buf := [], removed := s1.removed + [Segment(s1.buf, true)]);
    ReachesNext(s, t, start, n, s1, BatchWait(next), locked, BatchTake(next));
    ReachesNext(s, t, start, n + 1, locked, BatchTake(next), locked, BatchEmpty(next, s1.buf));
    ReachesNext(s, t, start, n + 2, locked, BatchEmpty(next, s1.buf), emptied, BatchZero(next, k));
    BatchEndsAlone(s, t, start, n + 3, s1, next, emptied);
  }

  lemma BatchEndsAlone(s: State, t: nat, start: Start, n: nat, s1: State, next: Option<nat>, emptied: State)
    requires s1.lock.None?
    requires emptied == s1.(lock := Some(t), buf := [], removed := s1.removed + [Segment(s1.buf, true)])
    requires Reaches(s, t, start, n, emptied, BatchZero(next, |s1.removed|))
    ensures Reaches(s, t, start, n + 3, Batched(s1), if next.Some? then ResetWrite(next.value) else Idle)
  {
    var k := |s1.removed|;
    ReachesNext(s, t, start, n, emptied, BatchZero(next, k), emptied.(bufSize := 0), BatchUnlock(next, k));
    var taken := emptied.(bufSize := 0, lock := None);
    ReachesNext(s, t, start, n + 1, emptied.(bufSize := 0), BatchUnlock(next, k), taken, Building(next, k));
    BuildsAlone(s, t, start, n + 2, s1, next, taken);
  }

  lemma BuildsAlone(s: State, t: nat, start: Start, n: nat, s1: State, next: Option<nat>, taken: State)
    requires taken == s1.(buf := [], bufSize := 0, removed := s1.removed + [Segment(s1.buf, true)])
    requires Reaches(s, t, start, n, taken, Building(next, |s1.removed|))
    ensures Reaches(s, t, start, n + 1, Batched(s1), if next.Some? then ResetWrite(next.value) else Idle)
  {
    var k := |s1.removed|;
    ReachesNext(s, t, start, n, taken, Building(next, k), Batched(s1), if next.Some? then ResetWrite(next.value) else Idle);
  }

  lemma AddAlone(s: State, t: nat, p: Payload) returns (n: nat)
    requires s.lock.None? && s.At(t).Idle?
    ensures Reaches(s, t, Add(p), n, Added(s, p), Idle)
  {
    var start, job := Add(p), Begin(Add(p));
    assert Steps(s, t, start, 1) == Steps(Move(s, t, start), t, start, 0);
    assert Reaches(s, t, start, 1, s, AddWait(p));
    var locked := s.(lock := Some(t));
    var grown := locked.(buf := s.buf + [p], added := s.added + [p]);
    ReachesNext(s, t, start, 1, s, AddWait(p), locked, AddAppend(p));
    ReachesNext(s, t, start, 2, locked, AddAppend(p), grown, AddCount(p));
    ReachesNext(s, t, start, 3, grown, AddCount(p), grown.(bufSize := s.bufSize + |p|), AddUnlock);
    ReachesNext(s, t, start, 4, grown.(bufSize := s.bufSize + |p|), AddUnlock, Appended(s, p), AddCheck);
    n := AddChecksAlone(s, t, p);
  }

  lemma AddChecksAlone(s: State, t: nat, p: Payload) returns (n: nat)
    requires s.lock.None? && Reaches(s, t, Add(p), 5, Appended(s, p), AddCheck)
    ensures Reaches(s, t, Add(p), n, Added(s, p), Idle)
  {
    var start, s' := Add(p), Appended(s, p);
    ReachesNext(s, t, start, 5, s', AddCheck, s', AddCompare(s'.bufSize));
    if s'.bufSize > s.maxBytes {
      n := 13;
      AddOverLimit(s, t, p);
    } else {
      ReachesNext(s, t, start, 6, s', AddCompare(s'.bufSize), s', Idle);
      n := 7;
    }
  }

  lemma AddOverLimit(s: State, t: nat, p: Payload)
    requires var s' := Appended(s, p);
      s.lock.None? && s'.bufSize > s.maxBytes && Reaches(s, t, Add(p), 6, s', AddCompare(s'.bufSize))
    ensures Reaches(s, t, Add(p), 13, Added(s, p), Idle)
  {
    var start, s' := Add(p), Appended(s, p);
    ReachesNext(s, t, start, 6, s', AddCompare(s'.bufSize), s', BatchWait(None));
    BatchAlone(s, t, start, 7, s', None);
  }

  lemma ClearAlone(s: State, t: nat) returns (n: nat)
    requires s.lock.None? && s.At(t).Idle?
    ensures Reaches(s, t, Clear, n, Cleared(s), Idle)
  {
    assert Steps(s, t, Clear, 1) == Steps(Move(s, t, Clear), t, Clear, 0);
    assert Reaches(s, t, Clear, 1, s, ClearWait);
    var locked := s.(lock := Some(t));
    var emptied := locked.(buf := [], removed := s.removed + [Segment(s.buf, false)]);
    ReachesNext(s, t, Clear, 1, s, ClearWait, locked, ClearEmpty);
    ReachesNext(s, t, Clear, 2, locked, ClearEmpty, emptied, ClearZero);
    n := ClearEndsAlone(s, t, emptied);
  }

  lemma ClearEndsAlone(s: State, t: nat, emptied: State) returns (n: nat)
    requires s.lock.None? && emptied == s.(lock := Some(t), buf := [], removed := s.removed + [Segment(s.buf, false)])
    requires Reaches(s, t, Clear, 3, emptied, ClearZero)
    ensures Reaches(s, t, Clear, n, Cleared(s), Idle)
  {
    ReachesNext(s, t, Clear, 3, emptied, ClearZero, emptied.(bufSize := 0), ClearUnlock);
    ReachesNext(s, t, Clear, 4, emptied.(bufSize := 0), ClearUnlock, Cleared(s), Idle);
    n := 5;
  }

  lemma BatchingAlone(s: State, t: nat, start: Start)
    requires s.lock.None? && s.At(t).Idle? && start.Batch?
    ensures Reaches(s, t, start, 7, Batched(s), Idle)
  {
    assert Steps(s, t, start, 1) == Steps(Move(s, t, start), t, start, 0);
    assert Reaches(s, t, start, 1, s, BatchWait(None));
    BatchAlone(s, t, start, 1, s, None);
  }

  /** A reset has batched, and has its limit still to write. */
  lemma ResetBatches(s: State, t: nat, m: nat)
    requires s.lock.None? && s.At(t).Idle?
    ensures Reaches(s, t, Reset(m), 7, Batched(s), ResetWrite(m))
  {
    assert Steps(s, t, Reset(m), 1) == Steps(Move(s, t, Reset(m)), t, Reset(m), 0);
    assert Reaches(s, t, Reset(m), 1, s, BatchWait(Some(m)));
    BatchAlone(s, t, Reset(m), 1, s, Some(m));
  }

  lemma ResetAlone(s: State, t: nat, m: nat)
    requires s.lock.None? && s.At(t).Idle?
    ensures Reaches(s, t, Reset(m), 8, Batched(s).(maxBytes := m), Idle)
  {
    ResetBatches(s, t, m);
    ReachesNext(s, t, Reset(m), 7, Batched(s), ResetWrite(m), Batched(s).(maxBytes := m), Idle);
  }

  /** Run alone, every operation comes to its end having done exactly what Whole says. */
  lemma WholeAlone(s: State, t: nat, start: Start) returns (n: nat)
    requires s.lock.None? && s.At(t).Idle?
    ensures Reaches(s, t, start, n, Whole(s, start), Idle)
  {
    match start
    case Add(p) => n := AddAlone(s, t, p);
    case Clear => n := ClearAlone(s, t);
    case Batch =>
      n := 7;
      BatchingAlone(s, t, start);
    case Reset(m) =>
      n := 8;
      ResetAlone(s, t, m);
  }

  /** One more turn of a run, and one more step alone. */
  lemma OneMoreTurn(s: State, turns: seq<Turn>, turn: Turn)
    ensures Run(s, turns + [turn]) == Move(Run(s, turns), turn.t, turn.start)
  {
    assert (turns + [turn])[..|turns|] == turns;
  }

  lemma OneMoreStep(s: State, t: nat, start: Start, n: nat)
    ensures Steps(s, t, start, n + 1) == Move(Steps(s, t, start, n), t, start)
  {
    StepsSplit(s, t, start, n, 1);
    var mid := Steps(s, t, start, n);
    assert Steps(mid, t, start, 1) == Steps(Move(mid, t, start), t, start, 0);
  }

  /** A run that goes on with n steps of one goroutine. */
  lemma {:induction false} StepsAreTurns(s: State, turns: seq<Turn>, t: nat, start: Start, n: nat) returns (more: seq<Turn>)
    ensures Run(s, more) == Steps(Run(s, turns), t, start, n)
    decreases n
  {
    if n == 0 {
      more := turns;
    } else {
      more := StepsAreTurns(s, turns, t, start, n - 1);
      OneMoreTurn(s, more, Turn(t, start));
      OneMoreStep(Run(s, turns), t, start, n - 1);
      more := more + [Turn(t, start)];
    }
  }

  /**
   * A reset to a lower limit can leave more than that in the buffer: a payload added
   * between its batch and its write was checked against the old limit. For every
   * payload between the two limits there is such a run, at whose end all are idle.
   */
  lemma ResetCanExceed(maxBytes: nat, m: nat, p: Payload) returns (turns: seq<Turn>)
    requires m < |p| <= maxBytes
    ensures var s := Run(New(maxBytes), turns); Quiet(s) && s.maxBytes == m && s.buf == [p] && Total(s.buf) > m
  {
    var s0 := New(maxBytes);
    ResetBatches(s0, 0, m);
    turns := StepsAreTurns(s0, [], 0, Reset(m), 7);
    var s1 := Run(s0, turns);
    var n := AddAlone(s1, 1, p);
    AddFits(s1, p);
    turns := StepsAreTurns(s0, turns, 1, Add(p), n);
    var s2 := Run(s0, turns);
    WritesLast(s2, m);
    OneMoreTurn(s0, turns, Turn(0, Reset(m)));
    turns := turns + [Turn(0, Reset(m))];
    TotalAppended([], p);
  }

  lemma WritesLast(s: State, m: nat)
    requires s.jobs.Keys == {0, 1} && s.At(0) == ResetWrite(m) && s.At(1).Idle?
    ensures var s' := Move(s, 0, Reset(m)); Quiet(s') && s'.maxBytes == m && s'.buf == s.buf
  {
  }

  lemma AddFits(s: State, p: Payload)
    requires s.bufSize == 0 && s.buf == [] && |p| <= s.maxBytes
    ensures Added(s, p).buf == [p] && Added(s, p).maxBytes == s.maxBytes
  {
  }

  lemma TotalAppended(buf: seq<Payload>, p: Payload)
    ensures Total(buf + [p]) == Total(buf) + |p|
  {
    assert (buf + [p])[..|buf|] == buf;
  }

  /** Whole operations keep the size and the account of payloads. */
  lemma WholeKeeps(s: State, start: Start)
    requires Accounted(s) && s.bufSize == Total(s.buf)
    ensures Accounted(Whole(s, start)) && Whole(s, start).bufSize == Total(Whole(s, start).buf)
  {
    match start
    case Add(p) =>
      AppendedKeeps(s, p);
      BatchedKeeps(Appended(s, p));
    case Clear => ClearedKeeps(s);
    case _ => BatchedKeeps(s);
  }

  lemma BatchedKeeps(s: State)
    requires Accounted(s)
    ensures Accounted(Batched(s)) && Total(Batched(s).buf) == 0
  {
    RemoveAccounted(s, Batched(s), true);
  }

  lemma ClearedKeeps(s: State)
    requires Accounted(s)
    ensures Accounted(Cleared(s)) && Total(Cleared(s).buf) == 0
  {
    RemoveAccounted(s, Cleared(s), false);
  }

  lemma AppendedKeeps(s: State, p: Payload)
    requires Accounted(s) && s.bufSize == Total(s.buf)
    ensures Accounted(Appended(s, p)) && Appended(s, p).bufSize == Total(Appended(s, p).buf)
  {
    Seqs.Assoc(Flatten(s.removed), s.buf, [p]);
  }

  /** The batcher as one goroutine sees it, with the history the steps keep. */
  class Batcher {
    var buf: seq<Payload>
    var bufSize: int
    var maxBytes: nat
    ghost var added: seq<Payload>
    ghost var removed: seq<Segment>
    ghost var built: seq<nat>

    ghost function View(): State
      reads this
    {
      State(None, buf, bufSize, maxBytes, map[], added, removed, built)
    }

    ghost predicate Valid()
      reads this
    {
      bufSize == Total(buf) && Accounted(View())
    }

    constructor (maxBytes: nat)
      ensures Valid() && View() == New(maxBytes)
    {
      this.buf, this.bufSize, this.maxBytes := [], 0, maxBytes;
      added, removed, built := [], [], [];
      new;
      assert Flatten([]) + [] == [];
    }

    /** The result is what the builder gets: nothing if the buffer was empty. */
    method Batch() returns (batch: seq<Payload>)
      requires Valid()
      modifies this
      ensures Valid() && View() == Batched(old(View()))
      ensures batch == old(buf) && buf == []
    {
      batch := buf;
      ghost var k := |removed|;
      ghost var batched := Batched(View());
      BatchedKeeps(View());
      removed := removed + [Segment(buf, true)];
      buf, bufSize := [], 0;
      if |batch| > 0 {
        built := built + [k];
      }
      assert View() == batched;
    }

    method Add(p: Payload) returns (batch: seq<Payload>)
      requires Valid()
      modifies this
      ensures Valid() && View() == Added(old(View()), p)
      ensures batch == if Total(old(buf)) + |p| > old(maxBytes) then old(buf) + [p] else []
      ensures Total(buf) <= maxBytes
      ensures batch + buf == old(buf) + [p] && (batch == [] || buf == [])
    {
      batch := [];
      AppendedKeeps(View(), p);
      buf := buf + [p];
      added := added + [p];
      bufSize := bufSize + |p|;
      if bufSize > maxBytes {
        batch := Batch();
      }
    }

    method Clear()
      requires Valid()
      modifies this
      ensures Valid() && View() == Cleared(old(View()))
      ensures buf == [] && bufSize == 0 && maxBytes == old(maxBytes) && built == old(built)
    {
      ClearedKeeps(View());
      ghost var cleared := Cleared(View());
      removed := removed + [Segment(buf, false)];
      buf := [];
      bufSize := 0;
      assert View() == cleared;
    }

    method Reset(maxBytes: nat) returns (batch: seq<Payload>)
      requires Valid()
      modifies this
      ensures Valid() && View() == Batched(old(View())).(maxBytes := maxBytes)
      ensures batch == old(buf) && buf == [] && this.maxBytes == maxBytes
    {
      batch := Batch();
      this.maxBytes := maxBytes;
    }
  }
}
