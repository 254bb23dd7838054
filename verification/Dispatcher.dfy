/**
 * Delivery with retry (nats/dispatcher.go): fetch, processMsg, Flush and the two
 * caches.  A durable subscription fetches a batch, hands each message to its
 * handler and acknowledges it, until a transient error; that message and the
 * rest of the batch are given back.  Transient errors are counted per durable;
 * a success does not clear the count, only exhaustion, expiry or a flush does.
 */
module Dispatcher {
  import opened Arith

  type Durable = string

  /** What happens to one message: unreadable metadata, or what the handler returns. */
  datatype Outcome = NoMetadata | Delivered | Permanent | Transient

  /** A message's sequence number in the stream, and what will come of handling it. */
  datatype Message = Message(seqNo: nat, outcome: Outcome)

  datatype Answer = Ack | Nak

  // ---------------------------------------------------------------------
  // The retry counter as a function

  /** The stored retry number, or -1 when nothing is stored; n is the number of retry delays. */
  type Counter = int

  ghost predicate CounterOk(r: Counter, n: nat) { -1 <= r < n }

  /** A transient error: the new counter and whether the message is given up. */
  function OnTransient(r: Counter, n: nat): (Counter, bool) {
    if r + 1 >= n then (-1, true) else (r + 1, false)
  }

  /** The state of one durable as far as delivery is concerned, with what has been counted since the last reset. */
  datatype Track = Track(retry: Counter, failures: nat, dropped: nat)

  /** How many outcomes are transient errors. */
  function Transients(outcomes: seq<Outcome>): nat {
    if outcomes == [] then 0 else (if outcomes[0] == Transient then 1 else 0) + Transients(outcomes[1..])
  }

  lemma {:induction false} TransientsAppend(a: seq<Outcome>, b: seq<Outcome>)
    ensures Transients(a + b) == Transients(a) + Transients(b)
  {
    if a == [] {
      assert a + b == b;
    } else {
      assert (a + b)[1..] == a[1..] + b;
      TransientsAppend(a[1..], b);
    }
  }

  /** One handled message; the flag says whether it is done with. */
  function Handle(t: Track, o: Outcome, n: nat): (Track, bool) {
    if o != Transient then (t, true)
    else
      var (r, giveUp) := OnTransient(t.retry, n);
      (Track(r, t.failures + 1, t.dropped + if giveUp then 1 else 0), giveUp)
  }

  /** The exact state of the counter: failures = dropped * (n + 1) + retry + 1, with retry in range. */
  ghost predicate Counted(t: Track, n: nat) {
    CounterOk(t.retry, n) && t.failures == Times(t.dropped, n + 1) + t.retry + 1
  }

  /** Closed forms: the number dropped is the quotient, the stored counter the remainder less one. */
  lemma CountClosedForm(t: Track, n: nat)
    requires Counted(t, n)
    ensures t.dropped == t.failures / (n + 1)
    ensures t.retry == t.failures % (n + 1) - 1
  {
    DivideTimes(t.dropped, n + 1, t.retry + 1);
  }

  // ---------------------------------------------------------------------
  // A batch as a function

  /** Answers for a batch and the durable's state after it. */
  function Batch(t: Track, batch: seq<Outcome>, n: nat): (Track, seq<Answer>)
    decreases |batch|
  {
    if batch == [] then (t, [])
    else
      var (t', done) := Handle(t, batch[0], n);
      if !done then (t', seq(|batch|, i => Nak))
      else
        var (t'', answers) := Batch(t', batch[1..], n);
        (t'', [Ack] + answers)
  }

  /** How many messages of a batch are handed to the handler: all acknowledged ones and the first given back. */
  function Acked(t: Track, batch: seq<Outcome>, n: nat): (k: nat)
    ensures k <= |batch|
    decreases |batch|
  {
    if batch == [] then 0
    else
      var (t', done) := Handle(t, batch[0], n);
      if !done then 0 else 1 + Acked(t', batch[1..], n)
  }

  /** Every message is answered once; the acknowledged ones form a prefix. */
  lemma {:induction false} AckedPrefix(t: Track, batch: seq<Outcome>, n: nat)
    ensures var answers := Batch(t, batch, n).1;
      var k := Acked(t, batch, n);
      && |answers| == |batch|
      && (forall i :: 0 <= i < |batch| ==> answers[i] == if i < k then Ack else Nak)
      && (forall i :: 0 <= i < k && batch[i] == Transient ==> Batch(t, batch, n).0.dropped > t.dropped)
      && (k < |batch| ==> batch[k] == Transient)
    ensures Batch(t, batch, n).0.dropped >= t.dropped
    decreases |batch|
  {
    if batch != [] {
      var (t', done) := Handle(t, batch[0], n);
      if done {
        AckedPrefix(t', batch[1..], n);
      }
    }
  }

  lemma {:induction false} BatchKeepsCount(t: Track, batch: seq<Outcome>, n: nat)
    requires Counted(t, n)
    ensures Counted(Batch(t, batch, n).0, n)
    ensures Acked(t, batch, n) < |batch| ==> 0 <= Batch(t, batch, n).0.retry < n
    decreases |batch|
  {
    if batch != [] {
      var (t', done) := Handle(t, batch[0], n);
      if done {
        BatchKeepsCount(t', batch[1..], n);
      }
    }
  }

  /** The outcomes of those handed to the handler: all acknowledged ones and the first given back. */
  function Handed(k: nat, batch: seq<Outcome>): seq<Outcome>
    requires k <= |batch|
  {
    batch[..if k < |batch| then k + 1 else k]
  }

  /**
   * Failures are the transient errors among the messages handed to the handler, drops
   * those among the messages acknowledged; nothing else touches the counter.
   */
  lemma {:induction false} BatchCounts(t: Track, batch: seq<Outcome>, n: nat)
    ensures var t', k := Batch(t, batch, n).0, Acked(t, batch, n);
      && t'.failures == t.failures + Transients(Handed(k, batch))
      && t'.dropped == t.dropped + Transients(batch[..k])
      && (Transients(Handed(k, batch)) == 0 ==> t'.retry == t.retry)
    decreases |batch|
  {
    if batch != [] {
      var (t', done) := Handle(t, batch[0], n);
      if done {
        BatchCounts(t', batch[1..], n);
        var k := Acked(t', batch[1..], n);
        assert Handed(k + 1, batch)[1..] == Handed(k, batch[1..]);
        assert batch[..k + 1][1..] == batch[1..][..k];
      } else {
        assert batch[..1][1..] == [];
      }
    }
  }

  /**
   * Which messages are acknowledged, from the outcomes alone: those before the first
   * transient error that is not the last of its round of n + 1, counted over all since
   * the counter was last reset.
   */
  lemma {:induction false} AckedExactly(t: Track, batch: seq<Outcome>, n: nat, i: nat)
    requires Counted(t, n) && i < |batch| && i <= Acked(t, batch, n)
    ensures i < Acked(t, batch, n) <==>
      (batch[i] == Transient ==> (t.failures + Transients(batch[..i]) + 1) % (n + 1) == 0)
    decreases |batch|
  {
    var (t', done) := Handle(t, batch[0], n);
    if i == 0 {
      assert Transients(batch[..0]) == 0;
      HandleExactly(t, n);
    } else {
      AckedExactly(t', batch[1..], n, i - 1);
      assert batch[..i][1..] == batch[1..][..i - 1];
    }
  }

  lemma HandleCounted(t: Track, n: nat)
    requires Counted(t, n)
    ensures var (t', done) := Handle(t, Transient, n);
      Counted(t', n) && (done <==> t.retry + 1 >= n) && t'.retry == (if done then -1 else t.retry + 1)
  {
  }

  /** A transient error is given up on exactly when it completes a round of n + 1. */
  lemma HandleExactly(t: Track, n: nat)
    requires Counted(t, n)
    ensures Handle(t, Transient, n).1 <==> (t.failures + 1) % (n + 1) == 0
  {
    CountClosedForm(t, n);
    var (t', done) := Handle(t, Transient, n);
    CountClosedForm(t', n);
  }

  // ---------------------------------------------------------------------
  // The dispatcher

  class Dispatcher {
    /** The number of retry delays. */
    const delays: nat
    /** The last delivered stream sequence of each durable. */
    var duraSeqs: map<Durable, nat>
    /** The stored retry number of each durable. */
    var retries: map<Durable, nat>
    /** What has happened to each durable since its counter was last flushed or expired. */
    ghost var tracks: map<Durable, Track>

    constructor (delays: nat)
      ensures this.delays == delays && Valid()
      ensures duraSeqs == map[] && retries == map[] && tracks == map[]
    {
      this.delays := delays;
      duraSeqs := map[];
      retries := map[];
      tracks := map[];
    }

    ghost function TrackOf(d: Durable): Track
      reads this`tracks
    {
      if d in tracks then tracks[d] else Track(-1, 0, 0)
    }

    ghost predicate Valid()
      reads this
    {
      && (forall d :: d in tracks ==> Counted(tracks[d], delays))
      && (forall d :: d in retries ==> d in tracks && tracks[d].retry == retries[d])
      && (forall d :: d in tracks && d !in retries ==> tracks[d].retry == -1)
    }

    /** The stored retry after a transient error: the first is number 0, the next one more, until the delays are used up. */
    predicate Retried(before: map<Durable, nat>, after: map<Durable, nat>, d: Durable, done: bool) {
      var retry := if d in before then before[d] + 1 else 0;
      && (done <==> retry >= delays)
      && after == if done then before - {d} else before[d := retry]
    }

    /** Nothing about the other durables has changed. */
    twostate predicate OthersKept(d: Durable)
      reads this
    {
      && duraSeqs - {d} == old(duraSeqs) - {d}
      && retries - {d} == old(retries) - {d}
      && tracks - {d} == old(tracks) - {d}
    }

    method Flush()
      modifies this
      ensures Valid() && duraSeqs == map[] && retries == map[] && tracks == map[]
    {
      duraSeqs := map[];
      retries := map[];
      tracks := map[];
    }

    /** The cache's own clock may drop a stored counter at any time. */
    method Expire(d: Durable)
      requires Valid()
      modifies this
      ensures Valid() && d !in retries && TrackOf(d) == Track(-1, 0, 0)
      ensures OthersKept(d) && duraSeqs == old(duraSeqs)
    {
      retries := retries - {d};
      tracks := tracks - {d};
    }

    method ProcessMsg(d: Durable, msg: Message) returns (done: bool, delay: nat, lostOrder: bool)
      requires Valid()
      modifies this
      ensures Valid() && OthersKept(d)
      ensures (TrackOf(d), done) == Handle(old(TrackOf(d)), msg.outcome, delays)
      ensures !done ==> delay < delays && delay == TrackOf(d).retry
      ensures msg.outcome != Transient ==> done && retries == old(retries)
      ensures msg.outcome == Transient ==> Retried(old(retries), retries, d, done)
      ensures duraSeqs == if msg.outcome == Delivered then old(duraSeqs)[d := msg.seqNo] else old(duraSeqs)
      ensures lostOrder <==> msg.outcome != NoMetadata && d in old(duraSeqs) && old(duraSeqs)[d] >= msg.seqNo
    {
      done, delay, lostOrder := true, 0, false;
      if msg.outcome == NoMetadata {
        return;
      }
      var doneSeq := 0;
      if d in duraSeqs {
        doneSeq := duraSeqs[d];
        if doneSeq >= msg.seqNo {
          lostOrder := true;
        }
      }
      if msg.outcome == Delivered {
        duraSeqs := duraSeqs[d := msg.seqNo];
        return;
      }
      if msg.outcome == Permanent {
        return;
      }
      done, delay := CountTransient(d);
    }

    /** The transient branch: count it, or give the message up when the delays are used up. */
    method CountTransient(d: Durable) returns (done: bool, delay: nat)
      requires Valid()
      modifies this`retries, this`tracks
      ensures Valid() && retries - {d} == old(retries) - {d} && tracks - {d} == old(tracks) - {d}
      ensures (TrackOf(d), done) == Handle(old(TrackOf(d)), Transient, delays)
      ensures !done ==> delay < delays && delay == TrackOf(d).retry
      ensures Retried(old(retries), retries, d, done)
    {
      done, delay := true, 0;
      CountedOrNew(d);
      HandleCounted(TrackOf(d), delays);
      tracks := tracks[d := Handle(TrackOf(d), Transient, delays).0];
      var retry := 0;
      if d in retries {
        retry := retries[d] + 1;
      }
      if retry >= delays {
        retries := retries - {d};
        return;
      }
      retries := retries[d := retry];
      done, delay := false, retry;
    }

    lemma CountedOrNew(d: Durable)
      requires Valid()
      ensures Counted(TrackOf(d), delays)
    {
    }

    /** One round of the fetch loop; when not done, delay indexes the wait before the next one. */
    method FetchBatch(d: Durable, batch: seq<Message>) returns (answers: seq<Answer>, done: bool, delay: nat)
      requires Valid()
      modifies this
      ensures Valid() && OthersKept(d)
      ensures (TrackOf(d), answers) == Batch(old(TrackOf(d)), Outcomes(batch), delays)
      ensures done <==> Nak !in answers
      ensures !done ==> delay < delays && delay == TrackOf(d).retry
      ensures |answers| == |batch| && duraSeqs == Sequences(old(duraSeqs), d, batch, answers)
    {
      answers, done, delay := [], true, 0;
      assert batch[0..] == batch;
      assert [] + Batch(TrackOf(d), Outcomes(batch), delays).1 == Batch(TrackOf(d), Outcomes(batch), delays).1;
      for i := 0 to |batch|
        invariant Valid() && OthersKept(d) && |answers| == i
        invariant Batch(old(TrackOf(d)), Outcomes(batch), delays)
                  == Continue(answers, Rest(done, TrackOf(d), Outcomes(batch[i..]), delays))
        invariant done <==> Nak !in answers
        invariant !done ==> delay < delays && delay == TrackOf(d).retry
        invariant duraSeqs == Sequences(old(duraSeqs), d, batch[..i], answers)
      {
        ghost var before, soFar, t := done, answers, TrackOf(d);
        assert Outcomes(batch[i..])[0] == batch[i].outcome;
        assert Outcomes(batch[i..])[1..] == Outcomes(batch[i + 1..]);
        assert batch[..i + 1][..i] == batch[..i];
        if !done {
          answers := answers + [Nak];
        } else {
          var lostOrder;
          done, delay, lostOrder := ProcessMsg(d, batch[i]);
          answers := answers + [if done then Ack else Nak];
        }
        assert answers[..i] == soFar;
        RestStep(soFar, before, t, Outcomes(batch[i..]), delays);
      }
      assert batch[..|batch|] == batch;
      assert answers + [] == answers;
    }
  }

  function Outcomes(batch: seq<Message>): (r: seq<Outcome>)
    ensures |r| == |batch| && forall i :: 0 <= i < |batch| ==> r[i] == batch[i].outcome
  {
    seq(|batch|, i requires 0 <= i < |batch| => batch[i].outcome)
  }

  /** The rest of a batch: handled as usual, or given back once a message has failed. */
  function Rest(done: bool, t: Track, rest: seq<Outcome>, n: nat): (Track, seq<Answer>) {
    if done then Batch(t, rest, n) else (t, seq(|rest|, i => Nak))
  }

  function Continue(answers: seq<Answer>, b: (Track, seq<Answer>)): (Track, seq<Answer>) {
    (b.0, answers + b.1)
  }

  lemma RestStep(soFar: seq<Answer>, done: bool, t: Track, rest: seq<Outcome>, n: nat)
    requires rest != []
    ensures var (t', ok) := if done then Handle(t, rest[0], n) else (t, false);
      Continue(soFar, Rest(done, t, rest, n))
      == Continue(soFar + [if ok then Ack else Nak], Rest(ok, t', rest[1..], n))
  {
    var (t', ok) := if done then Handle(t, rest[0], n) else (t, false);
    if !ok {
      assert seq(|rest|, i => Nak) == [Nak] + seq(|rest| - 1, i => Nak);
      assert soFar + ([Nak] + seq(|rest| - 1, i => Nak)) == soFar + [Nak] + seq(|rest| - 1, i => Nak);
    } else {
      var more := Batch(t', rest[1..], n).1;
      assert soFar + ([Ack] + more) == soFar + [Ack] + more;
    }
  }

  /** The sequence cache after a batch: the last message delivered in it, if any. */
  function Sequences(m: map<Durable, nat>, d: Durable, batch: seq<Message>, answers: seq<Answer>): map<Durable, nat>
    requires |batch| == |answers|
  {
    if batch == [] then m
    else
      var last := |batch| - 1;
      var m' := Sequences(m, d, batch[..last], answers[..last]);
      if answers[last] == Ack && batch[last].outcome == Delivered then m'[d := batch[last].seqNo] else m'
  }

  // ---------------------------------------------------------------------
  // A durable reading a stream in order

  /**
   * The stream's messages are numbered from 0.  acked: those acknowledged;
   * attempts: handler calls so far; last: the last delivered number or -1;
   * lost: whether the dispatcher has ever noted a lost order.
   */
  datatype System = System(acked: set<nat>, track: Track, attempts: map<nat, nat>, last: int, lost: bool)

  const START := System({}, Track(-1, 0, 0), map[], -1, false)

  function AttemptsOf(s: System, j: nat): nat { if j in s.attempts then s.attempts[j] else 0 }

  /** The first k unacknowledged messages from number `from` on, of those available. */
  function Offer(acked: set<nat>, from: nat, available: nat, k: nat): seq<nat>
    decreases available - from
  {
    if k == 0 || from >= available then []
    else if from in acked then Offer(acked, from + 1, available, k)
    else [from] + Offer(acked, from + 1, available, k - 1)
  }

  /** One message handed to the handler; the flag says whether it is done with. */
  function HandleMessage(s: System, j: nat, o: Outcome, n: nat): (System, bool) {
    var (t, done) := Handle(s.track, o, n);
    (System(if done then s.acked + {j} else s.acked, t,
            if o == NoMetadata then s.attempts else s.attempts[j := AttemptsOf(s, j) + 1],
            if o == Delivered then j else s.last,
            s.lost || (o != NoMetadata && s.last >= j)), done)
  }

  /** Only a message whose metadata can be read reaches the handler; the one message is counted and may be acknowledged. */
  lemma HandlesOne(s: System, j: nat, o: Outcome, n: nat)
    ensures var (s', done) := HandleMessage(s, j, o, n);
      && (forall k: nat :: AttemptsOf(s', k) == AttemptsOf(s, k) + if k == j && o != NoMetadata then 1 else 0)
      && (forall k: nat :: k in s'.acked <==> k in s.acked || (k == j && done))
      && (o == Delivered || o == Permanent || o == NoMetadata ==> done)
      && s'.last == (if o == Delivered then j else s.last)
  {
  }

  function Serve(s: System, batch: seq<nat>, outcomes: seq<Outcome>, n: nat): System
    requires |batch| <= |outcomes|
    decreases |batch|
  {
    if batch == [] then s
    else
      var (s', done) := HandleMessage(s, batch[0], outcomes[0], n);
      if done then Serve(s', batch[1..], outcomes[1..], n) else s'
  }

  /** A serve acknowledges what the batch function acknowledges. */
  lemma {:induction false} ServeFollowsBatch(s: System, batch: seq<nat>, outcomes: seq<Outcome>, n: nat)
    requires |batch| <= |outcomes|
    ensures var b := Batch(s.track, outcomes[..|batch|], n);
      && |b.1| == |batch| && Serve(s, batch, outcomes, n).track == b.0
      && Serve(s, batch, outcomes, n).acked
         == s.acked + (set i | 0 <= i < |batch| && b.1[i] == Ack :: batch[i])
    decreases |batch|
  {
    AckedPrefix(s.track, outcomes[..|batch|], n);
    if batch != [] {
      var o := outcomes[..|batch|];
      assert o[0] == outcomes[0] && o[1..] == outcomes[1..][..|batch| - 1];
      var (s', done) := HandleMessage(s, batch[0], outcomes[0], n);
      var b := Batch(s.track, o, n);
      if done {
        ServeFollowsBatch(s', batch[1..], outcomes[1..], n);
        var rest := Batch(s'.track, o[1..], n);
        assert b.1 == [Ack] + rest.1;
        AckedOneMore(batch, b.1, rest.1);
      }
    }
  }

  lemma AckedOneMore(batch: seq<nat>, replies: seq<Answer>, rest: seq<Answer>)
    requires batch != [] && |replies| == |batch| && replies == [Ack] + rest
    ensures (set i | 0 <= i < |batch| && replies[i] == Ack :: batch[i])
            == {batch[0]} + (set i | 0 <= i < |batch[1..]| && rest[i] == Ack :: batch[1..][i])
  {
    var all := set i | 0 <= i < |batch| && replies[i] == Ack :: batch[i];
    var more := set i | 0 <= i < |batch[1..]| && rest[i] == Ack :: batch[1..][i];
    forall x
      ensures x in all <==> x == batch[0] || x in more
    {
      if x in more {
        var i :| 0 <= i < |batch[1..]| && rest[i] == Ack && batch[1..][i] == x;
        assert replies[i + 1] == Ack && batch[i + 1] == x;
      }
      if x in all && x != batch[0] {
        var i :| 0 <= i < |batch| && replies[i] == Ack && batch[i] == x;
        assert rest[i - 1] == Ack && batch[1..][i - 1] == x;
      }
      assert replies[0] == Ack;
    }
  }

  /** A fetch: how many messages the stream holds, how many are asked for, and what comes of each. */
  datatype Round = Round(available: nat, size: nat, outcomes: seq<Outcome>)

  ghost predicate RoundOk(r: Round) { r.size >= 1 && |r.outcomes| == r.size }

  lemma {:induction false} OfferShort(acked: set<nat>, from: nat, available: nat, k: nat)
    ensures |Offer(acked, from, available, k)| <= k
    decreases available - from
  {
    if k != 0 && from < available {
      if from in acked {
        OfferShort(acked, from + 1, available, k);
      } else {
        OfferShort(acked, from + 1, available, k - 1);
      }
    }
  }

  /** What happens to the durable: a fetch, the counter dropped by its cache's clock, or both caches flushed. */
  datatype Event = Fetch(round: Round) | Expire | Flush

  ghost predicate EventOk(e: Event) { e.Fetch? ==> RoundOk(e.round) }

  ghost predicate EventsOk(events: seq<Event>) { forall i :: 0 <= i < |events| ==> EventOk(events[i]) }

  function FetchRound(s: System, r: Round, n: nat): System
    requires |r.outcomes| == r.size
  {
    OfferShort(s.acked, 0, r.available, r.size);
    Serve(s, Offer(s.acked, 0, r.available, r.size), r.outcomes, n)
  }

  function Step(s: System, e: Event, n: nat): System
    requires e.Fetch? ==> |e.round.outcomes| == e.round.size
  {
    match e
    case Fetch(r) => FetchRound(s, r, n)
    case Expire => s.(track := Track(-1, 0, 0))
    case Flush => s.(track := Track(-1, 0, 0), last := -1)
  }

  function Run(s: System, events: seq<Event>, n: nat): System
    requires EventsOk(events)
    decreases |events|
  {
    if events == [] then s else assert EventOk(events[0]); Run(Step(s, events[0], n), events[1..], n)
  }

  /** How many messages a fetch has acknowledged. */
  function NewlyAcked(s: System, r: Round, n: nat): nat
    requires |r.outcomes| == r.size
  {
    |FetchRound(s, r, n).acked - s.acked|
  }

  /** How many messages a fetch hands to the handler: the acknowledged ones, and one more if more are offered. */
  function HandedTo(s: System, r: Round, n: nat): nat
    requires |r.outcomes| == r.size
  {
    var k := NewlyAcked(s, r, n);
    if k < |Offer(s.acked, 0, r.available, r.size)| then k + 1 else k
  }

  /** The transient errors of a run since the last reset, counted over the messages handed to the handler. */
  function Failures(s: System, events: seq<Event>, n: nat, before: nat): nat
    requires EventsOk(events)
    decreases |events|
  {
    if events == [] then before
    else
      assert EventOk(events[0]);
      Failures(Step(s, events[0], n), events[1..], n,
               match events[0]
               case Fetch(r) => before + Transients(First(r.outcomes, HandedTo(s, r, n)))
               case _ => 0)
  }

  /** And counted over the messages acknowledged. */
  function Drops(s: System, events: seq<Event>, n: nat, before: nat): nat
    requires EventsOk(events)
    decreases |events|
  {
    if events == [] then before
    else
      assert EventOk(events[0]);
      Drops(Step(s, events[0], n), events[1..], n,
            match events[0]
            case Fetch(r) => before + Transients(First(r.outcomes, NewlyAcked(s, r, n)))
            case _ => 0)
  }

  function First(outcomes: seq<Outcome>, k: nat): seq<Outcome> { if k <= |outcomes| then outcomes[..k] else outcomes }

  /** How often the counter is reset. */
  function Resets(events: seq<Event>): nat {
    if events == [] then 0 else Resets(events[1..]) + if events[0].Fetch? then 0 else 1
  }

  function Fetches(events: seq<Event>): nat {
    if events == [] then 0 else Fetches(events[1..]) + if events[0].Fetch? then 1 else 0
  }

  /** Exactly the messages below p are acknowledged; extra attempts are those that resets have forgotten. */
  ghost predicate Invariant(s: System, p: nat, n: nat, extra: nat) {
    && (forall j: nat :: j in s.acked <==> j < p)
    && Counted(s.track, n)
    && (forall j: nat :: AttemptsOf(s, j) <= extra + n + 1)
    && (forall j: nat :: j > p ==> AttemptsOf(s, j) == 0)
    && AttemptsOf(s, p) <= extra + s.track.retry + 1
    && s.last < p && !s.lost
  }

  /** What is offered starts at the first unacknowledged message and runs on without gaps. */
  lemma {:induction false} OfferIsInterval(acked: set<nat>, from: nat, p: nat, available: nat, k: nat, first: nat)
    requires forall j: nat :: j in acked <==> j < p
    requires first == if from < p then p else from
    ensures var b := Offer(acked, from, available, k);
      && (forall i :: 0 <= i < |b| ==> b[i] == first + i)
      && (b != [] ==> first + |b| <= available)
      && (k > 0 && first < available ==> b != [])
    decreases available - from
  {
    if k != 0 && from < available {
      if from in acked {
        OfferIsInterval(acked, from + 1, p, available, k, first);
      } else {
        OfferIsInterval(acked, from + 1, p, available, k - 1, first + 1);
        var rest := Offer(acked, from + 1, available, k - 1);
        assert Offer(acked, from, available, k) == [from] + rest;
      }
    }
  }

  /** How much work is left at most: unacknowledged messages first, then delays left for the next one. */
  function Measure(p: nat, retry: Counter, available: nat, n: nat): int {
    (if p <= available then Times(available - p, n + 1) else 0) + (n - 1 - retry)
  }

  /** One handled message moves the boundary by one or uses up a delay. */
  lemma HandleKeeps(s: System, p: nat, o: Outcome, n: nat, extra: nat, available: nat)
    requires Invariant(s, p, n, extra) && p < available
    ensures var (s', done) := HandleMessage(s, p, o, n);
      var p' := if done then p + 1 else p;
      Invariant(s', p', n, extra) && Measure(p', s'.track.retry, available, n) < Measure(p, s.track.retry, available, n)
  {
    var (s', done) := HandleMessage(s, p, o, n);
    assert forall j: nat :: j != p ==> AttemptsOf(s', j) == AttemptsOf(s, j);
  }

  ghost predicate From(batch: seq<nat>, p: nat) {
    forall i :: 0 <= i < |batch| ==> batch[i] == p + i
  }

  lemma FromNext(batch: seq<nat>, p: nat)
    requires batch != [] && From(batch, p)
    ensures batch[0] == p && From(batch[1..], p + 1)
  {
  }

  lemma {:induction false} ServeKeeps(s: System, p: nat, batch: seq<nat>, outcomes: seq<Outcome>, n: nat, extra: nat,
                                      available: nat)
    returns (p': nat)
    requires Invariant(s, p, n, extra) && |batch| <= |outcomes|
    requires From(batch, p) && (batch != [] ==> p + |batch| <= available)
    ensures var s' := Serve(s, batch, outcomes, n);
      && Invariant(s', p', n, extra) && p <= p' <= p + |batch|
      && (batch != [] ==> Measure(p', s'.track.retry, available, n) < Measure(p, s.track.retry, available, n))
    decreases |batch|
  {
    p' := p;
    if batch != [] {
      FromNext(batch, p);
      HandleKeeps(s, p, outcomes[0], n, extra, available);
      var (s', done) := HandleMessage(s, p, outcomes[0], n);
      if done {
        p' := ServeKeeps(s', p + 1, batch[1..], outcomes[1..], n, extra, available);
      }
    }
  }

  lemma FetchKeeps(s: System, p: nat, r: Round, n: nat, extra: nat) returns (p': nat)
    requires Invariant(s, p, n, extra) && RoundOk(r)
    ensures var s' := FetchRound(s, r, n);
      && Invariant(s', p', n, extra) && p <= p' && (p <= r.available ==> p' <= r.available)
      && (p < r.available ==>
          Measure(p', s'.track.retry, r.available, n) < Measure(p, s.track.retry, r.available, n))
  {
    var batch := Offer(s.acked, 0, r.available, r.size);
    OfferShort(s.acked, 0, r.available, r.size);
    OfferIsInterval(s.acked, 0, p, r.available, r.size, p);
    p' := ServeKeeps(s, p, batch, r.outcomes, n, extra, r.available);
  }

  /** A reset forgets at most n attempts, and gives as many delays back. */
  lemma ResetKeeps(s: System, p: nat, e: Event, n: nat, extra: nat, available: nat)
    requires Invariant(s, p, n, extra) && !e.Fetch?
    ensures var s' := Step(s, e, n);
      && Invariant(s', p, n, extra + n)
      && Measure(p, s'.track.retry, available, n) <= Measure(p, s.track.retry, available, n) + n
  {
    var s' := Step(s, e, n);
    assert forall j: nat :: AttemptsOf(s', j) == AttemptsOf(s, j);
  }

  lemma {:induction false} RunKeeps(s: System, p: nat, events: seq<Event>, n: nat, extra: nat) returns (p': nat)
    requires Invariant(s, p, n, extra) && EventsOk(events)
    ensures Invariant(Run(s, events, n), p', n, extra + Times(Resets(events), n)) && p <= p'
    decreases |events|
  {
    p' := p;
    if events != [] {
      var e := events[0];
      assert EventOk(e);
      var s' := Step(s, e, n);
      if e.Fetch? {
        p' := FetchKeeps(s, p, e.round, n, extra);
        p' := RunKeeps(s', p', events[1..], n, extra);
      } else {
        ResetKeeps(s, p, e, n, extra, p);
        p' := RunKeeps(s', p, events[1..], n, extra + n);
      }
    }
  }

  /**
   * In every run, with expiries and flushes anywhere, the acknowledged messages are a
   * prefix of the stream and the order is never lost; with k expiries and flushes no
   * message is attempted more than (k + 1) * n + 1 times.
   */
  lemma PrefixInEveryRun(events: seq<Event>, n: nat) returns (p: nat)
    requires EventsOk(events)
    ensures var s := Run(START, events, n);
      && (forall j: nat :: j in s.acked <==> j < p)
      && (forall j: nat :: AttemptsOf(s, j) <= (Resets(events) + 1) * n + 1)
      && !s.lost
      && s.track.dropped == s.track.failures / (n + 1)
      && s.track.retry == s.track.failures % (n + 1) - 1
  {
    p := RunKeeps(START, 0, events, n, 0);
    TimesIsProduct(Resets(events), n);
    CountClosedForm(Run(START, events, n).track, n);
  }

  lemma {:induction false} ServeCounts(s: System, p: nat, batch: seq<nat>, outcomes: seq<Outcome>, n: nat)
    requires |batch| <= |outcomes| && From(batch, p) && forall j: nat :: j in s.acked <==> j < p
    ensures var s', o := Serve(s, batch, outcomes, n), outcomes[..|batch|];
      var k := Acked(s.track, o, n);
      && s'.track == Batch(s.track, o, n).0
      && (forall j: nat :: j in s'.acked <==> j < p + k)
    decreases |batch|
  {
    var o := outcomes[..|batch|];
    if batch != [] {
      FromNext(batch, p);
      assert o[0] == outcomes[0] && o[1..] == outcomes[1..][..|batch| - 1];
      var (s', done) := HandleMessage(s, batch[0], outcomes[0], n);
      if done {
        ServeCounts(s', p + 1, batch[1..], outcomes[1..], n);
      }
    }
  }

  /** What a fetch does to the counter, from the outcomes. */
  lemma FetchCounts(s: System, p: nat, r: Round, n: nat, extra: nat)
    requires Invariant(s, p, n, extra) && RoundOk(r)
    ensures var t' := FetchRound(s, r, n).track;
      && t'.failures == s.track.failures + Transients(First(r.outcomes, HandedTo(s, r, n)))
      && t'.dropped == s.track.dropped + Transients(First(r.outcomes, NewlyAcked(s, r, n)))
  {
    var batch := Offer(s.acked, 0, r.available, r.size);
    OfferShort(s.acked, 0, r.available, r.size);
    OfferIsInterval(s.acked, 0, p, r.available, r.size, p);
    var o := r.outcomes[..|batch|];
    ServeCounts(s, p, batch, r.outcomes, n);
    var k := Acked(s.track, o, n);
    Between(s.acked, FetchRound(s, r, n).acked, p, p + k);
    BatchCounts(s.track, o, n);
    assert o[..k] == r.outcomes[..k];
    assert Handed(k, o) == First(r.outcomes, HandedTo(s, r, n));
  }

  lemma {:induction false} Between(a: set<nat>, b: set<nat>, p: nat, q: nat)
    requires p <= q && (forall j: nat :: j in a <==> j < p) && (forall j: nat :: j in b <==> j < q)
    ensures |b - a| == q - p
    decreases q - p
  {
    if p < q {
      var c := b - {q - 1};
      Between(a, c, p, q - 1);
      assert b - a == (c - a) + {q - 1};
    } else {
      assert b - a == {};
    }
  }

  /** In every run the counter counts what the outcomes say. */
  lemma {:induction false} RunCounts(s: System, p: nat, events: seq<Event>, n: nat, extra: nat)
    requires Invariant(s, p, n, extra) && EventsOk(events)
    ensures Run(s, events, n).track.failures == Failures(s, events, n, s.track.failures)
    ensures Run(s, events, n).track.dropped == Drops(s, events, n, s.track.dropped)
    decreases |events|
  {
    if events != [] {
      var e := events[0];
      assert EventOk(e);
      if e.Fetch? {
        var p' := FetchKeeps(s, p, e.round, n, extra);
        RunCounts(Step(s, e, n), p', events[1..], n, extra);
        FetchCounts(s, p, e.round, n, extra);
        FailuresNext(s, events, n, s.track.failures);
        DropsNext(s, events, n, s.track.dropped);
      } else {
        ResetKeeps(s, p, e, n, extra, p);
        RunCounts(Step(s, e, n), p, events[1..], n, extra + n);
      }
    }
  }

  lemma FailuresNext(s: System, events: seq<Event>, n: nat, before: nat)
    requires EventsOk(events) && events != [] && events[0].Fetch? && EventOk(events[0])
    ensures var r := events[0].round;
      Failures(s, events, n, before)
      == Failures(FetchRound(s, r, n), events[1..], n, before + Transients(First(r.outcomes, HandedTo(s, r, n))))
  {
  }

  lemma DropsNext(s: System, events: seq<Event>, n: nat, before: nat)
    requires EventsOk(events) && events != [] && events[0].Fetch? && EventOk(events[0])
    ensures var r := events[0].round;
      Drops(s, events, n, before)
      == Drops(FetchRound(s, r, n), events[1..], n, before + Transients(First(r.outcomes, NewlyAcked(s, r, n))))
  {
  }

  /**
   * In every run: after F transient errors among the messages handed to the handler
   * since the last reset, and D among those acknowledged, D is F / (n + 1) and the
   * stored retry is the remainder less one.
   */
  lemma CountsInEveryRun(events: seq<Event>, n: nat)
    requires EventsOk(events)
    ensures Drops(START, events, n, 0) == Failures(START, events, n, 0) / (n + 1)
    ensures Run(START, events, n).track.retry == Failures(START, events, n, 0) % (n + 1) - 1
  {
    RunCounts(START, 0, events, n, 0);
    var p := PrefixInEveryRun(events, n);
  }

  /** Every fetch finds a stream of this length. */
  ghost predicate Reads(events: seq<Event>, length: nat) {
    EventsOk(events) && forall i :: 0 <= i < |events| && events[i].Fetch? ==> events[i].round.available == length
  }

  lemma {:induction false} Drains(s: System, p: nat, events: seq<Event>, n: nat, extra: nat, length: nat)
    requires Invariant(s, p, n, extra) && p <= length && Reads(events, length)
    requires Fetches(events) >= Measure(p, s.track.retry, length, n) + Times(Resets(events), n)
    ensures forall j: nat :: j in Run(s, events, n).acked <==> j < length
    decreases |events|
  {
    if p == length {
      StaysDrained(s, p, events, n, extra);
    } else {
      MeasurePositive(s, p, n, extra, length);
      var e, rest := events[0], events[1..];
      assert EventOk(e);
      var s' := Step(s, e, n);
      if e.Fetch? {
        var p' := FetchKeeps(s, p, e.round, n, extra);
        Drains(s', p', rest, n, extra, length);
      } else {
        ResetKeeps(s, p, e, n, extra, length);
        Drains(s', p, rest, n, extra + n, length);
      }
    }
  }

  lemma MeasurePositive(s: System, p: nat, n: nat, extra: nat, length: nat)
    requires Invariant(s, p, n, extra) && p < length
    ensures Measure(p, s.track.retry, length, n) > 0
  {
  }

  lemma {:induction false} StaysDrained(s: System, p: nat, events: seq<Event>, n: nat, extra: nat)
    requires Invariant(s, p, n, extra) && Reads(events, p)
    ensures Run(s, events, n).acked == s.acked
    decreases |events|
  {
    if events != [] {
      var e := events[0];
      assert EventOk(e);
      if e.Fetch? {
        OfferIsInterval(s.acked, 0, p, p, e.round.size, p);
        StaysDrained(s, p, events[1..], n, extra);
      } else {
        ResetKeeps(s, p, e, n, extra, p);
        StaysDrained(Step(s, e, n), p, events[1..], n, extra + n);
      }
    }
  }

  /**
   * A finite stream drains, with expiries and flushes anywhere: when there are k of
   * them, length * (n + 1) + n + k * n fetches at the latest acknowledge everything.
   */
  lemma StreamDrains(events: seq<Event>, n: nat, length: nat)
    requires Reads(events, length)
    requires Fetches(events) >= length * (n + 1) + n + Resets(events) * n
    ensures forall j: nat :: j in Run(START, events, n).acked <==> j < length
  {
    TimesIsProduct(length, n + 1);
    TimesIsProduct(Resets(events), n);
    Drains(START, 0, events, n, 0, length);
  }
}
