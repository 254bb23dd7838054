/**
 * From the payloads added to the batcher to the requests handed on: the metric
 * builder applied to what each batch took (batcher/batcher.go, Batch, and
 * batcher/metrics/metrics.go, Build).
 */
module MetricPipeline {
  import opened Wrappers
  import Batcher
  import BatcherLaws
  import MetricsBatch
  import opened MetricsBuilder
  import Pipeline

  /** How a payload's JSON decodes. */
  type Decoder = string -> Option<Request>

  function Decode(buf: seq<string>, decode: Decoder): (r: seq<Payload>)
    ensures |r| == |buf|
    ensures forall i :: 0 <= i < |buf| ==> r[i] == Payload(|buf[i]|, decode(buf[i]))
  {
    seq(|buf|, i requires 0 <= i < |buf| => Payload(|buf[i]|, decode(buf[i])))
  }

  /** The services of payloads that decode. */
  function Services(buf: seq<string>, decode: Decoder): multiset<Service> {
    multiset(MetricsBatch.ServicesIn(Decode(buf, decode)))
  }

  ghost function ServicesAt(decode: Decoder): string -> multiset<Service> {
    (p: string) => multiset(MetricsBatch.ServicesOf(Payload(|p|, decode(p))))
  }

  lemma {:induction false} ServicesAreItems(buf: seq<string>, decode: Decoder)
    ensures Services(buf, decode) == Pipeline.Items(buf, ServicesAt(decode))
    decreases |buf|
  {
    if buf != [] {
      ServicesAreItems(buf[..|buf| - 1], decode);
      var all := Decode(buf, decode);
      assert all[..|buf| - 1] == Decode(buf[..|buf| - 1], decode);
    }
  }

  /** The services that building one segment hands on; limit is maxBytes at that moment. */
  ghost function HandedOn(seg: Batcher.Segment, decode: Decoder, limit: nat): multiset<Service>
    requires limit > 0
  {
    multiset(Sent(MetricsBatch.Finish(MetricsBatch.TakeAll(Decode(seg.payloads, decode), limit)).qq))
  }

  /** The services that its splits lose: those of a resource after its last cut. */
  function LostBySplits(seg: Batcher.Segment, decode: Decoder, limit: nat): multiset<Service>
    requires limit > 0
  {
    multiset(MetricsBatch.LostIn(Decode(seg.payloads, decode), limit))
  }

  /** All that was handed on, over the segments built, each with the limit it was built with. */
  ghost function AllHandedOn(removed: seq<Batcher.Segment>, built: seq<nat>, decode: Decoder, limits: nat -> nat): multiset<Service>
    requires forall k :: limits(k) > 0
    requires forall i :: 0 <= i < |built| ==> built[i] < |removed|
    decreases |built|
  {
    if built == [] then multiset{}
    else HandedOn(removed[built[0]], decode, limits(built[0])) + AllHandedOn(removed, built[1..], decode, limits)
  }

  function AllLost(removed: seq<Batcher.Segment>, built: seq<nat>, decode: Decoder, limits: nat -> nat): multiset<Service>
    requires forall k :: limits(k) > 0
    requires forall i :: 0 <= i < |built| ==> built[i] < |removed|
    decreases |built|
  {
    if built == [] then multiset{}
    else LostBySplits(removed[built[0]], decode, limits(built[0])) + AllLost(removed, built[1..], decode, limits)
  }

  lemma {:induction false} BuiltAreItems(removed: seq<Batcher.Segment>, built: seq<nat>, decode: Decoder, limits: nat -> nat)
    requires forall k :: limits(k) > 0
    requires forall i :: 0 <= i < |built| ==> built[i] < |removed|
    ensures AllHandedOn(removed, built, decode, limits) + AllLost(removed, built, decode, limits)
            == Pipeline.AllItems(removed, built, ServicesAt(decode))
    decreases |built|
  {
    if built != [] {
      var first := removed[built[0]];
      MetricsBatch.BuildAccounts(Decode(first.payloads, decode), limits(built[0]));
      ServicesAreItems(first.payloads, decode);
      BuiltAreItems(removed, built[1..], decode, limits);
      Regroup(HandedOn(first, decode, limits(built[0])), AllHandedOn(removed, built[1..], decode, limits),
              LostBySplits(first, decode, limits(built[0])), AllLost(removed, built[1..], decode, limits));
    }
  }

  lemma Regroup(a: multiset<Service>, b: multiset<Service>, c: multiset<Service>, d: multiset<Service>)
    ensures (a + b) + (c + d) == (a + c) + (b + d)
  {
  }

  /**
   * In every interleaving of adds, batches, clears, resets and ticks, once all
   * goroutines are idle: every service of every payload an add was begun with
   * was handed on exactly once, or lost by a split, or dropped by a clear, or is still buffered.
   */
  lemma EveryServiceOnce(maxBytes: nat, turns: seq<Batcher.Turn>, decode: Decoder, limits: nat -> nat)
    requires forall k :: limits(k) > 0
    ensures var s := Batcher.Run(Batcher.New(maxBytes), turns);
      && (forall i :: 0 <= i < |s.built| ==> s.built[i] < |s.removed|)
      && (Batcher.Quiet(s) ==>
           AllHandedOn(s.removed, s.built, decode, limits) + AllLost(s.removed, s.built, decode, limits)
           + Pipeline.Dropped(s.removed, ServicesAt(decode)) + Services(s.buf, decode)
           == Services(BatcherLaws.Begun(maxBytes, turns), decode))
  {
    Pipeline.EveryItemOnce(maxBytes, turns, ServicesAt(decode));
    var s := Batcher.Run(Batcher.New(maxBytes), turns);
    BuiltAreItems(s.removed, s.built, decode, limits);
    ServicesAreItems(s.buf, decode);
    ServicesAreItems(BatcherLaws.Begun(maxBytes, turns), decode);
  }

  /** Every resource of the segment's oversized payloads ends on a cut. */
  ghost predicate EndsOnCuts(seg: Batcher.Segment, decode: Decoder, limit: nat)
    requires limit > 0
  {
    MetricsBatch.AllEndOnCuts(Decode(seg.payloads, decode), limit)
  }

  ghost predicate AllEndOnCuts(removed: seq<Batcher.Segment>, built: seq<nat>, decode: Decoder, limits: nat -> nat)
    requires forall k :: limits(k) > 0
    requires forall i :: 0 <= i < |built| ==> built[i] < |removed|
  {
    forall i :: 0 <= i < |built| ==> EndsOnCuts(removed[built[i]], decode, limits(built[i]))
  }

  lemma FirstAndRest(removed: seq<Batcher.Segment>, built: seq<nat>, decode: Decoder, limits: nat -> nat)
    requires built != [] && forall k :: limits(k) > 0
    requires forall i :: 0 <= i < |built| ==> built[i] < |removed|
    ensures AllEndOnCuts(removed, built, decode, limits)
            <==> EndsOnCuts(removed[built[0]], decode, limits(built[0])) && AllEndOnCuts(removed, built[1..], decode, limits)
  {
    assert forall i :: 1 <= i < |built| ==> built[i] == built[1..][i - 1];
    assert forall i :: 0 <= i < |built[1..]| ==> built[1..][i] == built[i + 1];
  }

  /** Nothing is lost that way if and only if every resource of every oversized payload of the segments built ends on a cut. */
  lemma {:induction false} NothingLostOnCuts(removed: seq<Batcher.Segment>, built: seq<nat>, decode: Decoder, limits: nat -> nat)
    requires forall k :: limits(k) > 0
    requires forall i :: 0 <= i < |built| ==> built[i] < |removed|
    ensures AllLost(removed, built, decode, limits) == multiset{} <==> AllEndOnCuts(removed, built, decode, limits)
    decreases |built|
  {
    if built != [] {
      var rest := built[1..];
      FirstLost(removed[built[0]], decode, limits(built[0]), AllLost(removed, rest, decode, limits));
      NothingLostOnCuts(removed, rest, decode, limits);
      FirstAndRest(removed, built, decode, limits);
    }
  }

  lemma FirstLost(seg: Batcher.Segment, decode: Decoder, limit: nat, more: multiset<Service>)
    requires limit > 0
    ensures LostBySplits(seg, decode, limit) + more == multiset{} <==> EndsOnCuts(seg, decode, limit) && more == multiset{}
  {
    MetricsBatch.LostNoneIff(Decode(seg.payloads, decode), limit);
    NothingIn(MetricsBatch.LostIn(Decode(seg.payloads, decode), limit), more);
  }

  lemma NothingIn(lost: seq<Service>, more: multiset<Service>)
    ensures multiset(lost) + more == multiset{} <==> lost == [] && more == multiset{}
  {
    if lost != [] {
      assert lost[0] in multiset(lost) + more;
    } else if more != multiset{} {
      var x :| x in more;
      assert x in multiset(lost) + more;
    }
  }
}
