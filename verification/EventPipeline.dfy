/**
 * From the payloads added to the batcher to the requests handed on: the event
 * builder applied to what each batch took (batcher/batcher.go, Batch, and
 * batcher/events/events.go, Build).
 */
module EventPipeline {
  import opened Wrappers
  import Batcher
  import BatcherLaws
  import EventsBuilder
  import Pipeline

  type Event = EventsBuilder.Event

  /** How a payload's JSON decodes. */
  type Decoder = string -> Option<seq<Event>>

  function Decode(buf: seq<string>, decode: Decoder): (r: seq<EventsBuilder.Payload>)
    ensures |r| == |buf|
    ensures forall i :: 0 <= i < |buf| ==> r[i] == EventsBuilder.Payload(|buf[i]|, decode(buf[i]))
  {
    seq(|buf|, i requires 0 <= i < |buf| => EventsBuilder.Payload(|buf[i]|, decode(buf[i])))
  }

  /** The events of payloads that decode. */
  function Events(buf: seq<string>, decode: Decoder): multiset<Event> {
    multiset(EventsBuilder.Decoded(Decode(buf, decode)))
  }

  ghost function EventsIn(decode: Decoder): string -> multiset<Event> {
    (p: string) => multiset(EventsBuilder.EventsOf(EventsBuilder.Payload(|p|, decode(p))))
  }

  lemma {:induction false} EventsAreItems(buf: seq<string>, decode: Decoder)
    ensures Events(buf, decode) == Pipeline.Items(buf, EventsIn(decode))
    decreases |buf|
  {
    if buf != [] {
      EventsAreItems(buf[..|buf| - 1], decode);
      var all := Decode(buf, decode);
      assert all[..|buf| - 1] == Decode(buf[..|buf| - 1], decode);
    }
  }

  /** The events that building one segment hands on; limit is maxBytes at that moment. */
  function HandedOn(seg: Batcher.Segment, decode: Decoder, limit: nat): multiset<Event>
    requires limit > 0
  {
    multiset(EventsBuilder.Flatten(EventsBuilder.Finish(EventsBuilder.TakeAll(Decode(seg.payloads, decode), limit)).qq))
  }

  /** All that was handed on, over the segments built, each with the limit it was built with. */
  function AllHandedOn(removed: seq<Batcher.Segment>, built: seq<nat>, decode: Decoder, limits: nat -> nat): multiset<Event>
    requires forall k :: limits(k) > 0
    requires forall i :: 0 <= i < |built| ==> built[i] < |removed|
    decreases |built|
  {
    if built == [] then multiset{}
    else HandedOn(removed[built[0]], decode, limits(built[0])) + AllHandedOn(removed, built[1..], decode, limits)
  }

  /** Building a segment hands on exactly its events. */
  lemma HandedOnIsEvents(seg: Batcher.Segment, decode: Decoder, limit: nat)
    requires limit > 0
    ensures HandedOn(seg, decode, limit) == Events(seg.payloads, decode)
  {
    EventsBuilder.BuildConserves(Decode(seg.payloads, decode), limit);
  }

  lemma {:induction false} AllHandedOnAreItems(removed: seq<Batcher.Segment>, built: seq<nat>, decode: Decoder, limits: nat -> nat)
    requires forall k :: limits(k) > 0
    requires forall i :: 0 <= i < |built| ==> built[i] < |removed|
    ensures AllHandedOn(removed, built, decode, limits) == Pipeline.AllItems(removed, built, EventsIn(decode))
    decreases |built|
  {
    if built != [] {
      HandedOnIsEvents(removed[built[0]], decode, limits(built[0]));
      EventsAreItems(removed[built[0]].payloads, decode);
      AllHandedOnAreItems(removed, built[1..], decode, limits);
    }
  }

  /**
   * In every interleaving of adds, batches, clears, resets and ticks, once all
   * goroutines are idle: every event of every payload an add was begun with
   * was handed on exactly once, or dropped by a clear, or is still buffered.
   */
  lemma EveryEventOnce(maxBytes: nat, turns: seq<Batcher.Turn>, decode: Decoder, limits: nat -> nat)
    requires forall k :: limits(k) > 0
    ensures var s := Batcher.Run(Batcher.New(maxBytes), turns);
      && (forall i :: 0 <= i < |s.built| ==> s.built[i] < |s.removed|)
      && (Batcher.Quiet(s) ==>
           AllHandedOn(s.removed, s.built, decode, limits) + Pipeline.Dropped(s.removed, EventsIn(decode)) + Events(s.buf, decode)
           == Events(BatcherLaws.Begun(maxBytes, turns), decode))
  {
    Pipeline.EveryItemOnce(maxBytes, turns, EventsIn(decode));
    var s := Batcher.Run(Batcher.New(maxBytes), turns);
    AllHandedOnAreItems(s.removed, s.built, decode, limits);
    EventsAreItems(s.buf, decode);
    EventsAreItems(BatcherLaws.Begun(maxBytes, turns), decode);
  }
}
