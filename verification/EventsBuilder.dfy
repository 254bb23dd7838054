/** Batching of event payloads (batcher/events/events.go). */
module EventsBuilder {
  import opened Wrappers
  import opened Arith
  import Seqs

  datatype Event = Event(host: string, text: string)

  /** A buffered payload: its length in bytes and what its JSON decodes to, if it does. */
  datatype Payload = Payload(len: nat, body: Option<seq<Event>>)

  function EventsOf(p: Payload): seq<Event> { if p.body.Some? then p.body.value else [] }

  function Flatten(qq: seq<seq<Event>>): seq<Event> {
    if qq == [] then [] else qq[0] + Flatten(qq[1..])
  }

  function Decoded(buf: seq<Payload>): seq<Event> {
    if buf == [] then [] else Decoded(buf[..|buf| - 1]) + EventsOf(buf[|buf| - 1])
  }

  function Bytes(buf: seq<Payload>): nat {
    if buf == [] then 0 else Bytes(buf[..|buf| - 1]) + buf[|buf| - 1].len
  }

  lemma {:induction false} FlattenAppend(a: seq<seq<Event>>, b: seq<seq<Event>>)
    ensures Flatten(a + b) == Flatten(a) + Flatten(b)
  {
    if a == [] {
      assert a + b == b;
    } else {
      assert (a + b)[1..] == a[1..] + b;
      FlattenAppend(a[1..], b);
    }
  }

  // ---------------------------------------------------------------------
  // Splitting an oversized payload

  /** The parts as consecutive pieces of lim events, the last one possibly shorter. */
  function Parts(events: seq<Event>, lim: nat): seq<seq<Event>>
    requires lim > 0
    decreases |events|
  {
    if events == [] then []
    else if |events| <= lim then [events]
    else [events[..lim]] + Parts(events[lim..], lim)
  }

  lemma {:induction false} PartsPartition(events: seq<Event>, lim: nat)
    requires lim > 0
    ensures Flatten(Parts(events, lim)) == events
    ensures forall i :: 0 <= i < |Parts(events, lim)| ==> 1 <= |Parts(events, lim)[i]| <= lim
    decreases |events|
  {
    if events != [] {
      if |events| <= lim {
      } else {
        PartsPartition(events[lim..], lim);
        var rest := Parts(events[lim..], lim);
        assert ([events[..lim]] + rest)[1..] == rest;
        assert events == events[..lim] + events[lim..];
      }
    }
  }

  /** Every part before the last is full. */
  lemma {:induction false} PartsFull(events: seq<Event>, lim: nat)
    requires lim > 0
    ensures forall i :: 0 <= i < |Parts(events, lim)| - 1 ==> |Parts(events, lim)[i]| == lim
    decreases |events|
  {
    if |events| > lim {
      PartsFull(events[lim..], lim);
    }
  }

  lemma {:induction false} PartsCount(events: seq<Event>, lim: nat, k: nat)
    requires lim > 0 && |events| <= Times(k, lim)
    ensures |Parts(events, lim)| <= k
    decreases |events|
  {
    if events != [] && |events| > lim {
      PartsCount(events[lim..], lim, k - 1);
    }
  }

  /**
   * The parts of an oversized payload hold its events in order, the bound of them in
   * each but the last, which may hold fewer, and there are at most len / maxBytes + 1.
   */
  lemma SplitPartitions(events: seq<Event>, len: nat, maxBytes: nat)
    requires maxBytes > 0
    ensures var lim := |events| / (len / maxBytes + 1) + 1;
      var parts := Parts(events, PartLimit(|events|, len, maxBytes));
      && Flatten(parts) == events
      && (forall i :: 0 <= i < |parts| ==> 1 <= |parts[i]| <= lim)
      && (forall i :: 0 <= i < |parts| - 1 ==> |parts[i]| == lim)
      && |parts| <= len / maxBytes + 1
  {
    var k := len / maxBytes + 1;
    var lim := PartLimit(|events|, len, maxBytes);
    PartsPartition(events, lim);
    PartsFull(events, lim);
    FewParts(events, k);
  }

  lemma FewParts(events: seq<Event>, k: nat)
    requires k > 0
    ensures |Parts(events, |events| / k + 1)| <= k
  {
    PieceTotalExceeds(|events|, k);
    PartsCount(events, |events| / k + 1, k);
  }

  /** The parts of what is left from event i on. */
  function PartsFrom(events: seq<Event>, lim: nat, i: nat): seq<seq<Event>>
    requires lim > 0
  {
    if i < |events| then Parts(events[i..], lim) else []
  }

  lemma {:induction false} PartsTail(events: seq<Event>, lim: nat, i: nat)
    requires lim > 0 && i < |events|
    ensures PartsFrom(events, lim, i)
            == [events[i..if i + lim > |events| then |events| else i + lim]] + PartsFrom(events, lim, i + lim)
  {
    var tail := events[i..];
    if |tail| > lim {
      assert tail[..lim] == events[i..i + lim];
      assert tail[lim..] == events[i + lim..];
    } else {
      assert tail == events[i..|events|];
    }
  }

  method SplitOversized(qq: seq<seq<Event>>, p: Payload, maxBytes: nat) returns (r: seq<seq<Event>>)
    requires maxBytes > 0
    ensures r == qq + (if p.body.None? then []
                       else Parts(p.body.value, PartLimit(|p.body.value|, p.len, maxBytes)))
  {
    r := qq;
    if p.body.None? {
      return;
    }
    var events := p.body.value;
    var cnt := |events|;
    var lim := PartLimit(cnt, p.len, maxBytes);
    var i1, i2 := 0, lim;
    while i1 < cnt
      invariant i2 == i1 + lim
      invariant qq + Parts(events, lim) == r + PartsFrom(events, lim, i1)
      decreases cnt - i1
    {
      PartsTail(events, lim, i1);
      var end := if i2 > |events| then |events| else i2;
      Seqs.Assoc(r, [events[i1..end]], PartsFrom(events, lim, i1 + lim));
      r := r + [events[i1..end]];
      i1, i2 := i1 + lim, i2 + lim;
    }
  }

  // ---------------------------------------------------------------------
  // Building the batch

  /** The parts an oversized payload is cut into. */
  function Cuts(p: Payload, maxBytes: nat): seq<seq<Event>>
    requires maxBytes > 0 && p.body.Some?
  {
    Parts(p.body.value, PartLimit(|p.body.value|, p.len, maxBytes))
  }

  /** Where an output comes from: the payloads merged, or the oversized payload and which of its parts. */
  datatype Origin = Merge(inputs: seq<Payload>) | Part(input: Payload, cut: nat)

  /**
   * The loop's state: the byte counter, the pending merge and the payloads it holds,
   * and the outputs so far with their origins.
   */
  datatype Building = Building(c: nat, bq: seq<Event>, held: seq<Payload>, qq: seq<seq<Event>>, origins: seq<Origin>)

  const START := Building(0, [], [], [], [])

  function Take(b: Building, p: Payload, maxBytes: nat): Building
    requires maxBytes > 0
  {
    if p.body.None? then b
    else if p.len > maxBytes then
      b.(qq := b.qq + Cuts(p, maxBytes), origins := b.origins + PartsOf(p, |Cuts(p, maxBytes)|))
    else
      var bq, c, held := b.bq + p.body.value, b.c + p.len, b.held + [p];
      if c >= maxBytes then Building(0, [], [], b.qq + [bq], b.origins + [Merge(held)])
      else b.(c := c, bq := bq, held := held)
  }

  function PartsOf(p: Payload, n: nat): seq<Origin> {
    seq(n, i requires 0 <= i < n => Part(p, i))
  }

  function TakeAll(buf: seq<Payload>, maxBytes: nat): Building
    requires maxBytes > 0
  {
    if buf == [] then START else Take(TakeAll(buf[..|buf| - 1], maxBytes), buf[|buf| - 1], maxBytes)
  }

  /** The last merge is put out unless it is empty. */
  function Finish(b: Building): Building {
    if b.bq != [] then Building(0, [], [], b.qq + [b.bq], b.origins + [Merge(b.held)]) else b
  }

  function Merges(origins: seq<Origin>): nat {
    if origins == [] then 0
    else Merges(origins[..|origins| - 1]) + if origins[|origins| - 1].Merge? then 1 else 0
  }

  lemma {:induction false} MergesAppendParts(origins: seq<Origin>, p: Payload, k: nat)
    ensures Merges(origins + PartsOf(p, k)) == Merges(origins)
  {
    var s := origins + PartsOf(p, k);
    if k == 0 {
      assert s == origins;
    } else {
      assert s[..|s| - 1] == origins + PartsOf(p, k - 1);
      MergesAppendParts(origins, p, k - 1);
    }
  }

  // ---------------------------------------------------------------------
  // Every event comes out as often as it went in

  /** What the loop keeps; seen is the part of the buffer already taken. */
  ghost predicate Keeps(b: Building, seen: seq<Payload>, maxBytes: nat) {
    && b.c < maxBytes
    && multiset(Flatten(b.qq) + b.bq) == multiset(Decoded(seen))
    && Times(Merges(b.origins), maxBytes) + b.c <= Bytes(seen)
  }

  lemma TakeKeeps(b: Building, seen: seq<Payload>, p: Payload, maxBytes: nat)
    requires maxBytes > 0 && Keeps(b, seen, maxBytes)
    ensures Keeps(Take(b, p, maxBytes), seen + [p], maxBytes)
  {
    assert (seen + [p])[..|seen|] == seen;
    if p.body.Some? {
      if p.len > maxBytes {
        TakeOversized(b, p.body.value, p.len, maxBytes);
      } else {
        TakeFitting(b, p.body.value, p.len, maxBytes);
      }
    }
  }

  /** The parts of an oversized payload go straight to the outputs. */
  lemma TakeOversized(b: Building, events: seq<Event>, len: nat, maxBytes: nat)
    requires maxBytes > 0 && len > maxBytes
    ensures var b' := Take(b, Payload(len, Some(events)), maxBytes);
      && Flatten(b'.qq) == Flatten(b.qq) + events && b'.bq == b.bq
      && Merges(b'.origins) == Merges(b.origins) && b'.c == b.c
  {
    var p := Payload(len, Some(events));
    SplitPartitions(events, len, maxBytes);
    FlattenAppend(b.qq, Cuts(p, maxBytes));
    MergesAppendParts(b.origins, p, |Cuts(p, maxBytes)|);
  }

  /** A payload within the limit joins the pending merge, which may then be put out. */
  lemma TakeFitting(b: Building, events: seq<Event>, len: nat, maxBytes: nat)
    requires maxBytes > 0
    requires len <= maxBytes && b.c < maxBytes
    ensures var b' := Take(b, Payload(len, Some(events)), maxBytes);
      && Flatten(b'.qq) + b'.bq == Flatten(b.qq) + b.bq + events
      && b'.c < maxBytes
      && Times(Merges(b'.origins), maxBytes) + b'.c <= Times(Merges(b.origins), maxBytes) + b.c + len
  {
    var merged := b.bq + events;
    FlattenAppend(b.qq, [merged]);
    Seqs.Assoc(Flatten(b.qq), b.bq, events);
    Seqs.Nothing(Flatten(b.qq) + merged);
    Seqs.Nothing(merged);
  }

  lemma {:induction false} TakeAllKeeps(buf: seq<Payload>, maxBytes: nat)
    requires maxBytes > 0
    ensures Keeps(TakeAll(buf, maxBytes), buf, maxBytes)
  {
    if buf == [] {
      assert Flatten([]) + [] == [];
    } else {
      var init := buf[..|buf| - 1];
      TakeAllKeeps(init, maxBytes);
      TakeKeeps(TakeAll(init, maxBytes), init, buf[|buf| - 1], maxBytes);
      assert init + [buf[|buf| - 1]] == buf;
    }
  }

  lemma FinishFlattens(b: Building)
    ensures Flatten(Finish(b).qq) == Flatten(b.qq) + b.bq
  {
    FlattenAppend(b.qq, [b.bq]);
    Seqs.Nothing(b.bq);
    Seqs.Nothing(Flatten(b.qq));
  }

  /**
   * Every decodable event comes out exactly as often as it went in, and there are
   * at most total / maxBytes + 1 merges.
   */
  lemma BuildConserves(buf: seq<Payload>, maxBytes: nat)
    requires maxBytes > 0
    ensures var b := Finish(TakeAll(buf, maxBytes));
      && multiset(Flatten(b.qq)) == multiset(Decoded(buf))
      && Merges(b.origins) <= Bytes(buf) / maxBytes + 1
  {
    TakeAllKeeps(buf, maxBytes);
    var b := TakeAll(buf, maxBytes);
    DivideBound(Merges(b.origins), maxBytes, Bytes(buf));
    FinishFlattens(b);
  }

  lemma DivideBound(m: nat, d: nat, x: nat)
    requires d > 0 && Times(m, d) <= x
    ensures m <= x / d
  {
    var q := x / d;
    TimesIsProduct(q, d);
    if q < m {
      TimesGrows(q, m, d);
    }
  }

  // ---------------------------------------------------------------------
  // Where every output comes from

  /** The payloads that are merged: those within the limit that decode. */
  function Fitting(buf: seq<Payload>, maxBytes: nat): seq<Payload> {
    if buf == [] then []
    else
      var p := buf[|buf| - 1];
      Fitting(buf[..|buf| - 1], maxBytes) + if p.len <= maxBytes && p.body.Some? then [p] else []
  }

  /** Every part of every oversized payload that decodes, in order. */
  function AllParts(buf: seq<Payload>, maxBytes: nat): seq<Origin>
    requires maxBytes > 0
  {
    if buf == [] then []
    else
      var p := buf[|buf| - 1];
      AllParts(buf[..|buf| - 1], maxBytes)
      + if p.len > maxBytes && p.body.Some? then PartsOf(p, |Cuts(p, maxBytes)|) else []
  }

  /** The payloads merged, over all merges in order. */
  function Merged(origins: seq<Origin>): seq<Payload> {
    if origins == [] then []
    else
      var o := origins[|origins| - 1];
      Merged(origins[..|origins| - 1]) + if o.Merge? then o.inputs else []
  }

  function PartsAmong(origins: seq<Origin>): seq<Origin> {
    if origins == [] then []
    else
      var o := origins[|origins| - 1];
      PartsAmong(origins[..|origins| - 1]) + if o.Part? then [o] else []
  }

  lemma {:induction false} PartsAppended(origins: seq<Origin>, p: Payload, k: nat)
    ensures Merged(origins + PartsOf(p, k)) == Merged(origins)
    ensures PartsAmong(origins + PartsOf(p, k)) == PartsAmong(origins) + PartsOf(p, k)
  {
    var s := origins + PartsOf(p, k);
    if k == 0 {
      assert s == origins;
    } else {
      PartsAppended(origins, p, k - 1);
      assert s[..|s| - 1] == origins + PartsOf(p, k - 1);
      assert PartsOf(p, k) == PartsOf(p, k - 1) + [Part(p, k - 1)];
      Seqs.Nothing(Merged(origins));
      Seqs.Assoc(PartsAmong(origins), PartsOf(p, k - 1), [Part(p, k - 1)]);
    }
  }

  lemma MergeAppended(origins: seq<Origin>, inputs: seq<Payload>)
    ensures Merged(origins + [Merge(inputs)]) == Merged(origins) + inputs
    ensures PartsAmong(origins + [Merge(inputs)]) == PartsAmong(origins)
  {
    var s := origins + [Merge(inputs)];
    assert s[..|s| - 1] == origins;
    Seqs.Nothing(PartsAmong(origins));
  }

  /** What an output holds, by its origin. */
  ghost predicate Explains(o: Origin, output: seq<Event>, maxBytes: nat)
    requires maxBytes > 0
  {
    match o
    case Merge(inputs) => output == Decoded(inputs) && Bytes(inputs) < 2 * maxBytes
    case Part(p, cut) => p.len > maxBytes && p.body.Some? && cut < |Cuts(p, maxBytes)| && output == Cuts(p, maxBytes)[cut]
  }

  ghost predicate AllExplained(b: Building, maxBytes: nat)
    requires maxBytes > 0
  {
    && |b.origins| == |b.qq|
    && forall i :: 0 <= i < |b.qq| ==> Explains(b.origins[i], b.qq[i], maxBytes)
  }

  ghost predicate Traced(b: Building, seen: seq<Payload>, maxBytes: nat)
    requires maxBytes > 0
  {
    && b.bq == Decoded(b.held) && b.c == Bytes(b.held) < maxBytes
    && Merged(b.origins) + b.held == Fitting(seen, maxBytes)
    && PartsAmong(b.origins) == AllParts(seen, maxBytes)
  }

  lemma TakeExplains(b: Building, p: Payload, maxBytes: nat)
    requires maxBytes > 0 && AllExplained(b, maxBytes)
    requires b.bq == Decoded(b.held) && b.c == Bytes(b.held) < maxBytes
    ensures AllExplained(Take(b, p, maxBytes), maxBytes)
  {
    assert (b.held + [p])[..|b.held|] == b.held;
  }

  lemma TakeTraces(b: Building, seen: seq<Payload>, p: Payload, maxBytes: nat)
    requires maxBytes > 0 && Traced(b, seen, maxBytes)
    ensures Traced(Take(b, p, maxBytes), seen + [p], maxBytes)
  {
    assert (seen + [p])[..|seen|] == seen;
    if p.body.None? {
      Seqs.Nothing(Fitting(seen, maxBytes));
      Seqs.Nothing(AllParts(seen, maxBytes));
    } else if p.len > maxBytes {
      PartsAppended(b.origins, p, |Cuts(p, maxBytes)|);
      Seqs.Nothing(Fitting(seen, maxBytes));
    } else {
      assert (b.held + [p])[..|b.held|] == b.held;
      MergeAppended(b.origins, b.held + [p]);
      Seqs.Assoc(Merged(b.origins), b.held, [p]);
      Seqs.Nothing(AllParts(seen, maxBytes));
      Seqs.Nothing(Fitting(seen, maxBytes) + [p]);
    }
  }

  lemma {:induction false} TakeAllTraced(buf: seq<Payload>, maxBytes: nat)
    requires maxBytes > 0
    ensures var b := TakeAll(buf, maxBytes); Traced(b, buf, maxBytes) && AllExplained(b, maxBytes)
  {
    if buf != [] {
      var init, p := buf[..|buf| - 1], buf[|buf| - 1];
      TakeAllTraced(init, maxBytes);
      TakeExplains(TakeAll(init, maxBytes), p, maxBytes);
      TakeTraces(TakeAll(init, maxBytes), init, p, maxBytes);
      assert init + [p] == buf;
    }
  }

  /**
   * Every merge is the events of its inputs, which hold fewer than 2 * maxBytes
   * bytes, and every part is the named part of an oversized payload.  The inputs
   * of the merges are the payloads within the limit that decode, each once and in
   * order, up to a last merge that is dropped because it holds no event; the
   * parts are all those of the oversized payloads, each once and in order.
   */
  lemma EveryOutputTraced(buf: seq<Payload>, maxBytes: nat)
    requires maxBytes > 0
    ensures var b := Finish(TakeAll(buf, maxBytes));
      && AllExplained(b, maxBytes)
      && PartsAmong(b.origins) == AllParts(buf, maxBytes)
      && Merged(b.origins) + b.held == Fitting(buf, maxBytes)
      && Decoded(b.held) == []
  {
    TakeAllTraced(buf, maxBytes);
    var b := TakeAll(buf, maxBytes);
    if b.bq != [] {
      MergeAppended(b.origins, b.held);
      Seqs.Nothing(Fitting(buf, maxBytes));
    }
  }

  /** A merge is put out with the payload that brings it to the limit, and not before. */
  predicate Filled(o: Origin, maxBytes: nat) {
    o.Merge? ==>
      o.inputs != [] && Bytes(o.inputs[..|o.inputs| - 1]) < maxBytes && maxBytes <= Bytes(o.inputs)
  }

  ghost predicate AllFilled(origins: seq<Origin>, maxBytes: nat) {
    forall i :: 0 <= i < |origins| ==> Filled(origins[i], maxBytes)
  }

  lemma TakeFills(b: Building, p: Payload, maxBytes: nat)
    requires maxBytes > 0 && AllFilled(b.origins, maxBytes) && b.c == Bytes(b.held) < maxBytes
    ensures AllFilled(Take(b, p, maxBytes).origins, maxBytes)
  {
    assert (b.held + [p])[..|b.held|] == b.held;
  }

  lemma {:induction false} TakeAllFills(buf: seq<Payload>, maxBytes: nat)
    requires maxBytes > 0
    ensures AllFilled(TakeAll(buf, maxBytes).origins, maxBytes)
  {
    if buf != [] {
      TakeAllFills(buf[..|buf| - 1], maxBytes);
      TakeAllTraced(buf[..|buf| - 1], maxBytes);
      TakeFills(TakeAll(buf[..|buf| - 1], maxBytes), buf[|buf| - 1], maxBytes);
    }
  }

  /**
   * Every merge is as short as reaching the limit allows, but for one put out at the
   * end: that one is below the limit and holds an event.
   */
  lemma MergesFill(buf: seq<Payload>, maxBytes: nat)
    requires maxBytes > 0
    ensures var origins := Finish(TakeAll(buf, maxBytes)).origins;
      forall i :: 0 <= i < |origins| ==>
        || Filled(origins[i], maxBytes)
        || (i == |origins| - 1 && Bytes(origins[i].inputs) < maxBytes && Decoded(origins[i].inputs) != [])
  {
    TakeAllFills(buf, maxBytes);
    TakeAllTraced(buf, maxBytes);
  }

  // ---------------------------------------------------------------------
  // When the events keep their order

  /** The bytes of the merge that is pending after buf, and whether it holds an event. */
  function Pending(buf: seq<Payload>, maxBytes: nat): (nat, bool) {
    if buf == [] then (0, false)
    else
      var (c, holds) := Pending(buf[..|buf| - 1], maxBytes);
      var p := buf[|buf| - 1];
      if p.len > maxBytes || p.body.None? then (c, holds)
      else if c + p.len >= maxBytes then (0, false)
      else (c + p.len, holds || p.body.value != [])
  }

  lemma {:induction false} PendingIs(buf: seq<Payload>, maxBytes: nat)
    requires maxBytes > 0
    ensures var b := TakeAll(buf, maxBytes); Pending(buf, maxBytes) == (b.c, b.bq != [])
  {
    if buf != [] {
      PendingIs(buf[..|buf| - 1], maxBytes);
    }
  }

  /** No oversized payload that holds an event comes while a merge with an event is pending. */
  ghost predicate NoneOvertakes(buf: seq<Payload>, maxBytes: nat) {
    forall i :: 0 <= i < |buf| && buf[i].len > maxBytes && EventsOf(buf[i]) != [] ==> !Pending(buf[..i], maxBytes).1
  }

  ghost predicate NoneOversized(buf: seq<Payload>, maxBytes: nat) {
    forall i :: 0 <= i < |buf| ==> buf[i].len <= maxBytes
  }

  ghost predicate Distinct(events: seq<Event>) {
    forall i, j :: 0 <= i < j < |events| ==> events[i] != events[j]
  }

  lemma {:induction false} TakeAllInOrder(buf: seq<Payload>, maxBytes: nat)
    requires maxBytes > 0 && NoneOvertakes(buf, maxBytes)
    ensures var b := TakeAll(buf, maxBytes); Flatten(b.qq) + b.bq == Decoded(buf)
  {
    if buf == [] {
      assert Flatten([]) + [] == [];
    } else {
      var init, p := buf[..|buf| - 1], buf[|buf| - 1];
      FewerOvertake(buf, maxBytes);
      TakeAllInOrder(init, maxBytes);
      PendingIs(init, maxBytes);
      TakeInOrder(TakeAll(init, maxBytes), p, maxBytes);
    }
  }

  lemma FewerOvertake(buf: seq<Payload>, maxBytes: nat)
    requires buf != [] && NoneOvertakes(buf, maxBytes)
    ensures NoneOvertakes(buf[..|buf| - 1], maxBytes)
  {
    var init := buf[..|buf| - 1];
    forall i | 0 <= i < |init| && init[i].len > maxBytes && EventsOf(init[i]) != []
      ensures !Pending(init[..i], maxBytes).1
    {
      assert init[..i] == buf[..i] && buf[i] == init[i];
    }
  }

  lemma TakeInOrder(b: Building, p: Payload, maxBytes: nat)
    requires maxBytes > 0 && (p.len > maxBytes && EventsOf(p) != [] ==> b.bq == [])
    ensures var b' := Take(b, p, maxBytes); Flatten(b'.qq) + b'.bq == Flatten(b.qq) + b.bq + EventsOf(p)
  {
    var events := EventsOf(p);
    if p.body.None? {
      Seqs.Nothing(Flatten(b.qq) + b.bq);
    } else if p.len > maxBytes {
      TakeOversized(b, events, p.len, maxBytes);
      Seqs.Nothing(Flatten(b.qq));
      Seqs.Nothing(Flatten(b.qq) + events);
      Seqs.Nothing(Flatten(b.qq) + b.bq);
    } else {
      FlattenAppend(b.qq, [b.bq + events]);
      Seqs.Nothing(b.bq + events);
      Seqs.Assoc(Flatten(b.qq), b.bq, events);
      Seqs.Nothing(Flatten(b.qq) + (b.bq + events));
    }
  }

  /** The outputs so far stay the beginning of what comes out. */
  lemma {:induction false} OutputsStay(buf: seq<Payload>, k: nat, maxBytes: nat)
    requires maxBytes > 0 && k <= |buf|
    ensures Flatten(TakeAll(buf[..k], maxBytes).qq) <= Flatten(Finish(TakeAll(buf, maxBytes)).qq)
    decreases |buf|
  {
    FinishFlattens(TakeAll(buf, maxBytes));
    if k == |buf| {
      assert buf[..k] == buf;
    } else {
      OutputsGrow(buf[..|buf| - 1], k, maxBytes);
      var init, p := buf[..|buf| - 1], buf[|buf| - 1];
      assert init[..k] == buf[..k];
      TakeGrows(TakeAll(init, maxBytes), p, maxBytes);
    }
  }

  lemma {:induction false} OutputsGrow(buf: seq<Payload>, k: nat, maxBytes: nat)
    requires maxBytes > 0 && k <= |buf|
    ensures Flatten(TakeAll(buf[..k], maxBytes).qq) <= Flatten(TakeAll(buf, maxBytes).qq)
    decreases |buf|
  {
    if k == |buf| {
      assert buf[..k] == buf;
    } else {
      var init := buf[..|buf| - 1];
      OutputsGrow(init, k, maxBytes);
      assert init[..k] == buf[..k];
      TakeGrows(TakeAll(init, maxBytes), buf[|buf| - 1], maxBytes);
    }
  }

  lemma TakeGrows(b: Building, p: Payload, maxBytes: nat)
    requires maxBytes > 0
    ensures Flatten(b.qq) <= Flatten(Take(b, p, maxBytes).qq)
  {
    if p.body.Some? {
      if p.len > maxBytes {
        FlattenAppend(b.qq, Cuts(p, maxBytes));
      } else {
        FlattenAppend(b.qq, [b.bq + p.body.value]);
      }
    }
  }

  lemma {:induction false} DecodedGrows(buf: seq<Payload>, k: nat)
    requires k <= |buf|
    ensures Decoded(buf[..k]) <= Decoded(buf)
    decreases |buf|
  {
    if k == |buf| {
      assert buf[..k] == buf;
    } else {
      var init := buf[..|buf| - 1];
      DecodedGrows(init, k);
      assert init[..k] == buf[..k];
    }
  }

  /** An event of an oversized payload that overtakes a pending one comes out too early. */
  lemma OvertakenOutOfOrder(buf: seq<Payload>, i: nat, maxBytes: nat)
    requires maxBytes > 0 && Distinct(Decoded(buf))
    requires i < |buf| && buf[i].len > maxBytes && EventsOf(buf[i]) != [] && Pending(buf[..i], maxBytes).1
    ensures Flatten(Finish(TakeAll(buf, maxBytes)).qq) != Decoded(buf)
  {
    var b, events := TakeAll(buf[..i], maxBytes), EventsOf(buf[i]);
    PendingIs(buf[..i], maxBytes);
    TakeAllKeeps(buf[..i], maxBytes);
    assert buf[..i + 1][..i] == buf[..i];
    TakeOversized(b, events, buf[i].len, maxBytes);
    OutputsStay(buf, i + 1, maxBytes);
    DecodedGrows(buf, i + 1);
    TooEarly(Flatten(b.qq), b.bq, events, Decoded(buf[..i]), Flatten(Finish(TakeAll(buf, maxBytes)).qq), Decoded(buf));
  }

  lemma TooEarly(sent: seq<Event>, bq: seq<Event>, events: seq<Event>, before: seq<Event>, out: seq<Event>, all: seq<Event>)
    requires multiset(sent + bq) == multiset(before) && bq != [] && events != []
    requires sent + events <= out && before + events <= all && Distinct(all)
    ensures out != all
  {
    assert |sent + bq| == |multiset(before)| == |before|;
    assert out[|sent|] == events[0] == all[|before|];
  }

  /** The guard is enough for every buffer. */
  lemma BuildInOrder(buf: seq<Payload>, maxBytes: nat)
    requires maxBytes > 0 && NoneOvertakes(buf, maxBytes)
    ensures Flatten(Finish(TakeAll(buf, maxBytes)).qq) == Decoded(buf)
  {
    TakeAllInOrder(buf, maxBytes);
    FinishFlattens(TakeAll(buf, maxBytes));
  }

  lemma FittingInOrder(buf: seq<Payload>, maxBytes: nat)
    requires maxBytes > 0 && NoneOversized(buf, maxBytes)
    ensures Flatten(Finish(TakeAll(buf, maxBytes)).qq) == Decoded(buf)
  {
    BuildInOrder(buf, maxBytes);
  }

  /** With distinct events it is exact: the order is kept if and only if no oversized payload overtakes. */
  lemma InOrderIff(buf: seq<Payload>, maxBytes: nat)
    requires maxBytes > 0 && Distinct(Decoded(buf))
    ensures Flatten(Finish(TakeAll(buf, maxBytes)).qq) == Decoded(buf) <==> NoneOvertakes(buf, maxBytes)
  {
    if NoneOvertakes(buf, maxBytes) {
      BuildInOrder(buf, maxBytes);
    } else {
      var i: nat :| i < |buf| && buf[i].len > maxBytes && EventsOf(buf[i]) != [] && Pending(buf[..i], maxBytes).1;
      OvertakenOutOfOrder(buf, i, maxBytes);
    }
  }

  /** In particular, any payload below the limit that is followed by an oversized one is overtaken by it. */
  lemma OversizedOvertakes(small: seq<Event>, a: nat, large: seq<Event>, b: nat, maxBytes: nat)
    requires a < maxBytes < b && small != [] && large != []
    ensures var buf := [Payload(a, Some(small)), Payload(b, Some(large))];
      && Flatten(Finish(TakeAll(buf, maxBytes)).qq) == large + small
      && Decoded(buf) == small + large
  {
    var p, q := Payload(a, Some(small)), Payload(b, Some(large));
    FirstPending(p, maxBytes);
    assert [p, q][..1] == [p];
    TakeOversized(TakeAll([p], maxBytes), large, b, maxBytes);
    FinishFlattens(TakeAll([p, q], maxBytes));
    Seqs.Nothing(large);
  }

  lemma FirstPending(p: Payload, maxBytes: nat)
    requires p.len < maxBytes && p.body.Some?
    ensures TakeAll([p], maxBytes) == Building(p.len, p.body.value, [p], [], [])
    ensures Decoded([p]) == p.body.value
  {
    FirstTaken(p, maxBytes);
    var bq := [] + p.body.value;
    var held := [] + [p];
    assert bq == p.body.value && held == [p];
  }

  lemma FirstTaken(p: Payload, maxBytes: nat)
    requires maxBytes > 0
    ensures TakeAll([p], maxBytes) == Take(START, p, maxBytes)
    ensures Decoded([p]) == [] + EventsOf(p)
  {
    var init := [p][..|[p]| - 1];
    assert init == [];
    assert TakeAll(init, maxBytes) == START && Decoded(init) == [];
  }

  method Build(buf: seq<Payload>, maxBytes: nat) returns (out: seq<seq<Event>>)
    requires maxBytes > 0
    ensures out == Finish(TakeAll(buf, maxBytes)).qq
    ensures multiset(Flatten(out)) == multiset(Decoded(buf))
    ensures NoneOvertakes(buf, maxBytes) ==> Flatten(out) == Decoded(buf)
    ensures Distinct(Decoded(buf)) && Flatten(out) == Decoded(buf) ==> NoneOvertakes(buf, maxBytes)
  {
    var c := 0;
    var bq: seq<Event>, qq: seq<seq<Event>> := [], [];
    for i := 0 to |buf|
      invariant var b := TakeAll(buf[..i], maxBytes); c == b.c && bq == b.bq && qq == b.qq
    {
      var p := buf[i];
      assert buf[..i + 1][..i] == buf[..i];
      if p.len > maxBytes {
        qq := SplitOversized(qq, p, maxBytes);
        continue;
      }
      if p.body.None? {
        continue;
      }
      bq := bq + p.body.value;
      c := c + p.len;
      if c >= maxBytes {
        qq := qq + [bq];
        c, bq := 0, [];
      }
    }
    assert buf[..|buf|] == buf;
    if |bq| > 0 {
      qq := qq + [bq];
    }
    out := qq;
    BuildConserves(buf, maxBytes);
    if NoneOvertakes(buf, maxBytes) {
      BuildInOrder(buf, maxBytes);
    }
    if Distinct(Decoded(buf)) {
      InOrderIff(buf, maxBytes);
    }
  }
}
