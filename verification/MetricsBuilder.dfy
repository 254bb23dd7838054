/** Batching of metric payloads (batcher/metrics/metrics.go). */
module MetricsBuilder {
  import opened Wrappers
  import opened Arith
  import TraceToken

  datatype Status = HostUnchanged | HostStatus(name: string)

  datatype Service = Service(name: string, output: string)

  datatype Resource = Resource(name: string, status: Status, services: seq<Service>)

  datatype Ref = Ref(kind: string, name: string, owner: string)

  datatype Group = Group(kind: string, groupName: string, resources: seq<Ref>)

  datatype Context = Context(agentID: string, appType: string, traceToken: string, version: string, timeStamp: Option<int>) {
    /** Takes over the values that are not empty. */
    function SetContext(c: Context): Context {
      Context(if c.agentID != "" then c.agentID else agentID,
              if c.appType != "" then c.appType else appType,
              if c.traceToken != "" then c.traceToken else traceToken,
              if c.version != "" then c.version else version,
              if c.timeStamp.Some? then c.timeStamp else timeStamp)
    }
  }

  const NO_CONTEXT := Context("", "", "", "", None)

  datatype Request = Request(context: Context, resources: seq<Resource>, groups: seq<Group>)

  const EMPTY := Request(NO_CONTEXT, [], [])

  /** A buffered payload: its length in bytes and what its JSON decodes to, if it does. */
  datatype Payload = Payload(len: nat, body: Option<Request>)

  function AllServices(resources: seq<Resource>): seq<Service> {
    if resources == [] then [] else resources[0].services + AllServices(resources[1..])
  }

  function Concat(pieces: seq<seq<Service>>): seq<Service> {
    if pieces == [] then [] else pieces[0] + Concat(pieces[1..])
  }

  lemma {:induction false} ConcatAppend(a: seq<seq<Service>>, b: seq<seq<Service>>)
    ensures Concat(a + b) == Concat(a) + Concat(b)
  {
    if a == [] {
      assert a + b == b;
    } else {
      assert (a + b)[1..] == a[1..] + b;
      ConcatAppend(a[1..], b);
    }
  }

  // ---------------------------------------------------------------------
  // Cutting one resource's services

  /** The groups of services put out while going through s: held since the last cut, counting on from c. */
  function Cuts(held: seq<Service>, s: seq<Service>, c: nat, lim: nat): seq<seq<Service>>
    decreases |s|
  {
    if s == [] then []
    else if c + 1 < lim then Cuts(held + [s[0]], s[1..], c + 1, lim)
    else [held + [s[0]]] + Cuts([], s[1..], 0, lim)
  }

  /** The counter afterwards. */
  function CountAfter(s: seq<Service>, c: nat, lim: nat): nat
    decreases |s|
  {
    if s == [] then c else CountAfter(s[1..], if c + 1 < lim then c + 1 else 0, lim)
  }

  /** What is held at the resource's end: never put out. */
  function Leftover(held: seq<Service>, s: seq<Service>, c: nat, lim: nat): seq<Service>
    decreases |s|
  {
    if s == [] then held
    else if c + 1 < lim then Leftover(held + [s[0]], s[1..], c + 1, lim)
    else Leftover([], s[1..], 0, lim)
  }

  /** What is put out and what is left make up the services, in order. */
  lemma {:induction false} CutsPartition(held: seq<Service>, s: seq<Service>, c: nat, lim: nat)
    ensures Concat(Cuts(held, s, c, lim)) + Leftover(held, s, c, lim) == held + s
    decreases |s|
  {
    if s == [] {
      assert [] + held == held + [];
    } else if c + 1 < lim {
      CutsPartition(held + [s[0]], s[1..], c + 1, lim);
      assert held + [s[0]] + s[1..] == held + s;
    } else {
      CutsPartition([], s[1..], 0, lim);
      var first, more := held + [s[0]], Cuts([], s[1..], 0, lim);
      assert ([first] + more)[1..] == more;
      assert first + (Concat(more) + Leftover([], s[1..], 0, lim)) == held + s;
    }
  }

  /** One cut every lim services. */
  lemma {:induction false} CutsCount(held: seq<Service>, s: seq<Service>, c: nat, lim: nat)
    requires c < lim
    ensures Times(|Cuts(held, s, c, lim)|, lim) + CountAfter(s, c, lim) == c + |s|
    ensures CountAfter(s, c, lim) < lim
    decreases |s|
  {
    if s != [] {
      if c + 1 < lim {
        CutsCount(held + [s[0]], s[1..], c + 1, lim);
      } else {
        CutsCount([], s[1..], 0, lim);
      }
    }
  }

  /** Cut k ends lim - c + k * lim services in, and starts at the previous cut or with what was held. */
  lemma {:induction false} CutAt(held: seq<Service>, s: seq<Service>, c: nat, lim: nat, k: nat)
    requires |held| <= c < lim && k < |Cuts(held, s, c, lim)|
    ensures var end := Times(k + 1, lim) - c + |held|;
      && (k == 0 || end >= lim) && end <= |held| + |s|
      && Cuts(held, s, c, lim)[k] == (held + s)[if k == 0 then 0 else end - lim..end]
    decreases |s|
  {
    if c + 1 < lim {
      CutAt(held + [s[0]], s[1..], c + 1, lim, k);
      assert held + [s[0]] + s[1..] == held + s;
    } else {
      if k > 0 {
        CutAt([], s[1..], 0, lim, k - 1);
        var end := Times(k, lim);
        assert Times(k + 1, lim) == end + lim;
        SliceLater(held, s, if k - 1 == 0 then 0 else end - lim, end);
      } else {
        assert Times(1, lim) == lim by { assert Times(0, lim) == 0; }
        assert (held + s)[0..|held| + 1] == held + [s[0]];
      }
    }
  }

  /** A piece of what follows the first service, as a piece of the whole. */
  lemma SliceLater(held: seq<Service>, s: seq<Service>, from: nat, to: nat)
    requires s != [] && from <= to <= |s| - 1
    ensures ([] + s[1..])[from..to] == (held + s)[|held| + 1 + from..|held| + 1 + to]
  {
  }

  /** Nothing is left exactly when the counter ends at zero or there was nothing at all. */
  lemma {:induction false} LeftoverEmptyIff(held: seq<Service>, s: seq<Service>, c: nat, lim: nat)
    requires c < lim && (c == 0 ==> held == [])
    ensures Leftover(held, s, c, lim) == [] <==> (CountAfter(s, c, lim) == 0 || (held == [] && s == []))
    decreases |s|
  {
    if s != [] {
      if c + 1 < lim {
        LeftoverEmptyIff(held + [s[0]], s[1..], c + 1, lim);
      } else {
        LeftoverEmptyIff([], s[1..], 0, lim);
      }
    }
  }

  // ---------------------------------------------------------------------
  // Splitting a request

  /** One resource's cuts, each in a request of its own with the original's groups and context. */
  function Wrap(q: Request, res: Resource, cuts: seq<seq<Service>>): (r: seq<Request>)
    ensures |r| == |cuts|
    ensures forall i :: 0 <= i < |cuts| ==>
      r[i] == Request(NO_CONTEXT.SetContext(q.context), [res.(services := cuts[i])], q.groups)
  {
    seq(|cuts|, i requires 0 <= i < |cuts| =>
      Request(NO_CONTEXT.SetContext(q.context), [res.(services := cuts[i])], q.groups))
  }

  /** The requests put out for the resources, the counter running on across them. */
  function SplitAll(q: Request, resources: seq<Resource>, c: nat, lim: nat): seq<Request> {
    if resources == [] then []
    else Wrap(q, resources[0], Cuts([], resources[0].services, c, lim))
         + SplitAll(q, resources[1..], CountAfter(resources[0].services, c, lim), lim)
  }

  /** The services of the requests put out. */
  function Sent(out: seq<Request>): seq<Service> {
    if out == [] then [] else AllServices(out[0].resources) + Sent(out[1..])
  }

  lemma {:induction false} SentAppend(a: seq<Request>, b: seq<Request>)
    ensures Sent(a + b) == Sent(a) + Sent(b)
  {
    if a == [] {
      assert a + b == b;
    } else {
      assert (a + b)[1..] == a[1..] + b;
      SentAppend(a[1..], b);
    }
  }

  lemma {:induction false} SentWrap(q: Request, res: Resource, cuts: seq<seq<Service>>)
    ensures Sent(Wrap(q, res, cuts)) == Concat(cuts)
  {
    if cuts != [] {
      SentWrap(q, res, cuts[1..]);
      var r := res.(services := cuts[0]);
      assert Wrap(q, res, cuts)[1..] == Wrap(q, res, cuts[1..]);
      assert [r][1..] == [] && AllServices([]) == [];
      assert AllServices([r]) == cuts[0];
    }
  }

  /** The number of services never put out. */
  function LostCount(resources: seq<Resource>, c: nat, lim: nat): nat {
    if resources == [] then 0
    else |Leftover([], resources[0].services, c, lim)|
         + LostCount(resources[1..], CountAfter(resources[0].services, c, lim), lim)
  }

  /** The number of requests: one for every lim services, counting on from c. */
  lemma {:induction false} SplitCount(q: Request, resources: seq<Resource>, c: nat, lim: nat)
    requires c < lim
    ensures var n := |SplitAll(q, resources, c, lim)|;
      Times(n, lim) <= |AllServices(resources)| + c < Times(n, lim) + lim
    decreases |resources|
  {
    if resources != [] {
      var s := resources[0].services;
      var cuts, c' := Cuts([], s, c, lim), CountAfter(s, c, lim);
      CutsCount([], s, c, lim);
      SplitCount(q, resources[1..], c', lim);
      TimesAdds(|cuts|, |SplitAll(q, resources[1..], c', lim)|, lim);
    }
  }

  /** What is put out and what is lost add up; if nothing is lost, everything is put out in order. */
  lemma {:induction false} SplitSends(q: Request, resources: seq<Resource>, c: nat, lim: nat)
    ensures |Sent(SplitAll(q, resources, c, lim))| + LostCount(resources, c, lim) == |AllServices(resources)|
    ensures LostCount(resources, c, lim) == 0 ==> Sent(SplitAll(q, resources, c, lim)) == AllServices(resources)
    decreases |resources|
  {
    if resources != [] {
      var s := resources[0].services;
      var c' := CountAfter(s, c, lim);
      CutsFromStart(s, c, lim);
      SplitSends(q, resources[1..], c', lim);
      SentAppend(Wrap(q, resources[0], Cuts([], s, c, lim)), SplitAll(q, resources[1..], c', lim));
      SentWrap(q, resources[0], Cuts([], s, c, lim));
    }
  }

  lemma CutsFromStart(s: seq<Service>, c: nat, lim: nat)
    ensures var sent, left := Concat(Cuts([], s, c, lim)), Leftover([], s, c, lim);
      sent + left == s && (|left| == 0 ==> sent == s)
  {
    CutsPartition([], s, c, lim);
    assert [] + s == s;
  }

  /** The services never put out, resource by resource. */
  function Lost(resources: seq<Resource>, c: nat, lim: nat): (r: seq<Service>)
    ensures |r| == LostCount(resources, c, lim)
  {
    if resources == [] then []
    else Leftover([], resources[0].services, c, lim)
         + Lost(resources[1..], CountAfter(resources[0].services, c, lim), lim)
  }

  /** Every service is put out or lost, exactly once. */
  lemma {:induction false} SplitConserves(q: Request, resources: seq<Resource>, c: nat, lim: nat)
    ensures multiset(Sent(SplitAll(q, resources, c, lim))) + multiset(Lost(resources, c, lim))
            == multiset(AllServices(resources))
    decreases |resources|
  {
    if resources != [] {
      var s := resources[0].services;
      var cuts, c' := Cuts([], s, c, lim), CountAfter(s, c, lim);
      CutsPartition([], s, c, lim);
      assert [] + s == s;
      SplitConserves(q, resources[1..], c', lim);
      SentAppend(Wrap(q, resources[0], cuts), SplitAll(q, resources[1..], c', lim));
      SentWrap(q, resources[0], cuts);
      assert multiset(s) == multiset(Concat(cuts)) + multiset(Leftover([], s, c, lim));
    }
  }

  /** The running total of services up to and including resource i. */
  function RunningTotal(resources: seq<Resource>, i: nat): nat
    requires i < |resources|
  {
    |resources[0].services| + if i == 0 then 0 else RunningTotal(resources[1..], i - 1)
  }

  /** Every resource that has services ends on a multiple of lim, counting on from c. */
  ghost predicate EndsOnCuts(resources: seq<Resource>, c: nat, lim: nat)
    requires lim > 0
  {
    forall i :: 0 <= i < |resources| && resources[i].services != [] ==> (c + RunningTotal(resources, i)) % lim == 0
  }

  /** The same with the remainder by repeated subtraction, for the induction. */
  ghost predicate OnCuts(resources: seq<Resource>, c: nat, lim: nat)
    requires lim > 0
  {
    forall i :: 0 <= i < |resources| && resources[i].services != [] ==> Remainder(c + RunningTotal(resources, i), lim) == 0
  }

  /** No service is lost exactly when every resource with services ends on a multiple of lim. */
  lemma NothingLostIff(resources: seq<Resource>, c: nat, lim: nat)
    requires c < lim
    ensures LostCount(resources, c, lim) == 0 <==> EndsOnCuts(resources, c, lim)
  {
    NothingLostOnCuts(resources, c, lim);
    forall i | 0 <= i < |resources|
      ensures Remainder(c + RunningTotal(resources, i), lim) == (c + RunningTotal(resources, i)) % lim
    {
      RemainderIsMod(c + RunningTotal(resources, i), lim);
    }
  }

  lemma {:induction false} NothingLostOnCuts(resources: seq<Resource>, c: nat, lim: nat)
    requires c < lim
    ensures LostCount(resources, c, lim) == 0 <==> OnCuts(resources, c, lim)
    decreases |resources|
  {
    if resources != [] {
      var s, rest := resources[0].services, resources[1..];
      var c' := CountAfter(s, c, lim);
      LeftoverEmptyIff([], s, c, lim);
      CutsCount([], s, c, lim);
      RemainderOfTimes(|Cuts([], s, c, lim)|, lim, c');
      NothingLostOnCuts(rest, c', lim);
      forall i | 0 <= i < |rest|
        ensures Remainder(c' + RunningTotal(rest, i), lim) == Remainder(c + RunningTotal(resources, i + 1), lim)
      {
        RemainderOfTimes(|Cuts([], s, c, lim)|, lim, c' + RunningTotal(rest, i));
      }
      OnCutsStep(resources, c, c', lim);
    }
  }

  lemma OnCutsStep(resources: seq<Resource>, c: nat, c': nat, lim: nat)
    requires resources != [] && lim > 0 && Remainder(c + |resources[0].services|, lim) == c'
    requires forall i :: 0 <= i < |resources[1..]| ==>
      Remainder(c' + RunningTotal(resources[1..], i), lim) == Remainder(c + RunningTotal(resources, i + 1), lim)
    ensures OnCuts(resources, c, lim)
            <==> (resources[0].services == [] || c' == 0) && OnCuts(resources[1..], c', lim)
  {
    var rest := resources[1..];
    if (resources[0].services == [] || c' == 0) && OnCuts(rest, c', lim) {
      forall i | 0 <= i < |resources| && resources[i].services != []
        ensures Remainder(c + RunningTotal(resources, i), lim) == 0
      {
        if i > 0 {
          assert rest[i - 1].services != [];
        }
      }
    }
    if OnCuts(resources, c, lim) {
      assert resources[0].services != [] ==> Remainder(c + RunningTotal(resources, 0), lim) == 0;
      forall i | 0 <= i < |rest| && rest[i].services != []
        ensures Remainder(c' + RunningTotal(rest, i), lim) == 0
      {
        assert resources[i + 1].services != [];
      }
    }
  }

  /**
   * Splitting an oversized payload of cnt services puts out exactly cnt / lim
   * requests, no more than len / maxBytes, and loses no service exactly when every
   * resource with services ends on a multiple of lim.
   */
  lemma SplitDescribed(q: Request, len: nat, maxBytes: nat)
    requires maxBytes > 0
    ensures var cnt := |AllServices(q.resources)|;
      var lim := cnt / (len / maxBytes + 1) + 1;
      var out := SplitAll(q, q.resources, 0, PartLimit(cnt, len, maxBytes));
      && |out| == cnt / lim && |out| < len / maxBytes + 1
      && (Sent(out) == AllServices(q.resources) <==> EndsOnCuts(q.resources, 0, lim))
  {
    var cnt := |AllServices(q.resources)|;
    var lim := PartLimit(cnt, len, maxBytes);
    SplitCount(q, q.resources, 0, lim);
    PartsOfPayload(cnt, len, maxBytes, |SplitAll(q, q.resources, 0, lim)|);
    AllSentIff(q, lim);
  }

  lemma PartsOfPayload(cnt: nat, len: nat, maxBytes: nat, n: nat)
    requires maxBytes > 0
    requires var lim := PartLimit(cnt, len, maxBytes); Times(n, lim) <= cnt < Times(n, lim) + lim
    ensures n == cnt / PartLimit(cnt, len, maxBytes) && n < len / maxBytes + 1
  {
    PartsOf(cnt, len / maxBytes + 1, n);
  }

  lemma AllSentIff(q: Request, lim: nat)
    requires lim > 0
    ensures Sent(SplitAll(q, q.resources, 0, lim)) == AllServices(q.resources) <==> EndsOnCuts(q.resources, 0, lim)
  {
    SplitSends(q, q.resources, 0, lim);
    NothingLostIff(q.resources, 0, lim);
  }

  lemma PartsOf(cnt: nat, k: nat, n: nat)
    requires k > 0 && Times(n, cnt / k + 1) <= cnt < Times(n, cnt / k + 1) + (cnt / k + 1)
    ensures n == cnt / (cnt / k + 1) && n < k
  {
    var lim := cnt / k + 1;
    DivideTimes(n, lim, cnt - Times(n, lim));
    PieceTotalExceeds(cnt, k);
    if n >= k {
      TimesMonotone(k, n, lim);
    }
  }

  /** The number of services before resource i. */
  function Offset(resources: seq<Resource>, i: nat): nat
    requires i <= |resources|
  {
    if i == 0 then 0 else |resources[0].services| + Offset(resources[1..], i - 1)
  }

  /** The request for a resource's services up to one of them, from a place or, if that is negative, from its start. */
  function Piece(q: Request, res: Resource, from: int, to: nat): Request
    requires from <= to <= |res.services|
  {
    Request(NO_CONTEXT.SetContext(q.context), [res.(services := res.services[(if from > 0 then from else 0)..to])], q.groups)
  }

  /**
   * Request k of a split holds the one resource in which service number
   * (k + 1) * lim - c falls, with that resource's services from the previous cut or
   * the resource's start up to that service.
   */
  lemma {:induction false} SplitAt(q: Request, resources: seq<Resource>, c: nat, lim: nat, k: nat) returns (i: nat)
    requires c < lim && k < |SplitAll(q, resources, c, lim)|
    ensures i < |resources| && Offset(resources, i) + |resources[i].services| == Offset(resources, i + 1)
    ensures var start, end := Offset(resources, i), Times(k + 1, lim) - c;
      && start < end <= start + |resources[i].services|
      && SplitAll(q, resources, c, lim)[k] == Piece(q, resources[i], end - lim - start, end - start)
    decreases |resources|
  {
    var cuts, c' := Cuts([], resources[0].services, c, lim), CountAfter(resources[0].services, c, lim);
    CutsCount([], resources[0].services, c, lim);
    if k < |cuts| {
      i := 0;
      SplitAtFirst(q, resources, c, lim, k);
    } else {
      LaterPart(q, resources, c, lim, k);
      var j := SplitAt(q, resources[1..], c', lim, k - |cuts|);
      i := j + 1;
      TimesAdds(|cuts|, k - |cuts| + 1, lim);
      assert Times(k + 1, lim) - c == |resources[0].services| + (Times(k - |cuts| + 1, lim) - c');
      OffsetNext(resources, j);
      OffsetNext(resources, j + 1);
      assert resources[i] == resources[1..][j];
    }
  }

  lemma LaterPart(q: Request, resources: seq<Resource>, c: nat, lim: nat, k: nat)
    requires k < |SplitAll(q, resources, c, lim)| && resources != []
    requires |Cuts([], resources[0].services, c, lim)| <= k
    ensures var n := |Cuts([], resources[0].services, c, lim)|;
      var rest := SplitAll(q, resources[1..], CountAfter(resources[0].services, c, lim), lim);
      k - n < |rest| && SplitAll(q, resources, c, lim)[k] == rest[k - n]
  {
  }

  lemma OffsetNext(resources: seq<Resource>, j: nat)
    requires j < |resources|
    ensures Offset(resources, j + 1) == |resources[0].services| + Offset(resources[1..], j)
  {
  }

  lemma SplitAtFirst(q: Request, resources: seq<Resource>, c: nat, lim: nat, k: nat)
    requires c < lim && resources != [] && k < |Cuts([], resources[0].services, c, lim)|
    ensures Offset(resources, 1) == |resources[0].services|
    ensures var s, end := resources[0].services, Times(k + 1, lim) - c;
      && 0 < end <= |s|
      && SplitAll(q, resources, c, lim)[k] == Piece(q, resources[0], end - lim, end)
  {
    var s := resources[0].services;
    CutAt([], s, c, lim, k);
    assert [] + s == s;
    assert Offset(resources[1..], 0) == 0;
    FirstCutEarly(k, c, lim);
    assert SplitAll(q, resources, c, lim)[k] == Wrap(q, resources[0], Cuts([], s, c, lim))[k];
  }

  lemma FirstCutEarly(k: nat, c: nat, lim: nat)
    requires c < lim
    ensures Times(k + 1, lim) - c > 0
    ensures k == 0 ==> Times(k + 1, lim) - c - lim <= 0
    ensures k > 0 ==> Times(k + 1, lim) - c - lim > 0
  {
    assert Times(k + 1, lim) == Times(k, lim) + lim;
    if k > 0 {
      assert Times(k, lim) == Times(k - 1, lim) + lim;
    }
  }

  // ---------------------------------------------------------------------
  // The loops

  /** Every entry so far gets its index written into its token. */
  function Retokened(qq: seq<Request>): (r: seq<Request>)
    ensures |r| == |qq|
    ensures forall i :: 0 <= i < |qq| ==>
      r[i] == qq[i].(context := qq[i].context.(traceToken := TraceToken.Rewrite(qq[i].context.traceToken, i)))
  {
    seq(|qq|, i requires 0 <= i < |qq| =>
      qq[i].(context := qq[i].context.(traceToken := TraceToken.Rewrite(qq[i].context.traceToken, i))))
  }

  /** After the rewriting, long tokens of different entries differ. */
  lemma RetokenedDistinct(qq: seq<Request>, i: nat, j: nat)
    requires i < j < |qq| && j < 10000
    requires |qq[i].context.traceToken| > 14 && |qq[j].context.traceToken| > 14
    ensures Retokened(qq)[i].context.traceToken != Retokened(qq)[j].context.traceToken
  {
    TraceToken.RewriteDistinct(qq[i].context.traceToken, qq[j].context.traceToken, i, j);
  }

  lemma WrapSplit(q: Request, res: Resource, cut: seq<Service>, more: seq<seq<Service>>)
    ensures Wrap(q, res, [cut] + more) == Wrap(q, res, [cut]) + Wrap(q, res, more)
  {
    assert |Wrap(q, res, [cut] + more)| == |Wrap(q, res, [cut]) + Wrap(q, res, more)|;
  }

  method CutResource(qq: seq<Request>, q: Request, res: Resource, count: nat, lim: nat)
    returns (r: seq<Request>, c: nat)
    ensures r == qq + Wrap(q, res, Cuts([], res.services, count, lim))
    ensures c == CountAfter(res.services, count, lim)
  {
    r, c := qq, count;
    var s := res.services;
    var pr := res.(services := []);
    var x := Request(NO_CONTEXT, [], q.groups);
    assert s[0..] == s;
    for j := 0 to |s|
      invariant pr == res.(services := pr.services)
      invariant x == Request(NO_CONTEXT, [], q.groups)
      invariant CountAfter(s[j..], c, lim) == CountAfter(s, count, lim)
      invariant r + Wrap(q, res, Cuts(pr.services, s[j..], c, lim)) == qq + Wrap(q, res, Cuts([], s, count, lim))
    {
      var svc := s[j];
      ghost var held, before := pr.services, c;
      assert s[j..][0] == svc && s[j..][1..] == s[j + 1..];
      pr := pr.(services := pr.services + [svc]);
      c := c + 1;
      if c < lim {
        continue;
      }
      x := x.(resources := x.resources + [pr]);
      x := x.(context := x.context.SetContext(q.context));
      WrapSplit(q, res, pr.services, Cuts([], s[j + 1..], 0, lim));
      assert x.resources == [res.(services := held + [svc])];
      assert [x] == Wrap(q, res, [pr.services]);
      r := r + [x];
      c, x := 0, Request(NO_CONTEXT, [], q.groups);
      pr := res.(services := []);
    }
    assert r + [] == r;
  }

  method SplitOversized(qq: seq<Request>, p: Payload, maxBytes: nat) returns (r: seq<Request>)
    requires maxBytes > 0
    ensures p.body.None? ==> r == qq
    ensures p.body.Some? ==>
      var q := p.body.value;
      var lim := PartLimit(|AllServices(q.resources)|, p.len, maxBytes);
      r == Retokened(qq + SplitAll(q, q.resources, 0, lim))
  {
    r := qq;
    if p.body.None? {
      return;
    }
    var q := p.body.value;
    var cnt := CountServices(q.resources);
    var lim := PartLimit(cnt, p.len, maxBytes);
    var c := 0;
    assert q.resources[0..] == q.resources;
    for i := 0 to |q.resources|
      invariant r + SplitAll(q, q.resources[i..], c, lim) == qq + SplitAll(q, q.resources, 0, lim)
    {
      assert q.resources[i..][1..] == q.resources[i + 1..];
      r, c := CutResource(r, q, q.resources[i], c, lim);
    }
    assert r + [] == r;
    r := RewriteTokens(r);
  }

  method CountServices(resources: seq<Resource>) returns (cnt: nat)
    ensures cnt == |AllServices(resources)|
  {
    cnt := 0;
    assert resources[0..] == resources;
    for i := 0 to |resources|
      invariant cnt + |AllServices(resources[i..])| == |AllServices(resources)|
    {
      assert resources[i..][1..] == resources[i + 1..];
      cnt := cnt + |resources[i].services|;
    }
  }

  method RewriteTokens(qq: seq<Request>) returns (r: seq<Request>)
    ensures r == Retokened(qq)
  {
    r := qq;
    for i := 0 to |qq|
      invariant |r| == |qq|
      invariant forall k :: 0 <= k < i ==> r[k] == Retokened(qq)[k]
      invariant forall k :: i <= k < |qq| ==> r[k] == qq[k]
    {
      var t := r[i].context.traceToken;
      if |t| > 14 {
        r := r[i := r[i].(context := r[i].context.(traceToken := TraceToken.Rewrite(t, i)))];
      }
    }
  }
}
