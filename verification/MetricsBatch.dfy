/** Building the batch of metric payloads (batcher/metrics/metrics.go, Build). */
module MetricsBatch {
  import opened Wrappers
  import opened Arith
  import opened MetricsBuilder
  import GroupPacking
  import Seqs
  import TraceToken

  function ResourcesOf(qq: seq<Request>): seq<Resource> {
    if qq == [] then [] else qq[0].resources + ResourcesOf(qq[1..])
  }

  function GroupsOf(qq: seq<Request>): seq<Group> {
    if qq == [] then [] else qq[0].groups + GroupsOf(qq[1..])
  }

  /** What the payloads that decode hold, in order. */
  function ResourcesIn(buf: seq<Payload>): seq<Resource> {
    if buf == [] then []
    else ResourcesIn(buf[..|buf| - 1]) + (match buf[|buf| - 1].body case None => [] case Some(q) => q.resources)
  }

  function GroupsIn(buf: seq<Payload>): seq<Group> {
    if buf == [] then []
    else GroupsIn(buf[..|buf| - 1]) + (match buf[|buf| - 1].body case None => [] case Some(q) => q.groups)
  }

  lemma {:induction false} OfAppend(qq: seq<Request>, q: Request)
    ensures ResourcesOf(qq + [q]) == ResourcesOf(qq) + q.resources
    ensures GroupsOf(qq + [q]) == GroupsOf(qq) + q.groups
  {
    if qq == [] {
      assert qq + [q] == [q] && [q][1..] == [];
      assert ResourcesOf([]) == [] && GroupsOf([]) == [];
    } else {
      assert (qq + [q])[1..] == qq[1..] + [q];
      OfAppend(qq[1..], q);
    }
  }

  ghost predicate HasStatus(q: Request) {
    exists i :: 0 <= i < |q.resources| && q.resources[i].status != HostUnchanged
  }

  method CheckStatus(q: Request) returns (b: bool)
    ensures b <==> HasStatus(q)
  {
    for i := 0 to |q.resources|
      invariant forall k :: 0 <= k < i ==> q.resources[k].status == HostUnchanged
    {
      if q.resources[i].status != HostUnchanged {
        return true;
      }
    }
    return false;
  }

  // ---------------------------------------------------------------------
  // The loop as a function

  /**
   * Where an output comes from: the payloads merged, one payload as it is, or an
   * oversized payload and which of its parts.
   */
  datatype Origin = Merge(inputs: seq<Payload>) | Whole(input: Payload) | Part(input: Payload, cut: nat)

  /**
   * The loop's state: the byte counter, the pending merge and the payloads it holds,
   * and the outputs so far with their origins.
   */
  datatype Building = Building(c: nat, bq: Request, held: seq<Payload>, qq: seq<Request>, origins: seq<Origin>)

  const START := Building(0, EMPTY, [], [], [])

  function Emit(b: Building, q: Request, from: Origin): Building {
    b.(qq := b.qq + [q], origins := b.origins + [from])
  }

  function EmitMerge(b: Building): Building {
    Emit(b, b.bq, Merge(b.held)).(c := 0, bq := EMPTY, held := [])
  }

  function Joined(bq: Request, q: Request): Request {
    Request(bq.context.SetContext(q.context), bq.resources + q.resources, bq.groups + q.groups)
  }

  /** The payload joins the pending merge. */
  function Hold(b: Building, p: Payload): Building
    requires p.body.Some?
  {
    b.(c := b.c + p.len, bq := Joined(b.bq, p.body.value), held := b.held + [p])
  }

  ghost function TakeFitting(b: Building, p: Payload, maxBytes: nat): Building
    requires p.body.Some?
  {
    if HasStatus(p.body.value) then
      Emit(if b.bq.resources != [] then EmitMerge(b) else b, p.body.value, Whole(p))
    else
      var b' := Hold(b, p);
      if b'.c >= maxBytes then EmitMerge(b') else b'
  }

  /** The parts an oversized payload is split into. */
  function SplitOf(p: Payload, maxBytes: nat): seq<Request>
    requires maxBytes > 0 && p.body.Some?
  {
    SplitAll(p.body.value, p.body.value.resources, 0, Limit(p, maxBytes))
  }

  function PartOrigins(p: Payload, n: nat): seq<Origin> {
    seq(n, i requires 0 <= i < n => Part(p, i))
  }

  function TakeOversized(b: Building, p: Payload, maxBytes: nat): Building
    requires maxBytes > 0 && p.body.Some?
  {
    var parts := SplitOf(p, maxBytes);
    b.(qq := Retokened(b.qq + parts), origins := b.origins + PartOrigins(p, |parts|))
  }

  ghost function Take(b: Building, p: Payload, maxBytes: nat): Building
    requires maxBytes > 0
  {
    if p.body.None? then b
    else if p.len > maxBytes then TakeOversized(b, p, maxBytes)
    else TakeFitting(b, p, maxBytes)
  }

  ghost function TakeAll(buf: seq<Payload>, maxBytes: nat): Building
    requires maxBytes > 0
  {
    if buf == [] then START else Take(TakeAll(buf[..|buf| - 1], maxBytes), buf[|buf| - 1], maxBytes)
  }

  /** The pending merge is put out only if it holds resources. */
  function Finish(b: Building): Building {
    if b.bq.resources != [] then EmitMerge(b) else b
  }

  // ---------------------------------------------------------------------
  // Where every output comes from

  predicate SameButToken(q: Request, r: Request) {
    q.(context := q.context.(traceToken := "")) == r.(context := r.context.(traceToken := ""))
  }

  function Bytes(buf: seq<Payload>): nat {
    if buf == [] then 0 else Bytes(buf[..|buf| - 1]) + buf[|buf| - 1].len
  }

  /** The merge of payloads that decode, in order. */
  function JoinAll(buf: seq<Payload>): Request {
    if buf == [] then EMPTY
    else match buf[|buf| - 1].body
      case None => JoinAll(buf[..|buf| - 1])
      case Some(q) => Joined(JoinAll(buf[..|buf| - 1]), q)
  }

  /** What an output of this origin is, whenever its token was last rewritten. */
  ghost predicate Explains(from: Origin, q: Request, maxBytes: nat)
    requires maxBytes > 0
  {
    match from
    case Merge(inputs) => SameButToken(JoinAll(inputs), q) && Bytes(inputs) < 2 * maxBytes && !HasStatus(q)
    case Whole(p) => p.body.Some? && SameButToken(p.body.value, q)
    case Part(p, cut) => p.body.Some? && cut < |SplitOf(p, maxBytes)| && SameButToken(SplitOf(p, maxBytes)[cut], q)
  }

  ghost predicate AllExplained(b: Building, maxBytes: nat)
    requires maxBytes > 0
  {
    && |b.origins| == |b.qq|
    && forall i :: 0 <= i < |b.qq| ==> Explains(b.origins[i], b.qq[i], maxBytes)
  }

  // What a merge and a part take over from their inputs, field by field.

  /** The last of the values that is given, or nothing. */
  ghost predicate IsLast(value: string, values: seq<string>) {
    || (value == "" && forall i :: 0 <= i < |values| ==> values[i] == "")
    || exists i :: 0 <= i < |values| && values[i] == value != "" && forall j :: i < j < |values| ==> values[j] == ""
  }

  ghost predicate IsLastTime(value: Option<int>, values: seq<Option<int>>) {
    || (value.None? && forall i :: 0 <= i < |values| ==> values[i].None?)
    || exists i :: 0 <= i < |values| && values[i] == value && value.Some? && forall j :: i < j < |values| ==> values[j].None?
  }

  function ContextOf(p: Payload): Context { match p.body case None => NO_CONTEXT case Some(q) => q.context }

  function AgentIDs(buf: seq<Payload>): seq<string> { seq(|buf|, i requires 0 <= i < |buf| => ContextOf(buf[i]).agentID) }

  function AppTypes(buf: seq<Payload>): seq<string> { seq(|buf|, i requires 0 <= i < |buf| => ContextOf(buf[i]).appType) }

  function Tokens(buf: seq<Payload>): seq<string> { seq(|buf|, i requires 0 <= i < |buf| => ContextOf(buf[i]).traceToken) }

  function Versions(buf: seq<Payload>): seq<string> { seq(|buf|, i requires 0 <= i < |buf| => ContextOf(buf[i]).version) }

  function TimeStamps(buf: seq<Payload>): seq<Option<int>> { seq(|buf|, i requires 0 <= i < |buf| => ContextOf(buf[i]).timeStamp) }

  lemma LastMore(value: string, values: seq<string>, x: string)
    requires IsLast(value, values)
    ensures IsLast(if x != "" then x else value, values + [x])
  {
    var all := values + [x];
    if x != "" {
      assert all[|values|] == x;
    } else if value != "" {
      var i :| 0 <= i < |values| && values[i] == value != "" && forall j :: i < j < |values| ==> values[j] == "";
      assert all[i] == value && forall j :: i < j < |all| ==> all[j] == "";
    }
  }

  lemma LastTimeMore(value: Option<int>, values: seq<Option<int>>, x: Option<int>)
    requires IsLastTime(value, values)
    ensures IsLastTime(if x.Some? then x else value, values + [x])
  {
    var all := values + [x];
    if x.Some? {
      assert all[|values|] == x;
    } else if value.Some? {
      var i :| 0 <= i < |values| && values[i] == value && value.Some? && forall j :: i < j < |values| ==> values[j].None?;
      assert all[i] == value && forall j :: i < j < |all| ==> all[j].None?;
    }
  }

  /** Every field of a merge's context is that of the last input that gives one, and empty if none does. */
  lemma {:induction false} MergedContext(buf: seq<Payload>)
    ensures var c := JoinAll(buf).context;
      && IsLast(c.agentID, AgentIDs(buf)) && IsLast(c.appType, AppTypes(buf)) && IsLast(c.traceToken, Tokens(buf))
      && IsLast(c.version, Versions(buf)) && IsLastTime(c.timeStamp, TimeStamps(buf))
    decreases |buf|
  {
    if buf != [] {
      var init, p := buf[..|buf| - 1], buf[|buf| - 1];
      MergedContext(init);
      var c, d := JoinAll(init).context, ContextOf(p);
      LastMore(c.agentID, AgentIDs(init), d.agentID);
      LastMore(c.appType, AppTypes(init), d.appType);
      LastMore(c.traceToken, Tokens(init), d.traceToken);
      LastMore(c.version, Versions(init), d.version);
      LastTimeMore(c.timeStamp, TimeStamps(init), d.timeStamp);
      FieldsMore(buf);
    }
  }

  lemma FieldsMore(buf: seq<Payload>)
    requires buf != []
    ensures var init, d := buf[..|buf| - 1], ContextOf(buf[|buf| - 1]);
      && AgentIDs(buf) == AgentIDs(init) + [d.agentID] && AppTypes(buf) == AppTypes(init) + [d.appType]
      && Tokens(buf) == Tokens(init) + [d.traceToken] && Versions(buf) == Versions(init) + [d.version]
      && TimeStamps(buf) == TimeStamps(init) + [d.timeStamp]
  {
  }

  /** The resources and groups of a merge are those of its inputs, in order. */
  lemma {:induction false} MergedContents(buf: seq<Payload>)
    ensures JoinAll(buf).resources == ResourcesIn(buf) && JoinAll(buf).groups == GroupsIn(buf)
    decreases |buf|
  {
    if buf != [] {
      MergedContents(buf[..|buf| - 1]);
      Seqs.Nothing(ResourcesIn(buf[..|buf| - 1]));
      Seqs.Nothing(GroupsIn(buf[..|buf| - 1]));
    }
  }

  /** Every part has its payload's context and groups. */
  lemma PartsContext(p: Payload, maxBytes: nat, k: nat)
    requires maxBytes > 0 && p.body.Some? && k < |SplitOf(p, maxBytes)|
    ensures var part, q := SplitOf(p, maxBytes)[k], p.body.value;
      && part.context.agentID == q.context.agentID && part.context.appType == q.context.appType
      && part.context.traceToken == q.context.traceToken && part.context.version == q.context.version
      && part.context.timeStamp == q.context.timeStamp && part.groups == q.groups
  {
    var q := p.body.value;
    var i := SplitAt(q, q.resources, 0, Limit(p, maxBytes), k);
  }

  // The token, which later splits rewrite.

  /** The token an output has when it is put out, before any rewriting. */
  function TokenOf(from: Origin): string {
    match from
    case Merge(inputs) => JoinAll(inputs).context.traceToken
    case Whole(p) => ContextOf(p).traceToken
    case Part(p, _) => ContextOf(p).traceToken
  }

  /** How many payloads are split: oversized ones that decode. */
  function Splits(buf: seq<Payload>, maxBytes: nat): nat {
    if buf == [] then 0
    else Splits(buf[..|buf| - 1], maxBytes)
         + if buf[|buf| - 1].len > maxBytes && buf[|buf| - 1].body.Some? then 1 else 0
  }

  /** Rewritten k times with one index. */
  function RewriteTimes(t: string, i: nat, k: nat): string {
    if k == 0 then t else TraceToken.Rewrite(RewriteTimes(t, i, k - 1), i)
  }

  lemma {:induction false} RewriteOnce(t: string, i: nat, k: nat)
    requires i < 10000 && k > 0
    ensures RewriteTimes(t, i, k) == TraceToken.Rewrite(t, i)
    decreases k
  {
    if k == 1 {
      assert RewriteTimes(t, i, 0) == t;
    } else {
      RewriteOnce(t, i, k - 1);
      if |t| > 14 {
        TraceToken.RewriteIdempotentIff(t, i);
      }
    }
  }

  function Token(q: Request): string { q.context.traceToken }

  /** One payload: what it puts out has its origin's token, rewritten if it was split; a split rewrites all before too. */
  lemma TakeTokens(b: Building, p: Payload, maxBytes: nat)
    requires maxBytes > 0 && b.bq == JoinAll(b.held) && |b.origins| == |b.qq|
    ensures var b' := Take(b, p, maxBytes);
      var split := p.len > maxBytes && p.body.Some?;
      && |b'.origins| == |b'.qq| >= |b.qq| && b.origins == b'.origins[..|b.qq|]
      && (forall i :: 0 <= i < |b.qq| ==>
          Token(b'.qq[i]) == if split then TraceToken.Rewrite(Token(b.qq[i]), i) else Token(b.qq[i]))
      && (forall i :: |b.qq| <= i < |b'.qq| ==>
          Token(b'.qq[i]) == if split then TraceToken.Rewrite(TokenOf(b'.origins[i]), i) else TokenOf(b'.origins[i]))
  {
    if p.body.Some? {
      if p.len > maxBytes {
        OversizedTokens(b, p, maxBytes);
      } else {
        FittingTokens(b, p, maxBytes);
      }
    }
  }

  lemma FittingTokens(b: Building, p: Payload, maxBytes: nat)
    requires p.body.Some? && b.bq == JoinAll(b.held) && |b.origins| == |b.qq|
    ensures var b' := TakeFitting(b, p, maxBytes);
      && |b'.origins| == |b'.qq| >= |b.qq| && b.origins == b'.origins[..|b.qq|] && b.qq == b'.qq[..|b.qq|]
      && forall i :: |b.qq| <= i < |b'.qq| ==> Token(b'.qq[i]) == TokenOf(b'.origins[i])
  {
    if !HasStatus(p.body.value) {
      OneMoreHeld(b.held, p);
    }
  }

  lemma OversizedTokens(b: Building, p: Payload, maxBytes: nat)
    requires maxBytes > 0 && p.body.Some? && |b.origins| == |b.qq|
    ensures var b' := TakeOversized(b, p, maxBytes);
      && |b'.origins| == |b'.qq| >= |b.qq| && b.origins == b'.origins[..|b.qq|]
      && (forall i :: 0 <= i < |b.qq| ==> Token(b'.qq[i]) == TraceToken.Rewrite(Token(b.qq[i]), i))
      && (forall i :: |b.qq| <= i < |b'.qq| ==> Token(b'.qq[i]) == TraceToken.Rewrite(TokenOf(b'.origins[i]), i))
  {
    var parts, b' := SplitOf(p, maxBytes), TakeOversized(b, p, maxBytes);
    forall i | |b.qq| <= i < |b'.qq|
      ensures Token(b'.qq[i]) == TraceToken.Rewrite(TokenOf(b'.origins[i]), i)
    {
      PartsContext(p, maxBytes, i - |b.qq|);
      assert (b.qq + parts)[i] == parts[i - |b.qq|];
    }
  }

  /** After the first m payloads, later ones only rewrite: as often as they are split. */
  lemma {:induction false} TokensLater(buf: seq<Payload>, maxBytes: nat, m: nat, i: nat)
    requires maxBytes > 0 && m <= |buf|
    requires i < |TakeAll(buf[..m], maxBytes).qq|
    ensures var early, late := TakeAll(buf[..m], maxBytes), TakeAll(buf, maxBytes);
      && i < |late.qq| && |early.origins| == |early.qq| && |late.origins| == |late.qq|
      && late.origins[i] == early.origins[i]
      && Token(late.qq[i]) == RewriteTimes(Token(early.qq[i]), i, Splits(buf[m..], maxBytes))
    decreases |buf|
  {
    if m == |buf| {
      TokensNow(buf, maxBytes, i);
      assert buf[..m] == buf && buf[m..] == [];
    } else {
      var init := buf[..|buf| - 1];
      assert init[..m] == buf[..m];
      TokensLater(init, maxBytes, m, i);
      OneMoreTaken(buf, maxBytes, i);
      SplitsTo(buf, maxBytes, m);
    }
  }

  lemma TokensNow(buf: seq<Payload>, maxBytes: nat, i: nat)
    requires maxBytes > 0
    ensures var b := TakeAll(buf, maxBytes); |b.origins| == |b.qq|
    ensures forall t :: RewriteTimes(t, i, Splits([], maxBytes)) == t
  {
    TakeAllTraced(buf, maxBytes);
  }

  lemma OneMoreTaken(buf: seq<Payload>, maxBytes: nat, i: nat)
    requires maxBytes > 0 && buf != [] && i < |TakeAll(buf[..|buf| - 1], maxBytes).qq|
    ensures var p, b, b' := buf[|buf| - 1], TakeAll(buf[..|buf| - 1], maxBytes), TakeAll(buf, maxBytes);
      && i < |b'.qq| == |b'.origins| && |b.qq| == |b.origins| && b'.origins[i] == b.origins[i]
      && Token(b'.qq[i]) == if p.len > maxBytes && p.body.Some? then TraceToken.Rewrite(Token(b.qq[i]), i) else Token(b.qq[i])
  {
    var init := buf[..|buf| - 1];
    TakeAllTraced(init, maxBytes);
    TakeTokens(TakeAll(init, maxBytes), buf[|buf| - 1], maxBytes);
  }

  lemma SplitsTo(buf: seq<Payload>, maxBytes: nat, m: nat)
    requires m < |buf|
    ensures var n := |buf| - 1;
      Splits(buf[m..], maxBytes)
      == Splits(buf[..n][m..], maxBytes) + if buf[n].len > maxBytes && buf[n].body.Some? then 1 else 0
  {
    assert buf[m..][..|buf[m..]| - 1] == buf[..|buf| - 1][m..];
  }

  /**
   * The token of every output that the payload number m puts out: its origin's,
   * rewritten with the output's index once for each payload that is split from m on.
   */
  lemma OutputToken(buf: seq<Payload>, maxBytes: nat, m: nat, i: nat)
    requires maxBytes > 0 && m < |buf|
    requires |TakeAll(buf[..m], maxBytes).qq| <= i < |TakeAll(buf[..m + 1], maxBytes).qq|
    ensures var b := Finish(TakeAll(buf, maxBytes));
      && i < |b.qq| == |b.origins|
      && Token(b.qq[i]) == RewriteTimes(TokenOf(b.origins[i]), i, Splits(buf[m..], maxBytes))
  {
    FirstToken(buf, maxBytes, m, i);
    TokensLater(buf, maxBytes, m + 1, i);
    SplitsFrom(buf, maxBytes, m);
    RewriteMore(TokenOf(TakeAll(buf[..m + 1], maxBytes).origins[i]), i, Splits(buf[m + 1..], maxBytes));
    FinishKeepsToken(TakeAll(buf, maxBytes), i);
  }

  lemma FinishKeepsToken(b: Building, i: nat)
    requires i < |b.qq| == |b.origins|
    ensures var b' := Finish(b);
      i < |b'.qq| == |b'.origins| && b'.qq[i] == b.qq[i] && b'.origins[i] == b.origins[i]
  {
  }

  lemma FirstToken(buf: seq<Payload>, maxBytes: nat, m: nat, i: nat)
    requires maxBytes > 0 && m < |buf|
    requires |TakeAll(buf[..m], maxBytes).qq| <= i < |TakeAll(buf[..m + 1], maxBytes).qq|
    ensures var b := TakeAll(buf[..m + 1], maxBytes);
      && |b.origins| == |b.qq|
      && Token(b.qq[i]) == if buf[m].len > maxBytes && buf[m].body.Some? then TraceToken.Rewrite(TokenOf(b.origins[i]), i)
                           else TokenOf(b.origins[i])
  {
    assert buf[..m + 1][..m] == buf[..m];
    TakeAllTraced(buf[..m], maxBytes);
    TakeTokens(TakeAll(buf[..m], maxBytes), buf[m], maxBytes);
  }

  lemma {:induction false} SplitsFrom(buf: seq<Payload>, maxBytes: nat, m: nat)
    requires m < |buf|
    ensures Splits(buf[m..], maxBytes)
            == Splits(buf[m + 1..], maxBytes) + if buf[m].len > maxBytes && buf[m].body.Some? then 1 else 0
    decreases |buf|
  {
    var n := |buf| - 1;
    if m == n {
      assert buf[m..] == [buf[m]] && buf[m + 1..] == [];
      assert [buf[m]][..0] == [];
    } else {
      SplitsFrom(buf[..n], maxBytes, m);
      assert buf[m..][..|buf[m..]| - 1] == buf[..n][m..];
      assert buf[m + 1..][..|buf[m + 1..]| - 1] == buf[..n][m + 1..];
    }
  }

  lemma {:induction false} RewriteMore(t: string, i: nat, k: nat)
    ensures RewriteTimes(TraceToken.Rewrite(t, i), i, k) == RewriteTimes(t, i, k + 1)
  {
    if k > 0 {
      RewriteMore(t, i, k - 1);
    }
  }

  /** The last merge is put out after all splits and keeps its token. */
  lemma LastToken(buf: seq<Payload>, maxBytes: nat)
    requires maxBytes > 0 && TakeAll(buf, maxBytes).bq.resources != []
    ensures var b := Finish(TakeAll(buf, maxBytes));
      b.qq != [] && |b.origins| == |b.qq| && Token(b.qq[|b.qq| - 1]) == TokenOf(b.origins[|b.qq| - 1])
  {
    TakeAllTraced(buf, maxBytes);
  }

  /** The payloads that are merged: those within the limit that decode and carry no status. */
  ghost function Fitting(buf: seq<Payload>, maxBytes: nat): seq<Payload> {
    if buf == [] then []
    else
      var p := buf[|buf| - 1];
      Fitting(buf[..|buf| - 1], maxBytes)
      + if p.len <= maxBytes && p.body.Some? && !HasStatus(p.body.value) then [p] else []
  }

  /** The outputs that are not merges, in order: payloads with a status, and all parts of oversized ones. */
  ghost function Unmerged(buf: seq<Payload>, maxBytes: nat): seq<Origin>
    requires maxBytes > 0
  {
    if buf == [] then []
    else
      var p := buf[|buf| - 1];
      Unmerged(buf[..|buf| - 1], maxBytes)
      + if p.body.None? then []
        else if p.len > maxBytes then PartOrigins(p, |SplitOf(p, maxBytes)|)
        else if HasStatus(p.body.value) then [Whole(p)]
        else []
  }

  /** The payloads merged, over all merges in order. */
  function Merged(origins: seq<Origin>): seq<Payload> {
    if origins == [] then []
    else
      var o := origins[|origins| - 1];
      Merged(origins[..|origins| - 1]) + if o.Merge? then o.inputs else []
  }

  function NotMerges(origins: seq<Origin>): seq<Origin> {
    if origins == [] then []
    else
      var o := origins[|origins| - 1];
      NotMerges(origins[..|origins| - 1]) + if o.Merge? then [] else [o]
  }

  ghost predicate Keeps(b: Building, maxBytes: nat) {
    b.bq == JoinAll(b.held) && b.c == Bytes(b.held) < maxBytes && !HasStatus(b.bq)
  }

  ghost predicate Traced(b: Building, seen: seq<Payload>, maxBytes: nat)
    requires maxBytes > 0
  {
    && Merged(b.origins) + b.held == Fitting(seen, maxBytes)
    && NotMerges(b.origins) == Unmerged(seen, maxBytes)
  }

  lemma OneMore(origins: seq<Origin>, from: Origin)
    ensures Merged(origins + [from]) == Merged(origins) + if from.Merge? then from.inputs else []
    ensures NotMerges(origins + [from]) == NotMerges(origins) + if from.Merge? then [] else [from]
  {
    assert (origins + [from])[..|origins|] == origins;
  }

  lemma {:induction false} MoreParts(origins: seq<Origin>, p: Payload, k: nat)
    ensures Merged(origins + PartOrigins(p, k)) == Merged(origins)
    ensures NotMerges(origins + PartOrigins(p, k)) == NotMerges(origins) + PartOrigins(p, k)
  {
    if k == 0 {
      Seqs.Nothing(origins);
      Seqs.Nothing(NotMerges(origins));
    } else {
      var parts := PartOrigins(p, k - 1);
      assert PartOrigins(p, k) == parts + [Part(p, k - 1)];
      MoreParts(origins, p, k - 1);
      OneMore(origins + parts, Part(p, k - 1));
      Seqs.Assoc(origins, parts, [Part(p, k - 1)]);
      Seqs.Assoc(NotMerges(origins), parts, [Part(p, k - 1)]);
      Seqs.Nothing(Merged(origins));
    }
  }

  lemma OneMoreHeld(held: seq<Payload>, p: Payload)
    requires p.body.Some?
    ensures JoinAll(held + [p]) == Joined(JoinAll(held), p.body.value)
    ensures Bytes(held + [p]) == Bytes(held) + p.len
  {
    assert (held + [p])[..|held|] == held;
  }

  lemma EmitExplained(b: Building, q: Request, from: Origin, maxBytes: nat)
    requires maxBytes > 0 && AllExplained(b, maxBytes) && Explains(from, q, maxBytes)
    ensures AllExplained(Emit(b, q, from), maxBytes)
  {
  }

  lemma OversizedExplained(b: Building, p: Payload, maxBytes: nat)
    requires maxBytes > 0 && AllExplained(b, maxBytes) && p.body.Some?
    ensures AllExplained(TakeOversized(b, p, maxBytes), maxBytes)
  {
    var parts := SplitOf(p, maxBytes);
    var b' := TakeOversized(b, p, maxBytes);
    forall i | 0 <= i < |b'.qq|
      ensures Explains(b'.origins[i], b'.qq[i], maxBytes)
    {
      var before := (b.qq + parts)[i];
      assert SameButToken(before, b'.qq[i]) && b'.qq[i].resources == before.resources;
    }
  }

  lemma StatusExplained(b: Building, p: Payload, maxBytes: nat)
    requires maxBytes > 0 && AllExplained(b, maxBytes) && Keeps(b, maxBytes) && p.body.Some?
    ensures AllExplained(Emit(if b.bq.resources != [] then EmitMerge(b) else b, p.body.value, Whole(p)), maxBytes)
  {
    EmitExplained(b, b.bq, Merge(b.held), maxBytes);
    var b1 := if b.bq.resources != [] then EmitMerge(b) else b;
    EmitExplained(b1, p.body.value, Whole(p), maxBytes);
  }

  lemma NoStatusJoined(bq: Request, q: Request)
    requires !HasStatus(bq) && !HasStatus(q)
    ensures !HasStatus(Joined(bq, q))
  {
    var all := Joined(bq, q).resources;
    forall i | 0 <= i < |all|
      ensures all[i].status == HostUnchanged
    {
      assert all[i] == if i < |bq.resources| then bq.resources[i] else q.resources[i - |bq.resources|];
    }
  }

  lemma HeldExplained(b: Building, p: Payload, maxBytes: nat)
    requires maxBytes > 0 && AllExplained(b, maxBytes) && Keeps(b, maxBytes)
    requires p.body.Some? && p.len <= maxBytes && !HasStatus(p.body.value)
    ensures var b' := Hold(b, p);
      b'.bq == JoinAll(b'.held) && b'.c == Bytes(b'.held) && !HasStatus(b'.bq) && AllExplained(EmitMerge(b'), maxBytes)
  {
    OneMoreHeld(b.held, p);
    NoStatusJoined(b.bq, p.body.value);
    var b' := Hold(b, p);
    assert Explains(Merge(b'.held), b'.bq, maxBytes);
    EmitExplained(b', b'.bq, Merge(b'.held), maxBytes);
  }

  lemma TakeExplained(b: Building, p: Payload, maxBytes: nat)
    requires maxBytes > 0 && AllExplained(b, maxBytes) && Keeps(b, maxBytes)
    ensures AllExplained(Take(b, p, maxBytes), maxBytes) && Keeps(Take(b, p, maxBytes), maxBytes)
  {
    if p.body.Some? {
      if p.len > maxBytes {
        OversizedExplained(b, p, maxBytes);
      } else if HasStatus(p.body.value) {
        StatusExplained(b, p, maxBytes);
      } else {
        HeldExplained(b, p, maxBytes);
      }
    }
  }

  lemma FittingTraced(b: Building, seen: seq<Payload>, p: Payload, maxBytes: nat)
    requires maxBytes > 0 && Traced(b, seen, maxBytes) && p.body.Some? && p.len <= maxBytes
    ensures Traced(TakeFitting(b, p, maxBytes), seen + [p], maxBytes)
  {
    assert (seen + [p])[..|seen|] == seen;
    if HasStatus(p.body.value) {
      MergeTraced(b, seen, maxBytes);
      var b1 := if b.bq.resources != [] then EmitMerge(b) else b;
      OneMore(b1.origins, Whole(p));
      Seqs.Nothing(Merged(b1.origins));
      Seqs.Nothing(Fitting(seen, maxBytes));
    } else {
      Seqs.Assoc(Merged(b.origins), b.held, [p]);
      Seqs.Nothing(Unmerged(seen, maxBytes));
      MergeTraced(Hold(b, p), seen + [p], maxBytes);
    }
  }

  lemma MergeTraced(b: Building, seen: seq<Payload>, maxBytes: nat)
    requires maxBytes > 0 && Traced(b, seen, maxBytes)
    ensures Traced(EmitMerge(b), seen, maxBytes)
  {
    OneMore(b.origins, Merge(b.held));
    Seqs.Nothing(Merged(b.origins) + b.held);
    Seqs.Nothing(NotMerges(b.origins));
  }

  lemma TakeTraced(b: Building, seen: seq<Payload>, p: Payload, maxBytes: nat)
    requires maxBytes > 0 && Traced(b, seen, maxBytes)
    ensures Traced(Take(b, p, maxBytes), seen + [p], maxBytes)
  {
    if p.body.Some? && p.len <= maxBytes {
      FittingTraced(b, seen, p, maxBytes);
    } else {
      assert (seen + [p])[..|seen|] == seen;
      Seqs.Nothing(Fitting(seen, maxBytes));
      if p.body.Some? {
        MoreParts(b.origins, p, |SplitOf(p, maxBytes)|);
      } else {
        Seqs.Nothing(Unmerged(seen, maxBytes));
      }
    }
  }

  lemma {:induction false} TakeAllTraced(buf: seq<Payload>, maxBytes: nat)
    requires maxBytes > 0
    ensures var b := TakeAll(buf, maxBytes);
      Keeps(b, maxBytes) && AllExplained(b, maxBytes) && Traced(b, buf, maxBytes)
  {
    if buf != [] {
      var init, p := buf[..|buf| - 1], buf[|buf| - 1];
      TakeAllTraced(init, maxBytes);
      TakeExplained(TakeAll(init, maxBytes), p, maxBytes);
      TakeTraced(TakeAll(init, maxBytes), init, p, maxBytes);
      assert init + [p] == buf;
    }
  }

  /**
   * Up to its token every output is the merge of its inputs, which hold fewer than
   * 2 * maxBytes bytes and no status, or one payload as it is, or the named part of
   * an oversized payload.  The inputs of the merges are the payloads within the limit
   * that decode and carry no status, each once and in order, up to a last merge that
   * is dropped because it holds no resource.  The other outputs are, in order, the
   * payloads with a status and all parts of the oversized ones.
   */
  lemma EveryOutputExplained(buf: seq<Payload>, maxBytes: nat)
    requires maxBytes > 0
    ensures var b := Finish(TakeAll(buf, maxBytes));
      && AllExplained(b, maxBytes)
      && NotMerges(b.origins) == Unmerged(buf, maxBytes)
      && Merged(b.origins) + b.held == Fitting(buf, maxBytes)
      && JoinAll(b.held).resources == []
  {
    TakeAllTraced(buf, maxBytes);
    var b := TakeAll(buf, maxBytes);
    if b.bq.resources != [] {
      EmitExplained(b, b.bq, Merge(b.held), maxBytes);
      MergeTraced(b, buf, maxBytes);
    }
  }

  /** The bytes of its inputs reach the limit with the last of them. */
  predicate Filled(inputs: seq<Payload>, maxBytes: nat) {
    inputs != [] && Bytes(inputs[..|inputs| - 1]) < maxBytes && maxBytes <= Bytes(inputs)
  }

  /** A merge is put out when it is filled, or with resources right before a payload with a status. */
  predicate PutOutFor(origins: seq<Origin>, i: nat, maxBytes: nat)
    requires i < |origins|
  {
    origins[i].Merge? ==>
      || Filled(origins[i].inputs, maxBytes)
      || (ResourcesIn(origins[i].inputs) != [] && i + 1 < |origins| && origins[i + 1].Whole?)
  }

  ghost predicate AllPutOutFor(origins: seq<Origin>, maxBytes: nat) {
    forall i :: 0 <= i < |origins| ==> PutOutFor(origins, i, maxBytes)
  }

  lemma MorePutOut(origins: seq<Origin>, more: seq<Origin>, maxBytes: nat)
    requires AllPutOutFor(origins, maxBytes) && AllPutOutFor(more, maxBytes)
    ensures AllPutOutFor(origins + more, maxBytes)
  {
    var all := origins + more;
    forall i | 0 <= i < |all|
      ensures PutOutFor(all, i, maxBytes)
    {
      if i < |origins| {
        assert PutOutFor(origins, i, maxBytes);
      } else {
        assert PutOutFor(more, i - |origins|, maxBytes);
      }
    }
  }

  lemma StatusPutsOut(b: Building, p: Payload, maxBytes: nat)
    requires AllPutOutFor(b.origins, maxBytes) && b.bq == JoinAll(b.held)
    ensures AllPutOutFor((if b.bq.resources != [] then EmitMerge(b) else b).origins + [Whole(p)], maxBytes)
  {
    MergedContents(b.held);
    if b.bq.resources != [] {
      MorePutOut(b.origins, [Merge(b.held), Whole(p)], maxBytes);
      assert b.origins + [Merge(b.held)] + [Whole(p)] == b.origins + [Merge(b.held), Whole(p)];
    } else {
      MorePutOut(b.origins, [Whole(p)], maxBytes);
    }
  }

  lemma FilledPutsOut(origins: seq<Origin>, held: seq<Payload>, p: Payload, maxBytes: nat)
    requires AllPutOutFor(origins, maxBytes) && Bytes(held) < maxBytes <= Bytes(held + [p])
    ensures AllPutOutFor(origins + [Merge(held + [p])], maxBytes)
  {
    assert (held + [p])[..|held|] == held;
    MorePutOut(origins, [Merge(held + [p])], maxBytes);
  }

  lemma TakePutsOut(b: Building, p: Payload, maxBytes: nat)
    requires maxBytes > 0 && AllPutOutFor(b.origins, maxBytes) && Keeps(b, maxBytes)
    ensures AllPutOutFor(Take(b, p, maxBytes).origins, maxBytes)
  {
    if p.body.Some? {
      if p.len > maxBytes {
        MorePutOut(b.origins, PartOrigins(p, |SplitOf(p, maxBytes)|), maxBytes);
      } else if HasStatus(p.body.value) {
        StatusPutsOut(b, p, maxBytes);
      } else {
        OneMoreHeld(b.held, p);
        if Bytes(b.held + [p]) >= maxBytes {
          FilledPutsOut(b.origins, b.held, p, maxBytes);
        }
      }
    }
  }

  lemma {:induction false} TakeAllPutsOut(buf: seq<Payload>, maxBytes: nat)
    requires maxBytes > 0
    ensures AllPutOutFor(TakeAll(buf, maxBytes).origins, maxBytes)
  {
    if buf != [] {
      TakeAllPutsOut(buf[..|buf| - 1], maxBytes);
      TakeAllTraced(buf[..|buf| - 1], maxBytes);
      TakePutsOut(TakeAll(buf[..|buf| - 1], maxBytes), buf[|buf| - 1], maxBytes);
    }
  }

  /**
   * No merge is put out early: each reaches the limit with its last input, or holds
   * resources and comes right before a payload with a status, or holds resources and
   * is the last output.
   */
  lemma MergesFill(buf: seq<Payload>, maxBytes: nat)
    requires maxBytes > 0
    ensures var origins := Finish(TakeAll(buf, maxBytes)).origins;
      forall i :: 0 <= i < |origins| && origins[i].Merge? ==>
        || Filled(origins[i].inputs, maxBytes)
        || (ResourcesIn(origins[i].inputs) != [] && (i == |origins| - 1 || origins[i + 1].Whole?))
  {
    var b := TakeAll(buf, maxBytes);
    TakeAllPutsOut(buf, maxBytes);
    TakeAllTraced(buf, maxBytes);
    MergedContents(b.held);
    var origins := Finish(b).origins;
    forall i | 0 <= i < |origins| && origins[i].Merge?
      ensures Filled(origins[i].inputs, maxBytes)
              || (ResourcesIn(origins[i].inputs) != [] && (i == |origins| - 1 || origins[i + 1].Whole?))
    {
      if i < |b.origins| {
        assert origins[i] == b.origins[i] && PutOutFor(b.origins, i, maxBytes);
      }
    }
  }

  // ---------------------------------------------------------------------
  // Nothing is lost without oversized payloads

  ghost predicate NoneOversized(buf: seq<Payload>, maxBytes: nat) {
    forall i :: 0 <= i < |buf| && buf[i].body.Some? ==> buf[i].len <= maxBytes
  }

  ghost predicate Conserves(b: Building, resources: seq<Resource>, groups: multiset<Group>) {
    && ResourcesOf(b.qq) + b.bq.resources == resources
    && multiset(GroupsOf(b.qq)) + multiset(b.bq.groups) == groups
  }

  lemma EmitMergeConserves(b: Building, resources: seq<Resource>, groups: multiset<Group>)
    requires Conserves(b, resources, groups)
    ensures Conserves(EmitMerge(b), resources, groups)
  {
    OfAppend(b.qq, b.bq);
    assert resources + [] == resources;
  }

  lemma EmitConserves(b: Building, q: Request, from: Origin, resources: seq<Resource>, groups: multiset<Group>)
    requires Conserves(b, resources, groups) && b.bq.resources == []
    ensures Conserves(Emit(b, q, from), resources + q.resources, groups + multiset(q.groups))
  {
    OfAppend(b.qq, q);
    assert ResourcesOf(b.qq) + [] == ResourcesOf(b.qq);
  }

  lemma FittingConserves(b: Building, p: Payload, maxBytes: nat, resources: seq<Resource>, groups: multiset<Group>)
    requires Conserves(b, resources, groups) && p.body.Some?
    ensures var q := p.body.value;
      Conserves(TakeFitting(b, p, maxBytes), resources + q.resources, groups + multiset(q.groups))
  {
    var q := p.body.value;
    if HasStatus(q) {
      EmitMergeConserves(b, resources, groups);
      EmitConserves(if b.bq.resources != [] then EmitMerge(b) else b, q, Whole(p), resources, groups);
    } else {
      EmitMergeConserves(Hold(b, p), resources + q.resources, groups + multiset(q.groups));
    }
  }

  lemma {:induction false} TakeAllConserves(buf: seq<Payload>, maxBytes: nat)
    requires maxBytes > 0 && NoneOversized(buf, maxBytes)
    ensures Conserves(TakeAll(buf, maxBytes), ResourcesIn(buf), multiset(GroupsIn(buf)))
  {
    if buf != [] {
      var init, p := buf[..|buf| - 1], buf[|buf| - 1];
      TakeAllConserves(init, maxBytes);
      if p.body.Some? {
        FittingConserves(TakeAll(init, maxBytes), p, maxBytes, ResourcesIn(init), multiset(GroupsIn(init)));
      } else {
        assert ResourcesIn(init) + [] == ResourcesIn(init) && GroupsIn(init) + [] == GroupsIn(init);
      }
    }
  }

  /**
   * Without oversized payloads the outputs' resources, in order, are the inputs'.
   * The groups are the inputs' too, except those of a last merge that holds no
   * resource: it is never put out.
   */
  lemma BuildConserves(buf: seq<Payload>, maxBytes: nat)
    requires maxBytes > 0 && NoneOversized(buf, maxBytes)
    ensures var b := TakeAll(buf, maxBytes);
      var out := Finish(b).qq;
      && ResourcesOf(out) == ResourcesIn(buf)
      && multiset(GroupsOf(out)) + (if b.bq.resources == [] then multiset(b.bq.groups) else multiset{})
         == multiset(GroupsIn(buf))
  {
    TakeAllConserves(buf, maxBytes);
    var b := TakeAll(buf, maxBytes);
    if b.bq.resources != [] {
      EmitMergeConserves(b, ResourcesIn(buf), multiset(GroupsIn(buf)));
      assert ResourcesOf(Finish(b).qq) + [] == ResourcesOf(Finish(b).qq);
    } else {
      assert ResourcesOf(b.qq) + [] == ResourcesOf(b.qq);
    }
  }

  // ---------------------------------------------------------------------
  // What any buffer loses

  function ServicesIn(buf: seq<Payload>): seq<Service> {
    if buf == [] then []
    else ServicesIn(buf[..|buf| - 1]) + ServicesOf(buf[|buf| - 1])
  }

  function ServicesOf(p: Payload): seq<Service> {
    match p.body case None => [] case Some(q) => AllServices(q.resources)
  }

  function Limit(p: Payload, maxBytes: nat): (lim: nat)
    requires p.body.Some? && maxBytes > 0
    ensures lim > 0
  {
    PartLimit(|AllServices(p.body.value.resources)|, p.len, maxBytes)
  }

  /** The services one payload loses: only an oversized one does. */
  function LostFrom(p: Payload, maxBytes: nat): seq<Service>
    requires maxBytes > 0
  {
    if p.body.Some? && p.len > maxBytes then Lost(p.body.value.resources, 0, Limit(p, maxBytes)) else []
  }

  function LostIn(buf: seq<Payload>, maxBytes: nat): seq<Service>
    requires maxBytes > 0
  {
    if buf == [] then [] else LostIn(buf[..|buf| - 1], maxBytes) + LostFrom(buf[|buf| - 1], maxBytes)
  }

  function Held(b: Building): multiset<Service> { multiset(Sent(b.qq)) + multiset(AllServices(b.bq.resources)) }

  lemma {:induction false} ServicesAppend(a: seq<Resource>, b: seq<Resource>)
    ensures AllServices(a + b) == AllServices(a) + AllServices(b)
  {
    if a == [] {
      assert a + b == b;
    } else {
      assert (a + b)[1..] == a[1..] + b;
      ServicesAppend(a[1..], b);
    }
  }

  lemma {:induction false} SameSent(qq: seq<Request>, out: seq<Request>)
    requires |out| == |qq| && forall i :: 0 <= i < |qq| ==> out[i].resources == qq[i].resources
    ensures Sent(out) == Sent(qq)
  {
    if qq != [] {
      SameSent(qq[1..], out[1..]);
    }
  }

  lemma SentOne(qq: seq<Request>, q: Request)
    ensures Sent(qq + [q]) == Sent(qq) + AllServices(q.resources)
  {
    SentAppend(qq, [q]);
    assert [q][1..] == [];
    assert Sent([]) == [] && AllServices(q.resources) + [] == AllServices(q.resources);
  }

  lemma EmitMergeHolds(b: Building)
    ensures Held(EmitMerge(b)) == Held(b)
  {
    SentOne(b.qq, b.bq);
  }

  lemma FittingHolds(b: Building, p: Payload, maxBytes: nat)
    requires p.body.Some?
    ensures Held(TakeFitting(b, p, maxBytes)) == Held(b) + multiset(ServicesOf(p))
  {
    var q := p.body.value;
    if HasStatus(q) {
      var b1 := if b.bq.resources != [] then EmitMerge(b) else b;
      EmitMergeHolds(b);
      SentOne(b1.qq, q);
    } else {
      ServicesAppend(b.bq.resources, q.resources);
      EmitMergeHolds(Hold(b, p));
    }
  }

  lemma OversizedHolds(b: Building, p: Payload, maxBytes: nat)
    requires maxBytes > 0 && p.body.Some?
    ensures Held(TakeOversized(b, p, maxBytes)) + multiset(Lost(p.body.value.resources, 0, Limit(p, maxBytes)))
            == Held(b) + multiset(ServicesOf(p))
  {
    var q, parts := p.body.value, SplitOf(p, maxBytes);
    SplitConserves(q, q.resources, 0, Limit(p, maxBytes));
    SentAppend(b.qq, parts);
    SameSent(b.qq + parts, Retokened(b.qq + parts));
  }

  lemma TakeHolds(b: Building, p: Payload, maxBytes: nat)
    requires maxBytes > 0
    ensures Held(Take(b, p, maxBytes)) + multiset(LostFrom(p, maxBytes)) == Held(b) + multiset(ServicesOf(p))
  {
    if p.body.Some? {
      if p.len > maxBytes {
        OversizedHolds(b, p, maxBytes);
      } else {
        FittingHolds(b, p, maxBytes);
      }
    }
  }

  lemma {:induction false} TakeAllHolds(buf: seq<Payload>, maxBytes: nat)
    requires maxBytes > 0
    ensures Held(TakeAll(buf, maxBytes)) + multiset(LostIn(buf, maxBytes)) == multiset(ServicesIn(buf))
  {
    if buf != [] {
      var init, p := buf[..|buf| - 1], buf[|buf| - 1];
      TakeAllHolds(init, maxBytes);
      TakeHolds(TakeAll(init, maxBytes), p, maxBytes);
      var held, held' := Held(TakeAll(init, maxBytes)), Held(TakeAll(buf, maxBytes));
      calc {
        held' + multiset(LostIn(buf, maxBytes));
        held' + multiset(LostFrom(p, maxBytes)) + multiset(LostIn(init, maxBytes));
        held + multiset(ServicesOf(p)) + multiset(LostIn(init, maxBytes));
        multiset(ServicesIn(buf));
      }
    }
  }

  /** No oversized payload has a resource that ends between two cuts. */
  ghost predicate AllEndOnCuts(buf: seq<Payload>, maxBytes: nat)
    requires maxBytes > 0
  {
    forall i :: 0 <= i < |buf| && buf[i].body.Some? && buf[i].len > maxBytes ==>
      EndsOnCuts(buf[i].body.value.resources, 0, Limit(buf[i], maxBytes))
  }

  lemma {:induction false} LostNoneIff(buf: seq<Payload>, maxBytes: nat)
    requires maxBytes > 0
    ensures LostIn(buf, maxBytes) == [] <==> AllEndOnCuts(buf, maxBytes)
  {
    if buf != [] {
      var init, p := buf[..|buf| - 1], buf[|buf| - 1];
      LostNoneIff(init, maxBytes);
      assert buf == init + [p];
      if p.body.Some? && p.len > maxBytes {
        NothingLostIff(p.body.value.resources, 0, Limit(p, maxBytes));
      }
    }
  }

  /**
   * For every buffer, the services put out and those lost are together the services
   * of the payloads that decode; none is lost exactly when every resource of every
   * oversized payload ends on a cut.
   */
  lemma BuildAccounts(buf: seq<Payload>, maxBytes: nat)
    requires maxBytes > 0
    ensures var out := Finish(TakeAll(buf, maxBytes)).qq;
      && multiset(Sent(out)) + multiset(LostIn(buf, maxBytes)) == multiset(ServicesIn(buf))
      && (multiset(Sent(out)) == multiset(ServicesIn(buf)) <==> AllEndOnCuts(buf, maxBytes))
  {
    TakeAllHolds(buf, maxBytes);
    var b := TakeAll(buf, maxBytes);
    EmitMergeHolds(b);
    assert Held(Finish(b)) == Held(b);
    assert Held(Finish(b)) == multiset(Sent(Finish(b).qq));
    LostNoneIff(buf, maxBytes);
    var lost := LostIn(buf, maxBytes);
    if lost != [] {
      assert |multiset(lost)| > 0;
    }
  }

  /**
   * Splitting really can lose services: three services of one resource, in a payload
   * longer than the limit and shorter than two, are cut after the second.
   */
  lemma SplitCanLose(res: Resource, a: Service, b: Service, c: Service, len: nat, maxBytes: nat)
    requires res.services == [a, b, c] && 0 < maxBytes < len < 2 * maxBytes
    ensures var p := Payload(len, Some(Request(NO_CONTEXT, [res], [])));
      Limit(p, maxBytes) == 2 && Sent(SplitOf(p, maxBytes)) == [a, b] && LostFrom(p, maxBytes) == [c]
  {
    var q := Request(NO_CONTEXT, [res], []);
    OneResource(res);
    assert len / maxBytes == 1;
    CutAfterTwo(a, b, c);
    SentWrap(q, res, [[a, b]]);
    assert [[a, b]][1..] == [] && Concat([]) == [];
    assert [res][1..] == [] && SplitAll(q, [], CountAfter([a, b, c], 0, 2), 2) == [];
    assert Lost([], CountAfter([a, b, c], 0, 2), 2) == [];
    Seqs.Nothing(Wrap(q, res, [[a, b]]));
    Seqs.Nothing([a, b]);
    Seqs.Nothing([c]);
  }

  lemma OneResource(res: Resource)
    ensures AllServices([res]) == res.services
  {
    assert [res][1..] == [];
    Seqs.Nothing(res.services);
  }

  lemma CutAfterTwo(a: Service, b: Service, c: Service)
    ensures Cuts([], [a, b, c], 0, 2) == [[a, b]] && Leftover([], [a, b, c], 0, 2) == [c]
  {
    assert [a, b, c][1..] == [b, c] && [b, c][1..] == [c] && [c][1..] == [];
    assert [] + [a] == [a] && [a] + [b] == [a, b] && [] + [c] == [c];
    assert Cuts([c], [], 1, 2) == [] && Leftover([c], [], 1, 2) == [c];
    assert Cuts([], [c], 0, 2) == [] && Leftover([], [c], 0, 2) == [c];
    assert Leftover([a], [b, c], 1, 2) == [c];
    assert Cuts([a], [b, c], 1, 2) == [[a, b]] + [];
  }

  // ---------------------------------------------------------------------
  // The loop

  /** One output, with its groups packed. */
  ghost predicate PackedFrom(q: Request, r: Request) {
    && r.context == q.context && r.resources == q.resources
    && GroupPacking.Packs(q.groups, r.groups)
  }

  method Combine(buf: seq<Payload>, maxBytes: nat) returns (qq: seq<Request>)
    requires maxBytes > 0
    ensures qq == Finish(TakeAll(buf, maxBytes)).qq
  {
    var c, bq := 0, EMPTY;
    qq := [];
    for i := 0 to |buf|
      invariant var b := TakeAll(buf[..i], maxBytes); c == b.c && bq == b.bq && qq == b.qq
    {
      var p := buf[i];
      assert buf[..i + 1][..i] == buf[..i];
      if p.len > maxBytes {
        qq := SplitOversized(qq, p, maxBytes);
        continue;
      }
      if p.body.None? {
        continue;
      }
      var q := p.body.value;
      var status := CheckStatus(q);
      if status {
        if |bq.resources| > 0 {
          qq := qq + [bq];
          c, bq := 0, EMPTY;
        }
        qq := qq + [q];
        continue;
      }
      bq := bq.(context := bq.context.SetContext(q.context));
      bq := bq.(groups := bq.groups + q.groups);
      bq := bq.(resources := bq.resources + q.resources);
      c := c + p.len;
      if c >= maxBytes {
        qq := qq + [bq];
        c, bq := 0, EMPTY;
      }
    }
    assert buf[..|buf|] == buf;
    if |bq.resources| > 0 {
      qq := qq + [bq];
    }
  }

  method Build(buf: seq<Payload>, maxBytes: nat) returns (out: seq<Request>)
    requires maxBytes > 0
    ensures var qq := Finish(TakeAll(buf, maxBytes)).qq;
      |out| == |qq| && forall i :: 0 <= i < |qq| ==> PackedFrom(qq[i], out[i])
    ensures NoneOversized(buf, maxBytes) ==> ResourcesOf(out) == ResourcesIn(buf)
  {
    var qq := Combine(buf, maxBytes);
    out := [];
    for i := 0 to |qq|
      invariant |out| == i
      invariant forall k :: 0 <= k < i ==> PackedFrom(qq[k], out[k])
    {
      var groups := GroupPacking.PackGroups(qq[i].groups);
      out := out + [qq[i].(groups := groups)];
    }
    SameResources(qq, out);
    if NoneOversized(buf, maxBytes) {
      BuildConserves(buf, maxBytes);
    }
  }

  lemma {:induction false} SameResources(qq: seq<Request>, out: seq<Request>)
    requires |out| == |qq| && forall i :: 0 <= i < |qq| ==> out[i].resources == qq[i].resources
    ensures ResourcesOf(out) == ResourcesOf(qq)
  {
    if qq != [] {
      SameResources(qq[1..], out[1..]);
    }
  }
}
