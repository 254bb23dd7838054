/**
 * The two wire formats of queued payloads (services/services.go). A byte of the wire
 * is the character with that code.
 */
module Payload {
  import opened Wrappers
  import opened JsonText
  import Decimal
  import TraceToken

  type Byte = TraceToken.Byte

  /** A payload with its type's number and its span context. */
  datatype Message = Message(kind: nat, payload: string, spanID: seq<Byte>, traceID: seq<Byte>, flags: nat)

  /** The widths of the fields. */
  predicate Fits(p: Message) { p.kind < 256 && |p.spanID| == 8 && |p.traceID| == 16 && p.flags < 256 }

  /** How decoding ends, with the message as it is then. */
  datatype Outcome = Done(p: Message) | Failed(p: Message) | Panics(p: Message)

  // ---------------------------------------------------------------------
  // Type names

  const NAMES: seq<string> := [
    "undefined", "events", "eventsAck", "eventsUnack", "inventory", "metrics", "clearInDowntime", "setInDowntime"]

  /** The first type from i on with that name. */
  function Find(name: string, i: nat): Option<nat>
    requires i <= |NAMES|
    decreases |NAMES| - i
  {
    if i == |NAMES| then None else if NAMES[i] == name then Some(i) else Find(name, i + 1)
  }

  lemma NamesDistinct(i: nat, j: nat)
    requires i < |NAMES| && j < |NAMES| && i != j
    ensures NAMES[i] != NAMES[j]
  {
    assert NAMES[0][0] == 'u' && NAMES[2][0] == 'e' && NAMES[4][0] == 'i';
  }

  lemma {:induction false} FindFrom(k: nat, i: nat)
    requires i <= k < |NAMES|
    ensures Find(NAMES[k], i) == Some(k)
    decreases k - i
  {
    if i < k {
      NamesDistinct(i, k);
      FindFrom(k, i + 1);
    }
  }

  lemma {:induction false} FindIsName(name: string, i: nat)
    requires i <= |NAMES|
    ensures Find(name, i).Some? ==> Find(name, i).value < |NAMES| && NAMES[Find(name, i).value] == name
    ensures Find(name, i).None? ==> forall k :: i <= k < |NAMES| ==> NAMES[k] != name
    decreases |NAMES| - i
  {
    if i < |NAMES| && NAMES[i] != name {
      FindIsName(name, i + 1);
    }
  }

  /** A type is the one its name is read as; other names are refused. */
  lemma NameReadsBack(k: nat, name: string)
    requires k < |NAMES|
    ensures Find(name, 0) == Some(k) <==> name == NAMES[k]
  {
    FindFrom(k, 0);
    FindIsName(name, 0);
  }

  method FromStr(name: string) returns (kind: Option<nat>)
    ensures kind == Find(name, 0)
  {
    for i := 0 to |NAMES|
      invariant Find(name, 0) == Find(name, i)
    {
      if NAMES[i] == name {
        return Some(i);
      }
    }
    return None;
  }

  // ---------------------------------------------------------------------
  // Bytes and hexadecimal digits

  function Chars(s: seq<Byte>): (r: string)
    ensures |r| == |s| && forall i :: 0 <= i < |s| ==> r[i] == s[i] as char
  {
    seq(|s|, i requires 0 <= i < |s| => s[i] as char)
  }

  function Code(c: char): Byte { c as int % 256 }

  function Codes(s: string): (r: seq<Byte>)
    ensures |r| == |s| && forall i :: 0 <= i < |s| ==> r[i] == Code(s[i])
  {
    seq(|s|, i requires 0 <= i < |s| => Code(s[i]))
  }

  lemma CodesOfChars(s: seq<Byte>)
    ensures Codes(Chars(s)) == s
  {
  }

  /** Copies into an array of n bytes: the rest stays zero, and what is too much is left out. */
  function Fill(s: seq<Byte>, n: nat): (r: seq<Byte>)
    ensures |r| == n
  {
    if |s| >= n then s[..n] else s + seq(n - |s|, i => 0)
  }

  function HexValue(c: char): (d: Option<nat>)
    ensures d.Some? <==> IsHex(c)
    ensures d.Some? ==> d.value < 16
  {
    if '0' <= c <= '9' then Some(c as int - '0' as int)
    else if 'a' <= c <= 'f' then Some(c as int - 'a' as int + 10)
    else if 'A' <= c <= 'F' then Some(c as int - 'A' as int + 10)
    else None
  }

  /** Reads hexadecimal digits of either case; their number must be even. */
  function Unhex(s: string): Option<seq<Byte>>
    decreases |s|
  {
    if s == [] then Some([])
    else if |s| == 1 then None
    else
      var a, b, rest := HexValue(s[0]), HexValue(s[1]), Unhex(s[2..]);
      if a.Some? && b.Some? && rest.Some? then Some([16 * a.value + b.value] + rest.value) else None
  }

  lemma {:induction false} UnhexHex(s: seq<Byte>)
    ensures Unhex(TraceToken.Hex(s)) == Some(s)
  {
    if s != [] {
      UnhexHex(s[1..]);
      var h := TraceToken.Hex(s);
      assert h[2..] == TraceToken.Hex(s[1..]);
      assert [16 * (s[0] / 16) + s[0] % 16] + s[1..] == s;
      assert HexValue(h[0]) == Some(s[0] / 16) && HexValue(h[1]) == Some(s[0] % 16);
    }
  }

  lemma {:induction false} HexIsPlain(s: seq<Byte>)
    ensures Plain(TraceToken.Hex(s))
  {
    if s != [] {
      HexIsPlain(s[1..]);
    }
  }

  // ---------------------------------------------------------------------
  // Format 1

  function MarshalV1(p: Message): string
    requires Fits(p)
  {
    [p.kind as char] + Chars(p.spanID) + Chars(p.traceID) + [p.flags as char] + p.payload
  }

  /** Nine bytes or fewer are too few; from ten to twenty-five the flags are read beyond the end. */
  function UnmarshalV1(q: Message, input: string): Outcome
    requires input != []
  {
    var p := q.(kind := Code(input[0]));
    if |input| < 10 then Failed(p)
    else if |input| < 26 then Panics(p)
    else Done(Message(p.kind, input[26..], Codes(input[1..9]), Codes(input[9..25]), Code(input[25])))
  }

  // ---------------------------------------------------------------------
  // Format 2

  const PREFIX := "{\"v2\":"

  /** A type without a name makes the name table's index go out of range. */
  function MarshalV2(p: Message): Option<string> {
    if p.kind >= |NAMES| then None
    else Some("{\"v2\":{\"type\":\"" + NAMES[p.kind] + "\",\"payload\":" + p.payload
              + ",\"spanID\":\"" + TraceToken.Hex(p.spanID) + "\",\"traceID\":\"" + TraceToken.Hex(p.traceID)
              + "\",\"traceFlags\":" + Decimal.Print(p.flags) + "}}")
  }

  /** The structure the JSON object is decoded into. */
  datatype Fields = Fields(kind: string, payload: string, spanID: string, traceID: string, flags: nat)

  const NO_FIELDS := Fields("", "", "", "", 0)

  /** A string field: null leaves it as it is, anything but a string is an error. */
  function Text(was: string, v: string): Option<string> {
    if v == "null" then Some(was) else if |v| >= 2 && v[0] == '"' then Some(v[1..|v| - 1]) else None
  }

  predicate AllDigits(v: string) { forall i :: 0 <= i < |v| ==> Decimal.IsDigit(v[i]) }

  /** An 8-bit field. */
  function Small(was: nat, v: string): Option<nat> {
    if v == "null" then Some(was)
    else if v != [] && AllDigits(v) && Decimal.Value(v) < 256 then Some(Decimal.Value(v))
    else None
  }

  /** One member is stored; other names are passed over. The payload's value is kept as written. */
  function Store(f: Fields, m: Member): Option<Fields> {
    if m.name == "type" then
      match Text(f.kind, m.value) case None => None case Some(t) => Some(f.(kind := t))
    else if m.name == "payload" then Some(f.(payload := m.value))
    else if m.name == "spanID" then
      match Text(f.spanID, m.value) case None => None case Some(t) => Some(f.(spanID := t))
    else if m.name == "traceID" then
      match Text(f.traceID, m.value) case None => None case Some(t) => Some(f.(traceID := t))
    else if m.name == "traceFlags" then
      match Small(f.flags, m.value) case None => None case Some(n) => Some(f.(flags := n))
    else Some(f)
  }

  function StoreAll(f: Fields, members: seq<Member>): Option<Fields>
    decreases |members|
  {
    if members == [] then Some(f)
    else match Store(f, members[0]) case None => None case Some(g) => StoreAll(g, members[1..])
  }

  /** Members with a name of their own, and null for all but the payload, do not count wherever they come. */
  predicate PassedOver(m: Member) {
    m.name !in {"type", "payload", "spanID", "traceID", "traceFlags"} || (m.name != "payload" && m.value == "null")
  }

  lemma {:induction false} PassedOverAnywhere(f: Fields, a: seq<Member>, m: Member, b: seq<Member>)
    requires PassedOver(m)
    ensures StoreAll(f, a + [m] + b) == StoreAll(f, a + b)
    decreases |a|
  {
    if a == [] {
      assert [] + [m] + b == [m] + b && [] + b == b && ([m] + b)[1..] == b;
    } else {
      assert (a + [m] + b)[1..] == a[1..] + [m] + b && (a + b)[1..] == a[1..] + b;
      if Store(f, a[0]).Some? {
        PassedOverAnywhere(Store(f, a[0]).value, a[1..], m, b);
      }
    }
  }

  /** The text must be one JSON value, and that an object or null. */
  function Decode(text: string): Option<Fields> {
    var s := Skip(text);
    var after := AfterValue(s);
    if after.None? || Skip(after.value) != [] then None
    else if Starts(s, '{') then
      var t := Skip(s[1..]);
      if Starts(t, '}') then Some(NO_FIELDS)
      else if Members(t).Some? then StoreAll(NO_FIELDS, Members(t).value.members)
      else None
    else if Starts(s, 'n') then Some(NO_FIELDS)
    else None
  }

  /** The message that decoded fields stand for. */
  function FromFields(f: Fields): Option<Message> {
    var span, trace, kind := Unhex(f.spanID), Unhex(f.traceID), Find(f.kind, 0);
    if span.None? || trace.None? || kind.None? then None
    else Some(Message(kind.value, f.payload, Fill(span.value, 8), Fill(trace.value, 16), f.flags))
  }

  /** Without its last byte and its first six; the prefix alone is too short for that. */
  function UnmarshalV2(q: Message, input: string): Outcome
    requires |input| >= 6
  {
    if |input| == 6 then Panics(q)
    else
      var f := Decode(input[6..|input| - 1]);
      if f.None? || FromFields(f.value).None? then Failed(q) else Done(FromFields(f.value).value)
  }

  // ---------------------------------------------------------------------
  // Either format

  predicate HasPrefix(s: string) { |s| >= |PREFIX| && s[..|PREFIX|] == PREFIX }

  function Unmarshal(q: Message, input: string): Outcome {
    if input == [] then Done(q)
    else if input[0] as int < 8 then UnmarshalV1(q, input)
    else if HasPrefix(input) then UnmarshalV2(q, input)
    else Failed(q)
  }

  /** Decoding panics on exactly these inputs. */
  lemma PanicsIff(q: Message, input: string)
    ensures Unmarshal(q, input).Panics? <==>
      (input != [] && input[0] as int < 8 && 10 <= |input| < 26) || input == PREFIX
  {
    if HasPrefix(input) && |input| == 6 {
      assert input == input[..6];
    }
  }

  /** What is decoded always has fields of the right widths and a type that has a name. */
  lemma DecodedFits(q: Message, input: string)
    requires input != [] && Unmarshal(q, input).Done?
    ensures Fits(Unmarshal(q, input).p) && Unmarshal(q, input).p.kind < |NAMES|
  {
    if input[0] as int >= 8 {
      var f := Decode(input[6..|input| - 1]).value;
      FindIsName(f.kind, 0);
      DecodedFlags(input[6..|input| - 1]);
    }
  }

  lemma DecodedFlags(text: string)
    ensures Decode(text).Some? ==> Decode(text).value.flags < 256
  {
    var t := Skip(Skip(text)[if Skip(text) == [] then 0 else 1..]);
    if Members(t).Some? {
      StoreFlags(NO_FIELDS, Members(t).value.members);
    }
  }

  lemma {:induction false} StoreFlags(f: Fields, members: seq<Member>)
    requires f.flags < 256
    ensures StoreAll(f, members).Some? ==> StoreAll(f, members).value.flags < 256
    decreases |members|
  {
    if members != [] && Store(f, members[0]).Some? {
      StoreFlags(Store(f, members[0]).value, members[1..]);
    }
  }

  // ---------------------------------------------------------------------
  // Round trips

  /** Where format 1 puts what: the type, eight and sixteen bytes of span and trace, the flags, then the payload. */
  lemma V1Layout(p: Message)
    requires Fits(p)
    ensures var text := MarshalV1(p);
      && |text| == 26 + |p.payload| && text[0] as int == p.kind && text[25] as int == p.flags
      && (forall i :: 0 <= i < 8 ==> text[1 + i] as int == p.spanID[i])
      && (forall i :: 0 <= i < 16 ==> text[9 + i] as int == p.traceID[i])
      && text[26..] == p.payload
  {
  }

  /** Format 1 reads back what it wrote exactly when the type is one of the eight, for any payload. */
  lemma V1ReadsBackIff(q: Message, p: Message)
    requires Fits(p)
    ensures Unmarshal(q, MarshalV1(p)) == Done(p) <==> p.kind < 8
  {
    var input := MarshalV1(p);
    assert input[0] == p.kind as char;
    if p.kind < 8 {
      assert input[1..9] == Chars(p.spanID) && input[9..25] == Chars(p.traceID);
      assert input[25] == p.flags as char && input[26..] == p.payload;
      CodesOfChars(p.spanID);
      CodesOfChars(p.traceID);
    } else if Unmarshal(q, input).Done? {
      DecodedFits(q, input);
    }
  }

  // ---------------------------------------------------------------------
  // Decoding in place

  /** The receiver that decoding assigns to. */
  class NatsPayload {
    var kind: nat
    var payload: string
    var spanID: seq<Byte>
    var traceID: seq<Byte>
    var flags: nat

    function View(): Message
      reads this
    {
      Message(kind, payload, spanID, traceID, flags)
    }

    constructor (p: Message)
      ensures View() == p
    {
      kind, payload, spanID, traceID, flags := p.kind, p.payload, p.spanID, p.traceID, p.flags;
    }

    /** Takes up to n bytes into an array of n; none left is the end of the input. */
    static method Read(buf: string, n: nat) returns (bytes: seq<Byte>, rest: string, eof: bool)
      requires n > 0
      ensures eof <==> buf == []
      ensures |bytes| == n && rest == (if |buf| < n then [] else buf[n..])
      ensures |buf| >= n ==> bytes == Codes(buf[..n])
    {
      eof := |buf| == 0;
      var k := if |buf| < n then |buf| else n;
      bytes, rest := Fill(Codes(buf[..k]), n), buf[k..];
    }

    method DecodeV1(input: string) returns (end: Outcome)
      requires input != []
      modifies this
      ensures end == UnmarshalV1(old(View()), input) && View() == end.p
    {
      kind := Code(input[0]);
      var buf := input[1..];
      var span, trace, eof;
      span, buf, eof := Read(buf, 8);
      if eof {
        return Failed(View());
      }
      assert |input| >= 9 ==> buf == input[9..];
      trace, buf, eof := Read(buf, 16);
      if eof {
        return Failed(View());
      }
      if buf == [] {
        return Panics(View());
      }
      flags := Code(buf[0]);
      payload := buf[1..];
      spanID, traceID := span, trace;
      end := Done(View());
    }

    method DecodeV2(input: string) returns (end: Outcome)
      requires |input| >= 6
      modifies this
      ensures end == UnmarshalV2(old(View()), input) && View() == end.p
    {
      if |input| == 6 {
        return Panics(View());
      }
      var f := Decode(input[6..|input| - 1]);
      if f.None? {
        return Failed(View());
      }
      var span := Unhex(f.value.spanID);
      if span.None? {
        return Failed(View());
      }
      var trace := Unhex(f.value.traceID);
      if trace.None? {
        return Failed(View());
      }
      var pt := FromStr(f.value.kind);
      if pt.None? {
        return Failed(View());
      }
      kind, payload, flags := pt.value, f.value.payload, f.value.flags;
      spanID, traceID := Fill(span.value, 8), Fill(trace.value, 16);
      end := Done(View());
    }

    method Receive(input: string) returns (end: Outcome)
      modifies this
      ensures end == Unmarshal(old(View()), input) && View() == end.p
    {
      if |input| == 0 {
        return Done(View());
      }
      if input[0] as int < 8 {
        end := DecodeV1(input);
      } else if |input| >= 6 && input[..6] == PREFIX {
        end := DecodeV2(input);
      } else {
        end := Failed(View());
      }
    }
  }

}
