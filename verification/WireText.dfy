/**
 * Format 2 of the queued payloads as text (services/services.go, marshalV2 and
 * unmarshalV2): the results first, then the members that are written and the proofs.
 */
module WireText {
  import opened Wrappers
  import opened JsonText
  import opened Payload
  import Decimal
  import Seqs
  import TraceToken

  /**
   * Format 2 writes a message and reads it back exactly when its type has a name and
   * its payload is one JSON value without white space around it.
   */
  lemma V2ReadsBackIff(q: Message, p: Message)
    requires Fits(p)
    ensures (MarshalV2(p).Some? && Unmarshal(q, MarshalV2(p).value) == Done(p)) <==> (p.kind < 8 && IsValue(p.payload))
  {
    if p.kind < 8 {
      V2Decodes(q, p);
      if IsValue(p.payload) {
        DecodesWritten(p);
        FieldsReadBack(p);
      } else {
        OtherPayload(p);
      }
    }
  }

  // ---------------------------------------------------------------------
  // The text as it is put together

  function KindMember(p: Message): Member
    requires p.kind < |NAMES|
  {
    Member("type", Quoted(NAMES[p.kind]))
  }

  function SpanMember(p: Message): Member { Member("spanID", Quoted(TraceToken.Hex(p.spanID))) }

  function TraceMember(p: Message): Member { Member("traceID", Quoted(TraceToken.Hex(p.traceID))) }

  function FlagsMember(p: Message): Member { Member("traceFlags", Decimal.Print(p.flags)) }

  function PayloadMember(p: Message): Member { Member("payload", p.payload) }

  /** The inner object's text from the last member, the one before, and so on. */
  function FromFlags(p: Message): string { Write(FlagsMember(p)) + "}" }

  function FromTrace(p: Message): string { Write(TraceMember(p)) + ("," + FromFlags(p)) }

  function FromSpan(p: Message): string { Write(SpanMember(p)) + ("," + FromTrace(p)) }

  function FromPayload(p: Message): string { Write(PayloadMember(p)) + ("," + FromSpan(p)) }

  function Inner(p: Message): string
    requires p.kind < |NAMES|
  {
    Write(KindMember(p)) + ("," + FromPayload(p))
  }

  lemma Regroup(x: string, a: string, b: string, c: string)
    ensures x + a + b + c == x + (a + b + c)
  {
  }

  /** A string member put together from the pieces that are appended. */
  lemma StringMember(name: string, text: string, rest: string)
    ensures ",\"" + name + "\":\"" + text + ("\"" + rest) == "," + (Write(Member(name, Quoted(text))) + rest)
  {
    assert ",\"" == "," + "\"" && "\":\"" == "\"" + ":" + "\"";
    assert Write(Member(name, Quoted(text))) == "\"" + name + "\"" + ":" + "\"" + text + "\"";
  }

  lemma FlagsText(p: Message)
    ensures "\",\"traceFlags\":" + Decimal.Print(p.flags) + "}}" == "\"" + ("," + FromFlags(p)) + "}"
  {
    var flags := Decimal.Print(p.flags);
    assert "\",\"traceFlags\":" == "\"" + "," + (Quoted("traceFlags") + ":");
    assert "}}" == "}" + "}";
  }

  lemma TraceText(p: Message)
    ensures "\",\"traceID\":\"" + TraceToken.Hex(p.traceID) + ("\"" + ("," + FromFlags(p)) + "}")
            == "\"" + ("," + FromTrace(p)) + "}"
  {
    var text, rest := TraceToken.Hex(p.traceID), "," + FromFlags(p);
    StringMember("traceID", text, rest);
    assert "\",\"traceID\":\"" == "\"" + (",\"" + "traceID" + "\":\"");
    Wrapped(",\"" + "traceID" + "\":\"", text, rest);
  }

  lemma Wrapped(head: string, text: string, rest: string)
    ensures "\"" + head + text + ("\"" + rest + "}") == "\"" + (head + text + ("\"" + rest)) + "}"
  {
  }

  lemma SpanText(p: Message)
    ensures ",\"spanID\":\"" + TraceToken.Hex(p.spanID) + ("\"" + ("," + FromTrace(p)) + "}") == "," + FromSpan(p) + "}"
  {
    var text, rest := TraceToken.Hex(p.spanID), "," + FromTrace(p);
    StringMember("spanID", text, rest);
    assert ",\"spanID\":\"" == ",\"" + "spanID" + "\":\"";
    Seqs.Assoc(",\"" + "spanID" + "\":\"" + text, "\"" + rest, "}");
  }

  lemma PayloadText(p: Message)
    ensures "\",\"payload\":" + p.payload + ("," + FromSpan(p) + "}") == "\"" + ("," + FromPayload(p)) + "}"
  {
    var rest := "," + FromSpan(p);
    assert "\",\"payload\":" == "\"" + "," + (Quoted("payload") + ":");
    assert Write(PayloadMember(p)) == Quoted("payload") + ":" + p.payload;
    Enclosed(Quoted("payload") + ":", p.payload, rest);
  }

  lemma Enclosed(head: string, text: string, rest: string)
    ensures "\"" + "," + head + text + (rest + "}") == "\"" + ("," + (head + text + rest)) + "}"
  {
  }

  lemma KindText(p: Message)
    requires p.kind < |NAMES|
    ensures "{\"v2\":{\"type\":\"" + NAMES[p.kind] + ("\"" + ("," + FromPayload(p)) + "}") == PREFIX + ("{" + Inner(p)) + "}"
  {
    var name, rest := NAMES[p.kind], "," + FromPayload(p);
    var head := Quoted("type") + ":" + "\"";
    assert "{\"v2\":{\"type\":\"" == PREFIX + "{" + head;
    assert Write(KindMember(p)) == head + name + "\"";
    Opened(head, name, rest);
  }

  lemma Opened(head: string, text: string, rest: string)
    ensures PREFIX + "{" + head + text + ("\"" + rest + "}") == PREFIX + ("{" + (head + text + "\"" + rest)) + "}"
  {
  }

  /** The appended pieces are the prefix, an object with five members, and a closing brace. */
  lemma V2Layout(p: Message)
    requires p.kind < |NAMES|
    ensures MarshalV2(p) == Some(PREFIX + ("{" + Inner(p)) + "}")
  {
    var start := "{\"v2\":{\"type\":\"" + NAMES[p.kind];
    var span, trace := TraceToken.Hex(p.spanID), TraceToken.Hex(p.traceID);
    FlagsText(p);
    TraceText(p);
    SpanText(p);
    PayloadText(p);
    KindText(p);
    Pieces(start, "\",\"payload\":", p.payload, ",\"spanID\":\"", span, "\",\"traceID\":\"", trace,
           "\",\"traceFlags\":", Decimal.Print(p.flags), "}}");
  }

  lemma Pieces(a: string, b: string, c: string, d: string, e: string, f: string, g: string, h: string, i: string, j: string)
    ensures a + b + c + d + e + f + g + h + i + j == a + (b + c + (d + e + (f + g + (h + i + j))))
  {
    Regroup(a + b + c + d + e + f + g, h, i, j);
    Regroup(a + b + c + d + e, f, g, h + i + j);
    Regroup(a + b + c, d, e, f + g + (h + i + j));
    Regroup(a, b, c, d + e + (f + g + (h + i + j)));
  }

  // Decimal numerals are JSON numbers.

  lemma {:induction false} DigitsRead(s: string)
    requires AllDigits(s)
    ensures AfterDigits(s) == []
    decreases |s|
  {
    if s != [] {
      DigitsRead(s[1..]);
    }
  }

  lemma {:induction false} NoLeadingZero(n: nat)
    requires n > 0
    ensures Decimal.Print(n)[0] != '0'
  {
    if n >= 10 {
      NoLeadingZero(n / 10);
    }
  }

  lemma NumeralIsValue(n: nat)
    ensures IsValue(Decimal.Print(n))
  {
    var s := Decimal.Print(n);
    if n > 0 {
      NoLeadingZero(n);
    }
    assert s[0] != '-' && Decimal.IsDigit(s[0]);
    DigitsRead(s[1..]);
    assert s[0] == '0' ==> s[1..] == [];
    assert AfterNumber(s) == Some([]);
  }

  function MembersOf(p: Message): seq<Member>
    requires p.kind < |NAMES|
  {
    [KindMember(p), PayloadMember(p), SpanMember(p), TraceMember(p), FlagsMember(p)]
  }

  lemma NamesPlain(k: nat)
    requires k < |NAMES|
    ensures Plain(NAMES[k])
  {
  }

  lemma HexIsValue(bytes: seq<Byte>)
    ensures IsValue(Quoted(TraceToken.Hex(bytes)))
  {
    HexIsPlain(bytes);
    QuotedIsValue(TraceToken.Hex(bytes));
  }

  lemma KindIsValue(k: nat)
    requires k < |NAMES|
    ensures IsValue(Quoted(NAMES[k]))
  {
    NamesPlain(k);
    QuotedIsValue(NAMES[k]);
  }

  lemma MembersWritable(p: Message)
    requires p.kind < |NAMES| && IsValue(p.payload)
    ensures Writable(MembersOf(p))
  {
    KindIsValue(p.kind);
    HexIsValue(p.spanID);
    HexIsValue(p.traceID);
    NumeralIsValue(p.flags);
    MemberNames(KindMember(p), PayloadMember(p), SpanMember(p), TraceMember(p), FlagsMember(p));
  }

  lemma MemberNames(a: Member, b: Member, c: Member, d: Member, e: Member)
    requires a.name == "type" && b.name == "payload" && c.name == "spanID" && d.name == "traceID" && e.name == "traceFlags"
    requires IsValue(a.value) && IsValue(b.value) && IsValue(c.value) && IsValue(d.value) && IsValue(e.value)
    ensures Writable([a, b, c, d, e])
  {
  }

  lemma InnerIsWritten(p: Message)
    requires p.kind < |NAMES|
    ensures Inner(p) == WriteAll(MembersOf(p))
  {
    var ms := MembersOf(p);
    assert WriteAll(ms[4..]) == FromFlags(p);
    assert WriteAll(ms[3..]) == FromTrace(p) by { assert ms[3..][1..] == ms[4..]; }
    assert WriteAll(ms[2..]) == FromSpan(p) by { assert ms[2..][1..] == ms[3..]; }
    assert WriteAll(ms[1..]) == FromPayload(p) by { assert ms[1..][1..] == ms[2..]; }
  }

  /** Format 2 is an object in the member v2: type, payload, both numbers in hexadecimal, and the flags. */
  lemma V2Text(p: Message)
    requires p.kind < |NAMES|
    ensures MarshalV2(p) == Some("{\"v2\":{" + WriteAll([
      Member("type", Quoted(NAMES[p.kind])), Member("payload", p.payload),
      Member("spanID", Quoted(TraceToken.Hex(p.spanID))), Member("traceID", Quoted(TraceToken.Hex(p.traceID))),
      Member("traceFlags", Decimal.Print(p.flags))]) + "}")
  {
    V2Layout(p);
    InnerIsWritten(p);
    Seqs.Assoc(PREFIX, "{", Inner(p));
    assert PREFIX + "{" == "{\"v2\":{";
  }

  lemma DecodeWritten(members: seq<Member>)
    requires Writable(members)
    ensures Decode("{" + WriteAll(members)) == StoreAll(NO_FIELDS, members)
  {
    var inner := WriteAll(members);
    var text := "{" + inner;
    ReadAll(members);
    assert text[1..] == inner && inner[0] == '"';
    assert Skip(inner) == inner && Skip(text) == text;
  }

  lemma TextOfQuoted(was: string, text: string)
    ensures Text(was, Quoted(text)) == Some(text)
  {
    assert Quoted(text)[0] == '"' && Quoted(text)[1..|text| + 1] == text;
  }

  lemma FlagsRead(was: nat, n: nat)
    requires n < 256
    ensures Small(was, Decimal.Print(n)) == Some(n)
  {
    Decimal.ValuePrint(n);
    assert Decimal.IsDigit(Decimal.Print(n)[0]);
  }

  lemma MembersStored(p: Message)
    requires p.kind < |NAMES| && p.flags < 256
    ensures StoreAll(NO_FIELDS, MembersOf(p))
            == Some(Fields(NAMES[p.kind], p.payload, TraceToken.Hex(p.spanID), TraceToken.Hex(p.traceID), p.flags))
  {
    var ms := MembersOf(p);
    TextOfQuoted("", NAMES[p.kind]);
    TextOfQuoted("", TraceToken.Hex(p.spanID));
    TextOfQuoted("", TraceToken.Hex(p.traceID));
    FlagsRead(0, p.flags);
    var f1 := NO_FIELDS.(kind := NAMES[p.kind]);
    var f2 := f1.(payload := p.payload);
    var f3 := f2.(spanID := TraceToken.Hex(p.spanID));
    var f4 := f3.(traceID := TraceToken.Hex(p.traceID));
    StoreNext(NO_FIELDS, ms, f1);
    StoreNext(f1, ms[1..], f2);
    StoreNext(f2, ms[2..], f3);
    StoreNext(f3, ms[3..], f4);
    StoreNext(f4, ms[4..], f4.(flags := p.flags));
  }

  lemma StoreNext(f: Fields, members: seq<Member>, g: Fields)
    requires members != [] && Store(f, members[0]) == Some(g)
    ensures StoreAll(f, members) == StoreAll(g, members[1..])
  {
  }

  /** Without a payload there is no value after its name. */
  lemma NoValue(name: string, rest: string)
    requires Plain(name) && Starts(rest, ',')
    ensures Members(Quoted(name) + ":" + rest).None?
  {
    var text := Quoted(name) + ":" + rest;
    assert text[1..] == name + "\"" + (":" + rest);
    PlainString(name, ":" + rest);
    assert (":" + rest)[1..] == rest;
    assert Name(text).value.after == rest;
    CommaIsNoValue(rest);
  }

  lemma NoPayloadText(p: Message)
    requires p.payload == ""
    ensures FromPayload(p) == Quoted("payload") + ":" + ("," + FromSpan(p))
  {
  }

  lemma CommaIsNoValue(s: string)
    requires Starts(s, ',')
    ensures AfterValue(s).None?
  {
  }

  lemma NoPayloadFails(p: Message)
    requires p.kind < |NAMES| && p.payload == ""
    ensures Members(Inner(p)).None?
  {
    var payload := FromPayload(p);
    NoPayloadText(p);
    NoValue("payload", "," + FromSpan(p));
    NamesPlain(p.kind);
    QuotedIsValue(NAMES[p.kind]);
    WriteMember(KindMember(p), "," + payload);
    assert ("," + payload)[1..] == payload;
    assert payload[0] == '"';
  }

  lemma {:induction false} StoredPayload(f: Fields, members: seq<Member>)
    requires AllValues(members) && (f.payload == "" || IsValue(f.payload))
    ensures StoreAll(f, members).Some? ==>
      StoreAll(f, members).value.payload == "" || IsValue(StoreAll(f, members).value.payload)
    decreases |members|
  {
    if members != [] && Store(f, members[0]).Some? {
      assert IsValue(members[0].value);
      StoredPayload(Store(f, members[0]).value, members[1..]);
    }
  }

  lemma DecodesWritten(p: Message)
    requires p.kind < |NAMES| && p.flags < 256 && IsValue(p.payload)
    ensures Decode("{" + Inner(p))
            == Some(Fields(NAMES[p.kind], p.payload, TraceToken.Hex(p.spanID), TraceToken.Hex(p.traceID), p.flags))
  {
    MembersWritable(p);
    InnerIsWritten(p);
    DecodeWritten(MembersOf(p));
    MembersStored(p);
  }

  lemma FieldsReadBack(p: Message)
    requires Fits(p) && p.kind < |NAMES|
    ensures FromFields(Fields(NAMES[p.kind], p.payload, TraceToken.Hex(p.spanID), TraceToken.Hex(p.traceID), p.flags))
            == Some(p)
  {
    UnhexHex(p.spanID);
    UnhexHex(p.traceID);
    NameReadsBack(p.kind, NAMES[p.kind]);
    FilledAlready(p.spanID, 8);
    FilledAlready(p.traceID, 16);
  }

  lemma FilledAlready(s: seq<Byte>, n: nat)
    requires |s| == n
    ensures Fill(s, n) == s
  {
  }

  lemma OtherPayload(p: Message)
    requires p.kind < |NAMES| && !IsValue(p.payload)
    ensures var f := Decode("{" + Inner(p)); f.None? || f.value.payload != p.payload
  {
    if p.payload == "" {
      NoPayloadFails(p);
    } else if Members(Inner(p)).Some? {
      MembersAreValues(Inner(p));
      StoredPayload(NO_FIELDS, Members(Inner(p)).value.members);
    }
  }

  lemma V2Decodes(q: Message, p: Message)
    requires p.kind < |NAMES|
    ensures var f := Decode("{" + Inner(p));
      Unmarshal(q, MarshalV2(p).value)
      == if f.None? || FromFields(f.value).None? then Failed(q) else Done(FromFields(f.value).value)
  {
    var input := MarshalV2(p).value;
    V2Layout(p);
    assert input[..6] == PREFIX && input[6..|input| - 1] == "{" + Inner(p);
    assert input[0] == '{';
  }
}
