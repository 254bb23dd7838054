/**
 * The texts that a JSON decoder accepts (RFC 8259): what one value takes from the
 * front of a text, and the members of an object with their values as written.
 */
module JsonText {
  import opened Wrappers
  import opened Decimal

  predicate IsSpace(c: char) { c == ' ' || c == '\t' || c == '\n' || c == '\r' }

  /** White space skipped (section 2). */
  function Skip(s: string): (r: string)
    ensures |r| <= |s|
    decreases |s|
  {
    if s != [] && IsSpace(s[0]) then Skip(s[1..]) else s
  }

  predicate IsHex(c: char) { IsDigit(c) || 'a' <= c <= 'f' || 'A' <= c <= 'F' }

  predicate IsEscape(c: char) {
    c == '"' || c == '\\' || c == '/' || c == 'b' || c == 'f' || c == 'n' || c == 'r' || c == 't'
  }

  /** What follows a string, after its opening quotation mark (section 7). */
  function AfterString(s: string): (r: Option<string>)
    ensures r.Some? ==> |r.value| < |s|
    decreases |s|
  {
    if s == [] then None
    else if s[0] == '"' then Some(s[1..])
    else if s[0] == '\\' then
      if |s| >= 2 && IsEscape(s[1]) then AfterString(s[2..])
      else if |s| >= 6 && s[1] == 'u' && IsHex(s[2]) && IsHex(s[3]) && IsHex(s[4]) && IsHex(s[5]) then AfterString(s[6..])
      else None
    else if s[0] < ' ' then None
    else AfterString(s[1..])
  }

  function AfterDigits(s: string): (r: string)
    ensures |r| <= |s|
    decreases |s|
  {
    if s != [] && IsDigit(s[0]) then AfterDigits(s[1..]) else s
  }

  function AfterExponent(s: string): (r: Option<string>)
    ensures r.Some? ==> |r.value| <= |s|
  {
    if s != [] && (s[0] == 'e' || s[0] == 'E') then
      var t := if |s| >= 2 && (s[1] == '+' || s[1] == '-') then s[2..] else s[1..];
      if t != [] && IsDigit(t[0]) then Some(AfterDigits(t[1..])) else None
    else Some(s)
  }

  function AfterFraction(s: string): (r: Option<string>)
    ensures r.Some? ==> |r.value| <= |s|
  {
    if s != [] && s[0] == '.' then
      if |s| >= 2 && IsDigit(s[1]) then AfterExponent(AfterDigits(s[2..])) else None
    else AfterExponent(s)
  }

  /** The text after a number's whole part. */
  function AfterWhole(t: string): (r: string)
    requires t != [] && IsDigit(t[0])
    ensures |r| < |t|
  {
    if t[0] == '0' then t[1..] else AfterDigits(t[1..])
  }

  /** What follows a number (section 6). */
  function AfterNumber(s: string): (r: Option<string>)
    ensures r.Some? ==> |r.value| < |s|
  {
    var t := if s != [] && s[0] == '-' then s[1..] else s;
    if t == [] || !IsDigit(t[0]) then None
    else AfterFraction(AfterWhole(t))
  }

  function AfterLiteral(s: string, word: string): (r: Option<string>)
    requires word != []
    ensures r.Some? ==> |r.value| < |s|
  {
    if |word| <= |s| && s[..|word|] == word then Some(s[|word|..]) else None
  }

  /** A value that is neither an object nor an array. */
  function AfterScalar(s: string): (r: Option<string>)
    requires s != []
    ensures r.Some? ==> |r.value| < |s|
  {
    if s[0] == '"' then AfterString(s[1..])
    else if s[0] == '-' || IsDigit(s[0]) then AfterNumber(s)
    else if s[0] == 't' then AfterLiteral(s, "true")
    else if s[0] == 'f' then AfterLiteral(s, "false")
    else AfterLiteral(s, "null")
  }

  predicate Starts(s: string, c: char) { s != [] && s[0] == c }

  /** What follows the value that s starts with, if it starts with one (section 3). */
  function AfterValue(s: string): (r: Option<string>)
    ensures r.Some? ==> |r.value| < |s|
    decreases |s|, 1
  {
    if Starts(s, '{') then
      var t := Skip(s[1..]);
      if Starts(t, '}') then Some(t[1..])
      else match Members(t) case None => None case Some(m) => Some(m.after)
    else if Starts(s, '[') then
      var t := Skip(s[1..]);
      if Starts(t, ']') then Some(t[1..]) else AfterElements(t)
    else if s == [] then None
    else AfterScalar(s)
  }

  /** The elements of an array that has some, up to its closing bracket (section 5). */
  function AfterElements(s: string): (r: Option<string>)
    ensures r.Some? ==> |r.value| < |s|
    decreases |s|, 2
  {
    var v := AfterValue(s);
    if v.None? then None
    else
      var u := Skip(v.value);
      if Starts(u, ']') then Some(u[1..])
      else if Starts(u, ',') then AfterElements(Skip(u[1..]))
      else None
  }

  /** A member's name and its value, both as written. */
  datatype Member = Member(name: string, value: string)

  datatype Found = Found(members: seq<Member>, after: string)

  datatype Named = Named(name: string, after: string)

  /** A member's name and the colon. */
  function Name(s: string): (r: Option<Named>)
    ensures r.Some? ==> |r.value.after| < |s|
  {
    if !Starts(s, '"') then None
    else match AfterString(s[1..])
      case None => None
      case Some(t) =>
        var u := Skip(t);
        if Starts(u, ':') then Some(Named(s[1..|s| - |t| - 1], Skip(u[1..]))) else None
  }

  /** The members of an object that has some, up to its closing brace (section 4). */
  function Members(s: string): (r: Option<Found>)
    ensures r.Some? ==> |r.value.after| < |s|
    decreases |s|, 0
  {
    match Name(s)
    case None => None
    case Some(n) => Valued(n)
  }

  /** A named member with its value, and those that follow it. */
  function Valued(n: Named): (r: Option<Found>)
    ensures r.Some? ==> |r.value.after| < |n.after|
    decreases |n.after|, 4
  {
    match AfterValue(n.after)
    case None => None
    case Some(t) => More(Member(n.name, n.after[..|n.after| - |t|]), t)
  }

  /** A member and those that follow it in s. */
  function More(m: Member, s: string): (r: Option<Found>)
    ensures r.Some? ==> |r.value.after| < |s|
    decreases |s|, 3
  {
    var u := Skip(s);
    if Starts(u, '}') then Some(Found([m], u[1..]))
    else if Starts(u, ',') then
      match Members(Skip(u[1..]))
      case None => None
      case Some(more) => Some(Found([m] + more.members, more.after))
    else None
  }

  /** One value, with nothing before or after it. */
  predicate IsValue(s: string) { AfterValue(s) == Some([]) }

  // ---------------------------------------------------------------------
  // What follows a text does not change how it is read

  /** A text that cannot continue a number. */
  predicate Closes(rest: string) {
    rest != [] && !IsDigit(rest[0]) && rest[0] != '.' && rest[0] != 'e' && rest[0] != 'E'
  }

  lemma Tail(s: string, rest: string, n: nat)
    requires n <= |s|
    ensures (s + rest)[n..] == s[n..] + rest
    ensures n < |s| ==> (s + rest)[n] == s[n]
  {
  }

  /** Reading more text after s leaves more after what was left. */
  predicate Longer(short: Option<string>, long: Option<string>, rest: string) {
    short.Some? ==> long == Some(short.value + rest)
  }

  /** The same, when that text could not have been read on into. */
  predicate LongerApart(short: Option<string>, long: Option<string>, rest: string) {
    short.Some? && (Closes(rest) || short.value != []) ==> long == Some(short.value + rest)
  }

  /** Read with more text after s, and that text not touched: the same without it. */
  predicate Shorter(short: Option<string>, long: Option<string>, rest: string) {
    long.Some? && |long.value| >= |rest| ==> short.Some? && long.value == short.value + rest
  }

  lemma {:induction false} SkipTail(s: string, rest: string)
    ensures Skip(s) != [] ==> Skip(s + rest) == Skip(s) + rest
    ensures Skip(s) == [] ==> |Skip(s + rest)| <= |rest|
    decreases |s|
  {
    if s != [] && IsSpace(s[0]) {
      Tail(s, rest, 1);
      SkipTail(s[1..], rest);
    } else if s == [] {
      assert s + rest == rest;
    }
  }

  lemma {:induction false} StringTail(s: string, rest: string)
    ensures Longer(AfterString(s), AfterString(s + rest), rest)
    ensures Shorter(AfterString(s), AfterString(s + rest), rest)
    decreases |s|
  {
    if s == [] {
      assert s + rest == rest;
    } else if s[0] == '"' {
      Tail(s, rest, 1);
    } else if s[0] == '\\' {
      EscapeTail(s, rest);
    } else if s[0] >= ' ' {
      Tail(s, rest, 1);
      StringTail(s[1..], rest);
    }
  }

  lemma {:induction false} EscapeTail(s: string, rest: string)
    requires Starts(s, '\\')
    ensures Longer(AfterString(s), AfterString(s + rest), rest)
    ensures Shorter(AfterString(s), AfterString(s + rest), rest)
    decreases |s|, 0
  {
    if |s| >= 2 && IsEscape(s[1]) {
      Tail(s, rest, 2);
      StringTail(s[2..], rest);
    } else if |s| >= 6 && s[1] == 'u' && IsHex(s[2]) && IsHex(s[3]) && IsHex(s[4]) && IsHex(s[5]) {
      Tail(s, rest, 6);
      StringTail(s[6..], rest);
    }
  }

  lemma {:induction false} DigitsTail(s: string, rest: string)
    ensures Closes(rest) || AfterDigits(s) != [] ==> AfterDigits(s + rest) == AfterDigits(s) + rest
    ensures |AfterDigits(s + rest)| >= |rest| ==> AfterDigits(s + rest) == AfterDigits(s) + rest
    decreases |s|
  {
    if s != [] && IsDigit(s[0]) {
      Tail(s, rest, 1);
      DigitsTail(s[1..], rest);
    } else if s == [] {
      assert s + rest == rest;
    }
  }

  lemma {:induction false} ExponentTail(s: string, rest: string)
    ensures LongerApart(AfterExponent(s), AfterExponent(s + rest), rest)
    ensures Shorter(AfterExponent(s), AfterExponent(s + rest), rest)
  {
    if s == [] {
      assert s + rest == rest;
    } else if s[0] == 'e' || s[0] == 'E' {
      var n := if |s| >= 2 && (s[1] == '+' || s[1] == '-') then 2 else 1;
      if n < |s| {
        Tail(s, rest, n);
        Tail(s[n..], rest, 1);
        DigitsTail(s[n..][1..], rest);
      }
    }
  }

  lemma {:induction false} FractionTail(s: string, rest: string)
    ensures LongerApart(AfterFraction(s), AfterFraction(s + rest), rest)
    ensures Shorter(AfterFraction(s), AfterFraction(s + rest), rest)
  {
    if Starts(s, '.') {
      if |s| >= 2 && IsDigit(s[1]) {
        Tail(s, rest, 2);
        DigitsTail(s[2..], rest);
        ExponentTail(AfterDigits(s[2..]), rest);
      }
    } else if s == [] {
      assert s + rest == rest;
    } else {
      ExponentTail(s, rest);
    }
  }

  lemma {:induction false} WholeTail(t: string, rest: string)
    requires t != [] && IsDigit(t[0])
    ensures LongerApart(AfterFraction(AfterWhole(t)), AfterFraction(AfterWhole(t + rest)), rest)
    ensures Shorter(AfterFraction(AfterWhole(t)), AfterFraction(AfterWhole(t + rest)), rest)
  {
    Tail(t, rest, 1);
    if t[0] == '0' {
      FractionTail(t[1..], rest);
    } else {
      DigitsTail(t[1..], rest);
      FractionTail(AfterDigits(t[1..]), rest);
    }
  }

  lemma {:induction false} NumberTail(s: string, rest: string)
    requires s != []
    ensures LongerApart(AfterNumber(s), AfterNumber(s + rest), rest)
    ensures Shorter(AfterNumber(s), AfterNumber(s + rest), rest)
  {
    var n := if s[0] == '-' then 1 else 0;
    Tail(s, rest, n);
    var t := s[n..];
    assert (s + rest)[n..] == t + rest;
    if t == [] {
      assert t + rest == rest;
    } else if IsDigit(t[0]) {
      WholeTail(t, rest);
    }
  }

  lemma {:induction false} LiteralTail(s: string, word: string, rest: string)
    requires word != []
    ensures Longer(AfterLiteral(s, word), AfterLiteral(s + rest, word), rest)
    ensures Shorter(AfterLiteral(s, word), AfterLiteral(s + rest, word), rest)
  {
    if |word| <= |s| {
      Tail(s, rest, |word|);
      assert (s + rest)[..|word|] == s[..|word|];
    }
  }

  lemma {:induction false} ScalarTail(s: string, rest: string)
    requires s != []
    ensures LongerApart(AfterScalar(s), AfterScalar(s + rest), rest)
    ensures Shorter(AfterScalar(s), AfterScalar(s + rest), rest)
  {
    Tail(s, rest, 1);
    if s[0] == '"' {
      StringTail(s[1..], rest);
    } else if s[0] == '-' || IsDigit(s[0]) {
      NumberTail(s, rest);
    } else if s[0] == 't' {
      LiteralTail(s, "true", rest);
    } else if s[0] == 'f' {
      LiteralTail(s, "false", rest);
    } else {
      LiteralTail(s, "null", rest);
    }
  }

  /** The same names and values with more text after them. */
  predicate FoundLonger(short: Option<Found>, long: Option<Found>, rest: string) {
    short.Some? ==> long == Some(Found(short.value.members, short.value.after + rest))
  }

  predicate FoundShorter(short: Option<Found>, long: Option<Found>, rest: string) {
    long.Some? && |long.value.after| >= |rest| ==>
      short.Some? && long == Some(Found(short.value.members, short.value.after + rest))
  }

  lemma {:induction false} ValueTail(s: string, rest: string)
    ensures LongerApart(AfterValue(s), AfterValue(s + rest), rest)
    ensures Shorter(AfterValue(s), AfterValue(s + rest), rest)
    decreases |s|, 1
  {
    if s == [] {
      assert s + rest == rest;
    } else if s[0] == '{' {
      ObjectTail(s, rest);
    } else if s[0] == '[' {
      ArrayTail(s, rest);
    } else {
      ScalarTail(s, rest);
    }
  }

  lemma {:induction false} ObjectTail(s: string, rest: string)
    requires Starts(s, '{')
    ensures Longer(AfterValue(s), AfterValue(s + rest), rest)
    ensures Shorter(AfterValue(s), AfterValue(s + rest), rest)
    decreases |s|, 0
  {
    Tail(s, rest, 1);
    SkipTail(s[1..], rest);
    var t := Skip(s[1..]);
    if t == [] {
      assert |Skip((s + rest)[1..])| <= |rest|;
    } else if t[0] == '}' {
      Tail(t, rest, 1);
    } else {
      MembersTail(t, rest);
    }
  }

  lemma {:induction false} ArrayTail(s: string, rest: string)
    requires Starts(s, '[')
    ensures Longer(AfterValue(s), AfterValue(s + rest), rest)
    ensures Shorter(AfterValue(s), AfterValue(s + rest), rest)
    decreases |s|, 0
  {
    Tail(s, rest, 1);
    SkipTail(s[1..], rest);
    var t := Skip(s[1..]);
    if t == [] {
      assert |Skip((s + rest)[1..])| <= |rest|;
    } else if t[0] == ']' {
      Tail(t, rest, 1);
    } else {
      ElementsTail(t, rest);
    }
  }

  lemma {:induction false} ElementsTail(s: string, rest: string)
    ensures Longer(AfterElements(s), AfterElements(s + rest), rest)
    ensures Shorter(AfterElements(s), AfterElements(s + rest), rest)
    decreases |s|, 2
  {
    ValueTail(s, rest);
    var v := AfterValue(s);
    if v.Some? && v.value != [] {
      SkipTail(v.value, rest);
      var u := Skip(v.value);
      if u != [] {
        Tail(u, rest, 1);
        if u[0] == ',' {
          SkipTail(u[1..], rest);
          if Skip(u[1..]) != [] {
            ElementsTail(Skip(u[1..]), rest);
          }
        }
      }
    }
  }

  predicate NameLonger(s: string, rest: string) {
    Name(s).Some? && Name(s).value.after != [] ==>
      Name(s + rest) == Some(Named(Name(s).value.name, Name(s).value.after + rest))
  }

  predicate NameShorter(s: string, rest: string) {
    Name(s + rest).Some? && |Name(s + rest).value.after| > |rest| ==>
      Name(s).Some? && Name(s + rest) == Some(Named(Name(s).value.name, Name(s).value.after + rest))
  }

  lemma {:induction false} NameTail(s: string, rest: string)
    ensures NameLonger(s, rest) && NameShorter(s, rest)
  {
    if s == [] {
      assert s + rest == rest;
    } else if s[0] == '"' {
      Tail(s, rest, 1);
      StringTail(s[1..], rest);
      var t := AfterString(s[1..]);
      if t.Some? {
        NameRest(s, rest, t.value);
      }
    }
  }

  lemma {:induction false} NameRest(s: string, rest: string, t: string)
    requires Starts(s, '"') && AfterString(s[1..]) == Some(t) && AfterString((s + rest)[1..]) == Some(t + rest)
    ensures NameLonger(s, rest) && NameShorter(s, rest)
  {
    assert (s + rest)[1..|s + rest| - |t + rest| - 1] == s[1..|s| - |t| - 1];
    SkipTail(t, rest);
    var u := Skip(t);
    if u != [] {
      Tail(u, rest, 1);
      SkipTail(u[1..], rest);
    }
  }

  lemma {:induction false} MembersTail(s: string, rest: string)
    ensures FoundLonger(Members(s), Members(s + rest), rest)
    ensures FoundShorter(Members(s), Members(s + rest), rest)
    decreases |s|, 0
  {
    NameTail(s, rest);
    if Name(s).Some? && Name(s).value.after != [] {
      ValuedTail(Name(s).value, rest);
    }
  }

  lemma {:induction false} ValuedTail(n: Named, rest: string)
    ensures FoundLonger(Valued(n), Valued(Named(n.name, n.after + rest)), rest)
    ensures FoundShorter(Valued(n), Valued(Named(n.name, n.after + rest)), rest)
    decreases |n.after|, 4
  {
    ValueTail(n.after, rest);
    var v := AfterValue(n.after);
    if v.Some? && v.value != [] {
      MoreTail(Member(n.name, n.after[..|n.after| - |v.value|]), v.value, rest);
      assert (n.after + rest)[..|n.after + rest| - |v.value + rest|] == n.after[..|n.after| - |v.value|];
    }
  }

  lemma {:induction false} MoreTail(m: Member, s: string, rest: string)
    ensures FoundLonger(More(m, s), More(m, s + rest), rest)
    ensures FoundShorter(More(m, s), More(m, s + rest), rest)
    decreases |s|, 3
  {
    SkipTail(s, rest);
    var u := Skip(s);
    if u != [] {
      Tail(u, rest, 1);
      if u[0] == ',' {
        SkipTail(u[1..], rest);
        if Skip(u[1..]) != [] {
          MembersTail(Skip(u[1..]), rest);
        }
      }
    }
  }

  // ---------------------------------------------------------------------
  // What is left is an end of the text, so that values as written are values

  predicate Ends(s: string, t: string) { |t| <= |s| && s[|s| - |t|..] == t }

  lemma EndsFrom(s: string, n: nat, t: string)
    requires n <= |s| && Ends(s[n..], t)
    ensures Ends(s, t)
  {
    assert s[|s| - |t|..] == s[n..][|s| - n - |t|..];
  }

  lemma EndsOfEnd(s: string, t: string, u: string)
    requires Ends(s, t) && Ends(t, u)
    ensures Ends(s, u)
  {
    EndsFrom(s, |s| - |t|, u);
  }

  lemma {:induction false} SkipEnds(s: string)
    ensures Ends(s, Skip(s))
    decreases |s|
  {
    if s != [] && IsSpace(s[0]) {
      SkipEnds(s[1..]);
      EndsFrom(s, 1, Skip(s));
    }
  }

  lemma {:induction false} StringEnds(s: string)
    ensures AfterString(s).Some? ==> Ends(s, AfterString(s).value)
    decreases |s|
  {
    if AfterString(s).Some? && s[0] != '"' {
      var n := if s[0] != '\\' then 1 else if IsEscape(s[1]) then 2 else 6;
      StringEnds(s[n..]);
      EndsFrom(s, n, AfterString(s).value);
    }
  }

  lemma {:induction false} DigitsEnds(s: string)
    ensures Ends(s, AfterDigits(s))
    decreases |s|
  {
    if s != [] && IsDigit(s[0]) {
      DigitsEnds(s[1..]);
      EndsFrom(s, 1, AfterDigits(s));
    }
  }

  lemma {:induction false} ExponentEnds(s: string)
    ensures AfterExponent(s).Some? ==> Ends(s, AfterExponent(s).value)
  {
    if AfterExponent(s).Some? && s != [] && (s[0] == 'e' || s[0] == 'E') {
      var n := if |s| >= 2 && (s[1] == '+' || s[1] == '-') then 2 else 1;
      DigitsEnds(s[n..][1..]);
      EndsFrom(s[n..], 1, AfterExponent(s).value);
      EndsFrom(s, n, AfterExponent(s).value);
    }
  }

  lemma {:induction false} FractionEnds(s: string)
    ensures AfterFraction(s).Some? ==> Ends(s, AfterFraction(s).value)
  {
    if AfterFraction(s).Some? {
      if Starts(s, '.') {
        DigitsEnds(s[2..]);
        ExponentEnds(AfterDigits(s[2..]));
        EndsOfEnd(s[2..], AfterDigits(s[2..]), AfterFraction(s).value);
        EndsFrom(s, 2, AfterFraction(s).value);
      } else {
        ExponentEnds(s);
      }
    }
  }

  lemma {:induction false} NumberEnds(s: string)
    requires s != []
    ensures AfterNumber(s).Some? ==> Ends(s, AfterNumber(s).value)
  {
    if AfterNumber(s).Some? {
      var n := if s[0] == '-' then 1 else 0;
      var t := s[n..];
      DigitsEnds(t[1..]);
      EndsFrom(t, 1, AfterWhole(t));
      FractionEnds(AfterWhole(t));
      EndsOfEnd(t, AfterWhole(t), AfterNumber(s).value);
      EndsFrom(s, n, AfterNumber(s).value);
    }
  }

  lemma {:induction false} ScalarEnds(s: string)
    requires s != []
    ensures AfterScalar(s).Some? ==> Ends(s, AfterScalar(s).value)
  {
    if AfterScalar(s).Some? {
      if s[0] == '"' {
        StringEnds(s[1..]);
        EndsFrom(s, 1, AfterScalar(s).value);
      } else if s[0] == '-' || IsDigit(s[0]) {
        NumberEnds(s);
      }
    }
  }

  lemma {:induction false} ValueEnds(s: string)
    ensures AfterValue(s).Some? ==> Ends(s, AfterValue(s).value)
    decreases |s|, 1
  {
    if Starts(s, '{') {
      ObjectEnds(s);
    } else if Starts(s, '[') {
      ArrayEnds(s);
    } else if s != [] {
      ScalarEnds(s);
    }
  }

  lemma {:induction false} ObjectEnds(s: string)
    requires Starts(s, '{')
    ensures AfterValue(s).Some? ==> Ends(s, AfterValue(s).value)
    decreases |s|, 0
  {
    if AfterValue(s).Some? {
      var t, r := Skip(s[1..]), AfterValue(s).value;
      if !Starts(t, '}') {
        MembersEnds(t);
      }
      AfterBracket(s, t, r);
    }
  }

  lemma {:induction false} ArrayEnds(s: string)
    requires Starts(s, '[')
    ensures AfterValue(s).Some? ==> Ends(s, AfterValue(s).value)
    decreases |s|, 0
  {
    if AfterValue(s).Some? {
      var t, r := Skip(s[1..]), AfterValue(s).value;
      if !Starts(t, ']') {
        ElementsEnds(t);
      }
      AfterBracket(s, t, r);
    }
  }

  lemma AfterBracket(s: string, t: string, r: string)
    requires s != [] && t == Skip(s[1..]) && Ends(t, r)
    ensures Ends(s, r)
  {
    SkipEnds(s[1..]);
    EndsOfEnd(s[1..], t, r);
    EndsFrom(s, 1, r);
  }

  lemma {:induction false} ElementsEnds(s: string)
    ensures AfterElements(s).Some? ==> Ends(s, AfterElements(s).value)
    decreases |s|, 2
  {
    if AfterElements(s).Some? {
      var r, v := AfterElements(s).value, AfterValue(s).value;
      var u := Skip(v);
      if u[0] == ',' {
        ElementsEnds(Skip(u[1..]));
        SkipEnds(u[1..]);
        EndsOfEnd(u[1..], Skip(u[1..]), r);
      }
      EndsFrom(u, 1, r);
      ValueEnds(s);
      SkipEnds(v);
      EndsOfEnd(v, u, r);
      EndsOfEnd(s, v, r);
    }
  }

  lemma {:induction false} NameEnds(s: string)
    ensures Name(s).Some? ==> Ends(s, Name(s).value.after)
  {
    if Name(s).Some? {
      var t, r := AfterString(s[1..]).value, Name(s).value.after;
      var u := Skip(t);
      StringEnds(s[1..]);
      SkipEnds(t);
      SkipEnds(u[1..]);
      EndsFrom(u, 1, r);
      EndsOfEnd(t, u, r);
      EndsOfEnd(s[1..], t, r);
      EndsFrom(s, 1, r);
    }
  }

  lemma {:induction false} MembersEnds(s: string)
    ensures Members(s).Some? ==> Ends(s, Members(s).value.after)
    decreases |s|, 0
  {
    if Members(s).Some? {
      var n := Name(s).value;
      NameEnds(s);
      ValuedEnds(n);
      EndsOfEnd(s, n.after, Valued(n).value.after);
    }
  }

  lemma {:induction false} ValuedEnds(n: Named)
    ensures Valued(n).Some? ==> Ends(n.after, Valued(n).value.after)
    decreases |n.after|, 4
  {
    if Valued(n).Some? {
      var t := AfterValue(n.after).value;
      ValueEnds(n.after);
      MoreEnds(Member(n.name, n.after[..|n.after| - |t|]), t);
      EndsOfEnd(n.after, t, Valued(n).value.after);
    }
  }

  lemma {:induction false} MoreEnds(m: Member, s: string)
    ensures More(m, s).Some? ==> Ends(s, More(m, s).value.after)
    decreases |s|, 3
  {
    if More(m, s).Some? {
      var u, r := Skip(s), More(m, s).value.after;
      if u[0] == ',' {
        MembersEnds(Skip(u[1..]));
        SkipEnds(u[1..]);
        EndsOfEnd(u[1..], Skip(u[1..]), r);
      }
      EndsFrom(u, 1, r);
      SkipEnds(s);
      EndsOfEnd(s, u, r);
    }
  }

  ghost predicate AllValues(members: seq<Member>) {
    forall i :: 0 <= i < |members| ==> IsValue(members[i].value)
  }

  /** A value as written is a value by itself. */
  lemma {:induction false} WrittenIsValue(s: string)
    ensures AfterValue(s).Some? ==> IsValue(s[..|s| - |AfterValue(s).value|])
  {
    if AfterValue(s).Some? {
      var t := AfterValue(s).value;
      ValueEnds(s);
      var v := s[..|s| - |t|];
      assert s == v + t;
      ValueTail(v, t);
      assert AfterValue(v).Some? && AfterValue(v).value + t == t;
    }
  }

  /** The values of the members that are found are values. */
  lemma {:induction false} MembersAreValues(s: string)
    ensures Members(s).Some? ==> AllValues(Members(s).value.members)
    decreases |s|, 0
  {
    if Members(s).Some? {
      ValuedAreValues(Name(s).value);
    }
  }

  lemma {:induction false} ValuedAreValues(n: Named)
    ensures Valued(n).Some? ==> AllValues(Valued(n).value.members)
    decreases |n.after|, 4
  {
    if Valued(n).Some? {
      WrittenIsValue(n.after);
      var t := AfterValue(n.after).value;
      MoreAreValues(Member(n.name, n.after[..|n.after| - |t|]), t);
    }
  }

  lemma {:induction false} MoreAreValues(m: Member, s: string)
    requires IsValue(m.value)
    ensures More(m, s).Some? ==> AllValues(More(m, s).value.members)
    decreases |s|, 3
  {
    if More(m, s).Some? {
      var u := Skip(s);
      if u[0] == ',' {
        MembersAreValues(Skip(u[1..]));
      }
    }
  }

  // ---------------------------------------------------------------------
  // Reading an object that was written without white space

  predicate IsPlain(c: char) { c != '"' && c != '\\' && c >= ' ' }

  predicate Plain(s: string) { forall i :: 0 <= i < |s| ==> IsPlain(s[i]) }

  lemma {:induction false} PlainString(text: string, rest: string)
    requires Plain(text)
    ensures AfterString(text + "\"" + rest) == Some(rest)
  {
    var s := text + "\"" + rest;
    if text == [] {
      assert s[1..] == rest;
    } else {
      PlainString(text[1..], rest);
      assert s[1..] == text[1..] + "\"" + rest;
    }
  }

  function Quoted(text: string): string { "\"" + text + "\"" }

  lemma QuotedIsValue(text: string)
    requires Plain(text)
    ensures IsValue(Quoted(text))
  {
    PlainString(text, []);
    assert Quoted(text)[1..] == text + "\"" + [];
  }

  function Write(m: Member): string { Quoted(m.name) + ":" + m.value }

  lemma WriteName(m: Member, rest: string)
    requires Plain(m.name) && IsValue(m.value)
    ensures Name(Write(m) + rest) == Some(Named(m.name, m.value + rest))
  {
    var s, after := Write(m) + rest, ":" + m.value + rest;
    assert s[1..] == m.name + "\"" + after;
    PlainString(m.name, after);
    assert after[1..] == m.value + rest;
    assert s[1..|s| - |after| - 1] == m.name;
  }

  lemma WriteMember(m: Member, rest: string)
    requires Plain(m.name) && IsValue(m.value) && Closes(rest) && !IsSpace(rest[0])
    ensures Members(Write(m) + rest) == More(m, rest)
  {
    WriteName(m, rest);
    ValueTail(m.value, rest);
    assert [] + rest == rest;
    assert (m.value + rest)[..|m.value|] == m.value;
  }

  lemma LastMember(m: Member, rest: string)
    requires Plain(m.name) && IsValue(m.value)
    ensures Members(Write(m) + ("}" + rest)) == Some(Found([m], rest))
  {
    WriteMember(m, "}" + rest);
  }

  lemma NextMember(m: Member, rest: string)
    requires Plain(m.name) && IsValue(m.value) && Members(rest).Some?
    ensures Members(Write(m) + ("," + rest)) == Some(Found([m] + Members(rest).value.members, Members(rest).value.after))
  {
    WriteMember(m, "," + rest);
    assert ("," + rest)[1..] == rest;
    assert rest[0] == '"';
  }

  function WriteAll(members: seq<Member>): string
    requires members != []
    decreases |members|
  {
    if |members| == 1 then Write(members[0]) + "}" else Write(members[0]) + ("," + WriteAll(members[1..]))
  }

  ghost predicate Writable(members: seq<Member>) {
    members != [] && forall i :: 0 <= i < |members| ==> Plain(members[i].name) && IsValue(members[i].value)
  }

  /** Members written one after the other are read back, in order. */
  lemma {:induction false} ReadAll(members: seq<Member>)
    requires Writable(members)
    ensures Members(WriteAll(members)) == Some(Found(members, []))
    decreases |members|
  {
    if |members| == 1 {
      LastMember(members[0], []);
      assert "}" + [] == "}" && members == [members[0]];
    } else {
      ReadAll(members[1..]);
      NextMember(members[0], WriteAll(members[1..]));
      assert members == [members[0]] + members[1..];
    }
  }
}
