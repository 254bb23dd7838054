/** Decimal numerals, as the formatting verbs %d and %04d and AppendUint print them. */
module Decimal {

  predicate IsDigit(c: char) { '0' <= c <= '9' }

  function Digit(d: nat): (c: char)
    requires d < 10
    ensures IsDigit(c)
  {
    ('0' as int + d) as char
  }

  function DigitValue(c: char): nat
    requires IsDigit(c)
  {
    c as int - '0' as int
  }

  /** %d */
  function Print(n: nat): (s: string)
    ensures |s| > 0 && forall i :: 0 <= i < |s| ==> IsDigit(s[i])
  {
    if n < 10 then [Digit(n)] else Print(n / 10) + [Digit(n % 10)]
  }

  function Value(s: string): nat
    requires forall i :: 0 <= i < |s| ==> IsDigit(s[i])
  {
    if s == [] then 0 else Value(s[..|s| - 1]) * 10 + DigitValue(s[|s| - 1])
  }

  lemma {:induction false} ValuePrint(n: nat)
    ensures Value(Print(n)) == n
  {
    if n < 10 {
      assert [Digit(n)][..0] == [];
      assert DigitValue(Digit(n)) == n;
    } else {
      ValuePrint(n / 10);
      var s := Print(n);
      assert s[..|s| - 1] == Print(n / 10);
      assert DigitValue(Digit(n % 10)) == n % 10;
    }
  }

  lemma PrintInjective(m: nat, n: nat)
    requires Print(m) == Print(n)
    ensures m == n
  {
    ValuePrint(m);
    ValuePrint(n);
  }

  /** Adds leading zeros up to the given width. */
  function Pad(s: string, width: nat): (r: string)
    requires forall i :: 0 <= i < |s| ==> IsDigit(s[i])
    ensures |r| == if |s| < width then width else |s|
    ensures forall i :: 0 <= i < |r| ==> IsDigit(r[i])
    decreases width - |s|
  {
    if |s| < width then Pad(['0'] + s, width) else s
  }

  /** %04d */
  function Print4(n: nat): (s: string)
    ensures forall i :: 0 <= i < |s| ==> IsDigit(s[i])
  {
    Pad(Print(n), 4)
  }

  lemma {:induction false} ValueZero(s: string)
    requires forall i :: 0 <= i < |s| ==> IsDigit(s[i])
    ensures Value(['0'] + s) == Value(s)
  {
    if s == [] {
      assert ['0'][..0] == [];
    } else {
      var t := ['0'] + s;
      assert t[..|t| - 1] == ['0'] + s[..|s| - 1];
      ValueZero(s[..|s| - 1]);
    }
  }

  lemma {:induction false} ValuePad(s: string, width: nat)
    requires forall i :: 0 <= i < |s| ==> IsDigit(s[i])
    ensures Value(Pad(s, width)) == Value(s)
    decreases width - |s|
  {
    if |s| < width {
      ValueZero(s);
      ValuePad(['0'] + s, width);
    }
  }

  lemma Print4Injective(m: nat, n: nat)
    requires Print4(m) == Print4(n)
    ensures m == n
  {
    ValuePad(Print(m), 4);
    ValuePad(Print(n), 4);
    ValuePrint(m);
    ValuePrint(n);
  }

  lemma {:induction false} PrintLength(n: nat, k: nat, bound: nat)
    requires k > 0 && bound == Pow10(k)
    ensures n < bound <==> |Print(n)| <= k
  {
    if n >= 10 && k > 1 {
      PrintLength(n / 10, k - 1, Pow10(k - 1));
    }
  }

  function Pow10(k: nat): (p: nat)
    ensures k > 0 ==> p >= 10
    ensures p >= 1
  {
    if k == 0 then 1 else 10 * Pow10(k - 1)
  }

  /** %04d takes exactly four places for numbers below 10000, more above. */
  lemma Print4Width(n: nat)
    ensures |Print4(n)| == 4 <==> n < 10000
  {
    assert Pow10(4) == 10000 by {
      assert Pow10(1) == 10 && Pow10(2) == 100 && Pow10(3) == 1000;
    }
    PrintLength(n, 4, 10000);
  }

  /** Digit by digit, from the last one. */
  lemma PrintDigits(n: nat)
    ensures var s := Print(n);
      && s[|s| - 1] as int == '0' as int + n % 10
      && (if n < 10 then |s| == 1 else s[..|s| - 1] == Print(n / 10))
  {
  }

  lemma DigitIs(d: nat)
    requires d < 10
    ensures Digit(d) == "0123456789"[d]
  {
  }

  /** Four places below 10000, with zeros in front, and the plain numeral above. */
  lemma Print4Digits(n: nat)
    ensures n < 10000 ==> Print4(n) == [Digit(n / 1000), Digit(n / 100 % 10), Digit(n / 10 % 10), Digit(n % 10)]
    ensures n >= 10000 ==> Print4(n) == Print(n)
  {
    if n < 1000 {
      Print4Below1000(n);
    } else {
      PrintLength4(n);
      PadTo4(Print(n));
      if n < 10000 {
        PrintBelow1000(n / 10);
        Tenths(n);
        assert Print(n) == Print(n / 10) + [Digit(n % 10)];
      }
    }
  }

  lemma Tenths(n: nat)
    ensures n / 10 / 100 == n / 1000 && n / 10 / 10 == n / 100
  {
  }

  lemma Print4Below1000(n: nat)
    requires n < 1000
    ensures Print4(n) == [Digit(n / 1000), Digit(n / 100 % 10), Digit(n / 10 % 10), Digit(n % 10)]
  {
    PrintLength4(n);
    PadTo4(Print(n));
    DigitIs(0);
    PrintBelow1000(n);
    FewPlaces(n);
  }

  lemma FewPlaces(n: nat)
    requires n < 1000
    ensures n / 1000 == 0 && n / 100 % 10 == n / 100
    ensures n < 100 ==> n / 100 == 0 && n / 10 % 10 == n / 10
    ensures n < 10 ==> n / 10 == 0 && n % 10 == n
  {
  }

  lemma PrintBelow1000(n: nat)
    requires n < 1000
    ensures n < 10 ==> Print(n) == [Digit(n)]
    ensures 10 <= n < 100 ==> Print(n) == [Digit(n / 10), Digit(n % 10)]
    ensures 100 <= n ==> Print(n) == [Digit(n / 100), Digit(n / 10 % 10), Digit(n % 10)]
  {
    if n >= 10 {
      assert Print(n) == Print(n / 10) + [Digit(n % 10)];
      if n >= 100 {
        assert Print(n / 10) == Print(n / 100) + [Digit(n / 10 % 10)];
      }
    }
  }

  lemma PrintLength4(n: nat)
    ensures |Print(n)| == 1 <==> n < 10
    ensures |Print(n)| <= 2 <==> n < 100
    ensures |Print(n)| <= 3 <==> n < 1000
    ensures |Print(n)| <= 4 <==> n < 10000
  {
    assert Pow10(1) == 10 && Pow10(2) == 100 && Pow10(3) == 1000 && Pow10(4) == 10000;
    PrintLength(n, 1, 10);
    PrintLength(n, 2, 100);
    PrintLength(n, 3, 1000);
    PrintLength(n, 4, 10000);
  }

  lemma {:induction false} PadTo4(s: string)
    requires s != [] && forall i :: 0 <= i < |s| ==> IsDigit(s[i])
    ensures |s| >= 4 ==> Pad(s, 4) == s
    ensures |s| == 3 ==> Pad(s, 4) == ['0'] + s
    ensures |s| == 2 ==> Pad(s, 4) == ['0', '0'] + s
    ensures |s| == 1 ==> Pad(s, 4) == ['0', '0', '0'] + s
    decreases 4 - |s|
  {
    if |s| == 2 {
      PadTo4(['0'] + s);
    } else if |s| == 1 {
      PadTo4(['0'] + s);
    }
  }
}
