/**
 * Trace tokens: making them from a counter (services/agent.go, MakeTracerContext)
 * and rewriting them when a payload is split (batcher/metrics/metrics.go, xxl2qq).
 */
module TraceToken {
  import Decimal

  // ---------------------------------------------------------------------
  // Rewriting on split

  /** The token of entry i: characters 0-7, the index in four places, characters from 14 on. */
  function Rewrite(t: string, i: nat): string {
    if |t| > 14 then t[..8] + "-" + Decimal.Print4(i) + "-" + t[14..] else t
  }

  lemma RewriteLayout(t: string, i: nat)
    requires |t| > 14
    ensures var r, w := Rewrite(t, i), |Decimal.Print4(i)|;
      && |r| == |t| + w - 4
      && r[..8] == t[..8] && r[8] == '-' && r[9..9 + w] == Decimal.Print4(i) && r[9 + w] == '-'
      && r[10 + w..] == t[14..]
  {
  }

  /** Rewriting twice with the same index changes nothing exactly when the index has at most four digits. */
  lemma RewriteIdempotentIff(t: string, i: nat)
    requires |t| > 14
    ensures Rewrite(Rewrite(t, i), i) == Rewrite(t, i) <==> i < 10000
  {
    var r, w := Rewrite(t, i), |Decimal.Print4(i)|;
    Decimal.Print4Width(i);
    RewriteLayout(t, i);
    RewriteLayout(r, i);
    if w == 4 {
      assert r[14..] == t[14..];
    }
  }

  /** Split entries get distinct tokens, whatever tokens they had. */
  lemma RewriteDistinct(t: string, u: string, i: nat, j: nat)
    requires |t| > 14 && |u| > 14 && i < 10000 && j < 10000 && i != j
    ensures Rewrite(t, i) != Rewrite(u, j)
  {
    Decimal.Print4Width(i);
    Decimal.Print4Width(j);
    RewriteLayout(t, i);
    RewriteLayout(u, j);
    if Decimal.Print4(i) == Decimal.Print4(j) {
      Decimal.Print4Injective(i, j);
    }
  }

  /** At one index, two tokens are told apart exactly by what is outside characters 8-13. */
  lemma RewriteForgets(t: string, u: string, i: nat)
    requires |t| > 14 && |u| > 14
    ensures Rewrite(t, i) == Rewrite(u, i) <==> t[..8] == u[..8] && t[14..] == u[14..]
  {
    RewriteLayout(t, i);
    RewriteLayout(u, i);
  }

  // ---------------------------------------------------------------------
  // Tokens from a counter

  type Byte = b: int | 0 <= b < 256

  /** Seven bits a byte, low bits first, the high bit set on all but the last. */
  function PutUvarint(x: nat): (s: seq<Byte>)
    ensures |s| > 0
  {
    if x < 128 then [x] else [x % 128 + 128] + PutUvarint(x / 128)
  }

  /** Reads one such number; the bytes after it do not matter. */
  function Uvarint(s: seq<Byte>): nat {
    if s == [] then 0 else if s[0] < 128 then s[0] else s[0] - 128 + 128 * Uvarint(s[1..])
  }

  lemma {:induction false} UvarintPut(x: nat, rest: seq<Byte>)
    ensures Uvarint(PutUvarint(x) + rest) == x
  {
    var s := PutUvarint(x) + rest;
    if x < 128 {
      assert s[0] == x;
    } else {
      UvarintPut(x / 128, rest);
      assert s[1..] == PutUvarint(x / 128) + rest;
    }
  }

  /** The number without its lowest k groups of seven bits. */
  function Shifted(x: nat, k: nat): nat {
    if k == 0 then x else Shifted(x / 128, k - 1)
  }

  /** Byte k is group k, marked in all bytes but the last, and no group of zeros is last but for zero itself. */
  lemma {:induction false} PutGroups(x: nat)
    ensures var s := PutUvarint(x);
      && (forall k :: 0 <= k < |s| - 1 ==> s[k] == Shifted(x, k) % 128 + 128)
      && s[|s| - 1] == Shifted(x, |s| - 1) < 128
      && (s[|s| - 1] == 0 ==> x == 0)
  {
    if x >= 128 {
      PutGroups(x / 128);
      var s, more := PutUvarint(x), PutUvarint(x / 128);
      forall k | 0 <= k < |s| - 1
        ensures s[k] == Shifted(x, k) % 128 + 128
      {
        assert k > 0 ==> s[k] == more[k - 1];
      }
    } else {
      assert PutUvarint(x) == [x] && Shifted(x, 0) == x;
    }
  }

  function Pow128(k: nat): (p: nat)
    ensures p >= 1
  {
    if k == 0 then 1 else 128 * Pow128(k - 1)
  }

  lemma {:induction false} PutLength(x: nat, k: nat, bound: nat)
    requires k > 0 && bound == Pow128(k) && x < bound
    ensures |PutUvarint(x)| <= k
  {
    if x >= 128 {
      PutLength(x / 128, k - 1, Pow128(k - 1));
    }
  }

  /** Any 64-bit number takes at most ten bytes. */
  lemma PutFits(x: nat)
    requires x < 0x1_0000_0000_0000_0000
    ensures |PutUvarint(x)| <= 10
  {
    assert Pow128(0) == 1;
    assert Pow128(1) == 128;
    assert Pow128(2) == 16384;
    assert Pow128(4) == 268435456 by { assert Pow128(3) == 2097152; }
    assert Pow128(6) == 4398046511104 by { assert Pow128(5) == 34359738368; }
    assert Pow128(8) == 72057594037927936 by { assert Pow128(7) == 562949953421312; }
    assert Pow128(10) == 1180591620717411303424 by { assert Pow128(9) == 9223372036854775808; }
    PutLength(x, 10, Pow128(10));
  }

  /** The counter's bytes over the agent's fixed sixteen. */
  function TokenBytes(fixed: seq<Byte>, counter: nat): (s: seq<Byte>)
    requires |fixed| == 16 && |PutUvarint(counter)| <= 16
    ensures |s| == 16
  {
    PutUvarint(counter) + fixed[|PutUvarint(counter)|..]
  }

  lemma TokenBytesInjective(fixed: seq<Byte>, a: nat, b: nat)
    requires |fixed| == 16 && |PutUvarint(a)| <= 16 && |PutUvarint(b)| <= 16
    requires TokenBytes(fixed, a) == TokenBytes(fixed, b)
    ensures a == b
  {
    UvarintPut(a, fixed[|PutUvarint(a)|..]);
    UvarintPut(b, fixed[|PutUvarint(b)|..]);
  }

  // ---------------------------------------------------------------------
  // The text of a token

  function HexDigit(d: nat): char
    requires d < 16
  {
    if d < 10 then ('0' as int + d) as char else ('a' as int + (d - 10)) as char
  }

  function Hex(s: seq<Byte>): (r: string)
    ensures |r| == 2 * |s|
  {
    if s == [] then [] else [HexDigit(s[0] / 16), HexDigit(s[0] % 16)] + Hex(s[1..])
  }

  lemma {:induction false} HexInjective(a: seq<Byte>, b: seq<Byte>)
    requires Hex(a) == Hex(b)
    ensures a == b
  {
    if a == [] {
      assert |b| == 0;
    } else {
      assert |b| == |a|;
      var x, y := Hex(a), Hex(b);
      assert x[0] == y[0] && x[1] == y[1];
      assert x[2..] == Hex(a[1..]) && y[2..] == Hex(b[1..]);
      HexInjective(a[1..], b[1..]);
      assert a == [a[0]] + a[1..] && b == [b[0]] + b[1..];
    }
  }

  /** 8-4-4-4-12 hexadecimal digits. */
  function FormatUUID(s: seq<Byte>): (r: string)
    requires |s| == 16
    ensures |r| == 36
  {
    var h := Hex(s);
    h[..8] + "-" + h[8..12] + "-" + h[12..16] + "-" + h[16..20] + "-" + h[20..]
  }

  const HEX := "0123456789abcdef"

  lemma {:induction false} HexAt(s: seq<Byte>, j: nat)
    requires j < |s|
    ensures Hex(s)[2 * j] == HEX[s[j] / 16] && Hex(s)[2 * j + 1] == HEX[s[j] % 16]
  {
    if j > 0 {
      HexAt(s[1..], j - 1);
    } else {
      assert forall d: nat :: d < 16 ==> HexDigit(d) == HEX[d];
    }
  }

  /** Hyphens at four places, lower-case hexadecimal digits everywhere else. */
  lemma FormatLayout(s: seq<Byte>)
    requires |s| == 16
    ensures var f := FormatUUID(s);
      && f[8] == f[13] == f[18] == f[23] == '-'
      && forall i :: 0 <= i < 36 && i !in {8, 13, 18, 23} ==> f[i] in HEX
  {
    var f, h := FormatUUID(s), Hex(s);
    forall k | 0 <= k < 32
      ensures h[k] in HEX
    {
      HexAt(s, k / 2);
      assert k == 2 * (k / 2) || k == 2 * (k / 2) + 1;
    }
    forall i | 0 <= i < 36 && i !in {8, 13, 18, 23}
      ensures f[i] in HEX
    {
      assert f[i] == h[i - (if i < 8 then 0 else if i < 13 then 1 else if i < 18 then 2 else if i < 23 then 3 else 4)];
    }
  }

  /** A token's text without its hyphens. */
  function Digits(f: string): string
    requires |f| == 36
  {
    f[..8] + f[9..13] + f[14..18] + f[19..23] + f[24..]
  }

  lemma DigitsOfFormat(s: seq<Byte>)
    requires |s| == 16
    ensures Digits(FormatUUID(s)) == Hex(s)
  {
    HyphensOut(Hex(s));
  }

  lemma HyphensOut(h: string)
    requires |h| == 32
    ensures Digits(h[..8] + "-" + h[8..12] + "-" + h[12..16] + "-" + h[16..20] + "-" + h[20..]) == h
  {
    var f := h[..8] + "-" + h[8..12] + "-" + h[12..16] + "-" + h[16..20] + "-" + h[20..];
    assert f[..8] == h[..8] && f[9..13] == h[8..12] && f[14..18] == h[12..16] && f[19..23] == h[16..20];
    assert f[24..] == h[20..];
    assert h[..8] + h[8..12] == h[..12] && h[..12] + h[12..16] == h[..16] && h[..16] + h[16..20] == h[..20];
    assert h[..20] + h[20..] == h;
  }

  lemma FormatInjective(a: seq<Byte>, b: seq<Byte>)
    requires |a| == 16 && |b| == 16 && FormatUUID(a) == FormatUUID(b)
    ensures a == b
  {
    DigitsOfFormat(a);
    DigitsOfFormat(b);
    HexInjective(a, b);
  }

  predicate Word(x: nat) { x < 0x1_0000_0000_0000_0000 }

  function Token(fixed: seq<Byte>, counter: nat): string
    requires |fixed| == 16 && Word(counter)
  {
    PutFits(counter);
    FormatUUID(TokenBytes(fixed, counter))
  }

  /** One agent's tokens are distinct for distinct counter values. */
  lemma TokensDistinct(fixed: seq<Byte>, a: nat, b: nat)
    requires |fixed| == 16 && Word(a) && Word(b) && a != b
    ensures Token(fixed, a) != Token(fixed, b)
  {
    PutFits(a);
    PutFits(b);
    if Token(fixed, a) == Token(fixed, b) {
      FormatInjective(TokenBytes(fixed, a), TokenBytes(fixed, b));
      TokenBytesInjective(fixed, a, b);
    }
  }

  /** The agent's token state: the sixteen random bytes and the cached counter, which starts at one. */
  class Tracer {
    const tracerToken: seq<Byte>
    var counter: nat
    ghost var issued: seq<string>

    constructor (tracerToken: seq<Byte>)
      requires |tracerToken| == 16
      ensures this.tracerToken == tracerToken && counter == 1 && issued == [] && Valid()
    {
      this.tracerToken := tracerToken;
      counter := 1;
      issued := [];
    }

    /** Token k was made from counter value k + 2. */
    ghost predicate Valid()
      reads this
    {
      && |tracerToken| == 16 && Word(counter) && counter == |issued| + 1
      && (forall k :: 0 <= k < |issued| ==> issued[k] == Token(tracerToken, k + 2))
    }

    /** The counter has not yet come to the end of its 64 bits. */
    method MakeTraceToken() returns (traceToken: string)
      requires Valid() && Word(counter + 1)
      modifies this
      ensures Valid() && issued == old(issued) + [traceToken] && counter == old(counter) + 1
      ensures |traceToken| == 36 && traceToken !in old(issued)
    {
      var inc := counter + 1;
      counter := inc;
      PutFits(inc);
      var prefix := PutUvarint(inc);
      var tokenBuf := prefix + tracerToken[|prefix|..];
      traceToken := FormatUUID(tokenBuf);
      forall k | 0 <= k < |issued| ensures issued[k] != traceToken {
        TokensDistinct(tracerToken, k + 2, inc);
      }
      issued := issued + [traceToken];
    }
  }
}
