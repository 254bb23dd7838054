/** Products as repeated addition, so that the proofs stay linear. */
module Arith {

  /** a times b, as repeated addition. */
  function Times(a: nat, b: nat): nat { if a == 0 then 0 else Times(a - 1, b) + b }

  lemma {:induction false} TimesIsProduct(a: nat, b: nat)
    ensures Times(a, b) == a * b
  {
    if a > 0 {
      TimesIsProduct(a - 1, b);
    }
  }

  lemma {:induction false} TimesGrows(a: nat, b: nat, d: nat)
    requires a < b
    ensures Times(a, d) + d <= Times(b, d)
    decreases b
  {
    if a < b - 1 {
      TimesGrows(a, b - 1, d);
    }
  }

  lemma DivideTimes(q: nat, d: nat, r: nat)
    requires r < d
    ensures var x := Times(q, d) + r; x / d == q && x % d == r
  {
    var x := Times(q, d) + r;
    var q' := x / d;
    TimesIsProduct(q', d);
    assert x == Times(q', d) + x % d;
    if q' < q {
      TimesGrows(q', q, d);
    } else if q < q' {
      TimesGrows(q, q', d);
    }
  }

  /** Splitting cnt items into pieces of cnt / k + 1 takes fewer than or exactly k pieces: the pieces' total exceeds cnt. */
  lemma PieceTotalExceeds(cnt: nat, k: nat)
    requires k > 0
    ensures cnt < Times(k, cnt / k + 1)
  {
    var q := cnt / k;
    TimesIsProduct(q, k);
    TimesAddsOne(k, q);
    TimesIsProduct(k, q);
    assert cnt == q * k + cnt % k;
  }

  lemma {:induction false} TimesAddsOne(a: nat, b: nat)
    ensures Times(a, b + 1) == Times(a, b) + a
  {
    if a > 0 {
      TimesAddsOne(a - 1, b);
    }
  }

  lemma {:induction false} TimesMonotone(a: nat, b: nat, d: nat)
    requires a <= b
    ensures Times(a, d) <= Times(b, d)
  {
    if a < b {
      TimesGrows(a, b, d);
    }
  }

  lemma {:induction false} TimesAdds(a: nat, b: nat, d: nat)
    ensures Times(a + b, d) == Times(a, d) + Times(b, d)
  {
    if a > 0 {
      TimesAdds(a - 1, b, d);
    }
  }

  /** The remainder by repeated subtraction. */
  function Remainder(x: nat, d: nat): nat
    requires d > 0
  {
    if x < d then x else Remainder(x - d, d)
  }

  lemma {:induction false} RemainderOfTimes(k: nat, d: nat, x: nat)
    requires d > 0
    ensures Remainder(Times(k, d) + x, d) == Remainder(x, d)
  {
    if k > 0 {
      RemainderOfTimes(k - 1, d, x);
    }
  }

  lemma RemainderIsMod(x: nat, d: nat)
    requires d > 0
    ensures Remainder(x, d) == x % d
  {
    TimesIsProduct(x / d, d);
    RemainderOfTimes(x / d, d, x % d);
    assert x == Times(x / d, d) + x % d;
  }

  /** How many items each part of an oversized payload may hold. */
  function PartLimit(cnt: nat, len: nat, maxBytes: nat): (lim: nat)
    requires maxBytes > 0
    ensures lim > 0
  {
    cnt / (len / maxBytes + 1) + 1
  }
}
