/**
 * Bit strings, most significant bit first. The byte layouts of the pixel
 * formats are documented as strings of letters such as `RRRRRGGG GGGBBBBB`;
 * `Bits(v, n)` is the n-letter string of the value v, so such a layout is an
 * equation between concatenations of `Bits`.
 *
 * The color formats write shifts and masks as arithmetic on powers of two:
 * `v << k` is `v * Pow2(k)`, `v >> k` is `v / Pow2(k)`, and
 * `v & (Pow2(k) - 1)` is `v % Pow2(k)`.
 */
module BitStrings {

  /** 2 to the power n. */
  function Pow2(n: nat): (p: nat)
    ensures p >= 1
  {
    if n == 0 then 1 else 2 * Pow2(n - 1)
  }

  /** The low n bits of v, most significant first. */
  function Bits(v: nat, n: nat): (s: seq<bool>)
    ensures |s| == n
  {
    if n == 0 then [] else Bits(v / 2, n - 1) + [v % 2 == 1]
  }

  /** Halving hi * 2^n + lo, for n > 0, halves lo and keeps its lowest bit. */
  lemma HalfStep(hi: nat, lo: nat, p: nat)
    requires lo < 2 * p
    ensures (hi * (2 * p) + lo) / 2 == hi * p + lo / 2
    ensures (hi * (2 * p) + lo) % 2 == lo % 2
    ensures lo / 2 < p
  {
    assert hi * (2 * p) == 2 * (hi * p);
  }

  /** Placing `hi` above an n-bit `lo` concatenates their bit strings. */
  lemma {:induction false} BitsConcat(hi: nat, lo: nat, m: nat, n: nat)
    requires lo < Pow2(n)
    ensures Bits(hi * Pow2(n) + lo, m + n) == Bits(hi, m) + Bits(lo, n)
  {
    if n > 0 {
      var p := Pow2(n - 1);
      assert Pow2(n) == 2 * p;
      var v := hi * Pow2(n) + lo;
      HalfStep(hi, lo, p);
      BitsConcat(hi, lo / 2, m, n - 1);
      assert Bits(v, m + n) == Bits(v / 2, m + n - 1) + [v % 2 == 1];
    }
  }

  /**
   * BitsConcat for a value v given with its two parts and the power p = 2^n,
   * so that callers state the parts as plain arithmetic on p.
   */
  lemma BitsJoin(v: nat, hi: nat, lo: nat, m: nat, n: nat, p: nat)
    requires p == Pow2(n) && lo < p && v == hi * p + lo
    ensures Bits(v, m + n) == Bits(hi, m) + Bits(lo, n)
  {
    BitsConcat(hi, lo, m, n);
  }

  /** Distinct values below 2^n have distinct n-bit strings. */
  lemma {:induction false} BitsInjective(a: nat, b: nat, n: nat)
    requires a < Pow2(n) && b < Pow2(n)
    requires Bits(a, n) == Bits(b, n)
    ensures a == b
  {
    if n == 0 {
    } else {
      assert Bits(a, n)[n - 1] == (a % 2 == 1);
      assert Bits(b, n)[n - 1] == (b % 2 == 1);
      assert Bits(a / 2, n - 1) == Bits(a, n)[..n - 1];
      assert Bits(b / 2, n - 1) == Bits(b, n)[..n - 1];
      BitsInjective(a / 2, b / 2, n - 1);
    }
  }

  /** Equal concatenations of bit strings of equal widths have equal parts. */
  lemma SplitEqual(s1: seq<bool>, t1: seq<bool>, s2: seq<bool>, t2: seq<bool>)
    requires |s1| == |s2| && s1 + t1 == s2 + t2
    ensures s1 == s2 && t1 == t2
  {
    assert s1 == (s1 + t1)[..|s1|];
    assert s2 == (s2 + t2)[..|s2|];
    assert t1 == (s1 + t1)[|s1|..];
    assert t2 == (s2 + t2)[|s2|..];
  }

  lemma MulLe(a: nat, b: nat, c: nat)
    requires a <= b
    ensures a * c <= b * c
  {
  }

  /** A value written as q * d + r with 0 <= r < d has quotient q and remainder r by d. */
  lemma DivModUnique(a: nat, d: nat, q: nat, r: nat)
    requires 0 <= r < d && a == q * d + r
    ensures a / d == q && a % d == r
  {
    var q', r' := a / d, a % d;
    assert a == q' * d + r';
    if q' < q {
      MulLe(q' + 1, q, d);
    } else if q < q' {
      MulLe(q + 1, q', d);
    }
  }
}
