/** Powers of two, bit masks and bit counts over natural numbers, as the BLAKE3 tree code uses them. */
module Bits {

  ghost predicate IsPow2(n: nat)
    ensures IsPow2(n) ==> n >= 1
  {
    n == 1 || (n > 1 && n % 2 == 0 && IsPow2(n / 2))
  }

  /** Largest power of two not above x; 1 when x is 0. */
  function RoundDown(x: nat): (p: nat)
    ensures IsPow2(p)
    ensures x == 0 || p <= x < 2 * p
    ensures x == 0 ==> p == 1
  {
    if x <= 1 then 1 else 2 * RoundDown(x / 2)
  }

  /** A power of two bracketing x is the one RoundDown finds. */
  lemma {:induction false} RoundDownUnique(x: nat, p: nat)
    requires IsPow2(p) && p <= x < 2 * p
    ensures RoundDown(x) == p
  {
    if p > 1 {
      RoundDownUnique(x / 2, p / 2);
    }
  }

  lemma Double(p: nat)
    requires IsPow2(p)
    ensures IsPow2(2 * p)
  {
  }

  lemma {:induction false} MulAtLeast(k: nat, s: nat)
    requires k > 0
    ensures k * s >= s
  {
    assert k * s == (k - 1) * s + s;
  }

  /** Quotient and remainder are determined by the division equation. */
  lemma {:induction false} DivUnique(x: int, s: nat, q: int, r: int)
    requires s > 0 && 0 <= r < s && x == q * s + r
    ensures x / s == q && x % s == r
  {
    var q', r' := x / s, x % s;
    assert x == q' * s + r';
    var d := q - q';
    assert d * s == r' - r by { assert d * s == q * s - q' * s; }
    if d > 0 {
      MulAtLeast(d, s);
    }
  }

  lemma {:induction false} MultipleMod(k: int, s: nat)
    requires s > 0
    ensures (k * s) % s == 0
  {
    DivUnique(k * s, s, k, 0);
  }

  lemma {:induction false} ModSum(x: int, y: int, s: nat)
    requires s > 0 && x % s == 0 && y % s == 0
    ensures (x + y) % s == 0
    ensures (x - y) % s == 0
  {
    var a, b := x / s, y / s;
    assert x + y == (a + b) * s;
    MultipleMod(a + b, s);
    assert x - y == (a - b) * s;
    MultipleMod(a - b, s);
  }

  /** A smaller power of two divides a larger one. */
  lemma {:induction false} Pow2Divides(s: nat, p: nat)
    requires IsPow2(s) && IsPow2(p) && s <= p
    ensures p % s == 0
  {
    if s > 1 {
      Pow2Divides(s / 2, p / 2);
      var k := p / 2 / (s / 2);
      assert p / 2 == k * (s / 2);
      assert p == k * s;
      MultipleMod(k, s);
    }
  }

  /** What divides n also divides the leading power of two of n and what is left of n. */
  lemma {:induction false} DividesParts(n: nat, s: nat)
    requires n > 0 && IsPow2(s) && n % s == 0
    ensures s <= RoundDown(n)
    ensures RoundDown(n) % s == 0 && (n - RoundDown(n)) % s == 0
  {
    var p := RoundDown(n);
    if p < s {
      Pow2Tight(p, s);
      DivUnique(n, s, 0, n);
    }
    Pow2Divides(s, p);
    ModSum(n, p, s);
  }

  lemma {:induction false} Pow2Tight(p: nat, q: nat)
    requires IsPow2(p) && IsPow2(q) && p < q
    ensures 2 * p <= q
  {
    if p > 1 {
      Pow2Tight(p / 2, q / 2);
    }
  }

  /** Multiples of s that lie below a multiple of s stay a whole s below it. */
  lemma {:induction false} MultipleGap(n: nat, m: nat, s: nat)
    requires s > 0 && n % s == 0 && m % s == 0 && n < m
    ensures n + s <= m
  {
    ModSum(m, n, s);
    if m - n < s {
      DivUnique(m - n, s, 0, m - n);
    }
  }

  /** Adding less than one whole s to a multiple of s keeps the leading power of two. */
  lemma {:induction false} RoundDownStable(n: nat, s: nat, extra: nat)
    requires n > 0 && IsPow2(s) && n % s == 0 && extra < s
    ensures RoundDown(n + extra) == RoundDown(n)
  {
    var p := RoundDown(n);
    DividesParts(n, s);
    Double(p);
    Pow2Divides(s, 2 * p);
    MultipleGap(n, 2 * p, s);
    RoundDownUnique(n + extra, p);
  }

  /** Number of one bits. */
  ghost function Popcount(x: nat): nat {
    if x == 0 then 0 else x % 2 + Popcount(x / 2)
  }

  /** Bitwise and. */
  function And(a: nat, b: nat): (r: nat)
    ensures r <= a && r <= b
  {
    if a == 0 || b == 0 then 0 else 2 * And(a / 2, b / 2) + (if a % 2 == 1 && b % 2 == 1 then 1 else 0)
  }

  /** Masking with a power of two minus one is taking the remainder. */
  lemma {:induction false} AndMask(s: nat, b: nat)
    requires IsPow2(s)
    ensures And(s - 1, b) == b % s
  {
    if b == 0 {
      DivUnique(0, s, 0, 0);
    } else if s > 1 {
      var h := s / 2;
      assert s == 2 * h && (s - 1) / 2 == h - 1 && (s - 1) % 2 == 1;
      AndMask(h, b / 2);
      assert And(s - 1, b) == 2 * And(h - 1, b / 2) + b % 2;
      ModHalf(b, h);
    }
  }

  lemma {:induction false} ModHalf(b: nat, h: nat)
    requires h > 0
    ensures b % (2 * h) == 2 * (b / 2 % h) + b % 2
  {
    var q, r := b / 2 / h, b / 2 % h;
    assert b / 2 == q * h + r;
    assert q * (2 * h) == 2 * (q * h);
    DivUnique(b, 2 * h, q, 2 * r + b % 2);
  }

  /** Clearing the lowest one bit: the counting loop of popcnt. */
  method CountOnes(word: nat) returns (count: nat)
    ensures count == Popcount(word)
  {
    count := 0;
    var x := word;
    while x != 0
      invariant count + Popcount(x) == Popcount(word)
    {
      ClearLowest(x);
      count := count + 1;
      x := And(x, x - 1);
    }
  }

  lemma {:induction false} ClearLowest(x: nat)
    requires x > 0
    ensures And(x, x - 1) < x && Popcount(And(x, x - 1)) + 1 == Popcount(x)
  {
    if x % 2 == 1 {
      AndSelf(x / 2);
      assert And(x, x - 1) == x - 1;
    } else {
      ClearLowest(x / 2);
      assert (x - 1) / 2 == x / 2 - 1;
      assert And(x, x - 1) == 2 * And(x / 2, x / 2 - 1);
      PopcountTwice(And(x / 2, x / 2 - 1));
    }
  }

  lemma PopcountTwice(x: nat)
    ensures Popcount(2 * x) == Popcount(x)
  {
  }

  lemma {:induction false} AndSelf(x: nat)
    ensures And(x, x) == x
  {
    if x > 0 {
      AndSelf(x / 2);
    }
  }

  /** Scaling by a power of two keeps the number of one bits. */
  lemma {:induction false} PopcountScale(k: nat, s: nat)
    requires IsPow2(s)
    ensures Popcount(k * s) == Popcount(k)
  {
    if s > 1 {
      PopcountScale(k, s / 2);
      assert k * s == 2 * (k * (s / 2));
      PopcountTwice(k * (s / 2));
    }
  }

  lemma {:induction false} PopcountSucc(q: nat)
    requires q > 0
    ensures Popcount(q) <= Popcount(q - 1) + 1
  {
    if q % 2 == 0 {
      PopcountSucc(q / 2);
      assert (q - 1) / 2 == q / 2 - 1 && (q - 1) % 2 == 1;
    } else {
      assert (q - 1) / 2 == q / 2;
    }
  }

  /** Whether the last s-sized step into total completed a pair shows in the bit counts. */
  lemma {:induction false} PopcountStep(total: nat, s: nat)
    requires IsPow2(s) && total % s == 0 && s <= total
    ensures total % (2 * s) != 0 ==> Popcount(total) == Popcount(total - s) + 1
    ensures total % (2 * s) == 0 ==> Popcount(total) < Popcount(total - s) + 1
  {
    PopcountStepScaled(total / s, s, total);
  }

  lemma {:induction false} PopcountStepScaled(k: nat, s: nat, total: nat)
    requires IsPow2(s) && total == k * s && s <= total
    ensures total % (2 * s) == if k % 2 == 0 then 0 else s
    ensures k % 2 == 1 ==> Popcount(total) == Popcount(total - s) + 1
    ensures k % 2 == 0 ==> Popcount(total) < Popcount(total - s) + 1
  {
    assert total - s == (k - 1) * s;
    PopcountScale(k, s);
    PopcountScale(k - 1, s);
    Parity(k, s);
    PopcountParity(k);
  }

  lemma {:induction false} Parity(k: nat, s: nat)
    requires s > 0
    ensures (k * s) % (2 * s) == if k % 2 == 0 then 0 else s
  {
    Scale(k / 2, k % 2, s);
    DivUnique(k * s, 2 * s, k / 2, k % 2 * s);
  }

  lemma Scale(h: nat, r: nat, s: nat)
    ensures (2 * h + r) * s == h * (2 * s) + r * s
  {
  }

  lemma {:induction false} PopcountParity(k: nat)
    requires k > 0
    ensures k % 2 == 1 ==> Popcount(k) == Popcount(k - 1) + 1
    ensures k % 2 == 0 ==> Popcount(k) <= Popcount(k - 1)
  {
    if k % 2 == 0 {
      PopcountSucc(k / 2);
      assert (k - 1) / 2 == k / 2 - 1;
    } else {
      PopcountTwice(k / 2);
    }
  }

  /** A number below 2^width has at most width one bits. */
  lemma {:induction false} PopcountBound(x: nat, width: nat)
    requires x < Exp2(width)
    ensures Popcount(x) <= width
  {
    if x > 0 {
      PopcountBound(x / 2, width - 1);
    }
  }

  function Exp2(k: nat): (p: nat)
    ensures p > 0
  {
    if k == 0 then 1 else 2 * Exp2(k - 1)
  }
}
