/** 64-bit modular arithmetic and the primality test of wyhash, with wrap-around written out. */
module Wyhash {
  import opened Bits
  import opened NumberTheory

  const WORD: nat := 0x1_0000_0000_0000_0000

  /** 64-bit addition and subtraction. */
  function Add64(x: nat, y: nat): nat {
    (x + y) % WORD
  }

  function Sub64(x: nat, y: nat): nat {
    (x - y) % WORD
  }

  /** One guarded addition: add, take the modulus off after a wrap, reduce. */
  function AddMod(x: nat, y: nat, m: nat): nat
    requires m > 0
  {
    var sum := Add64(x, y);
    (if sum < x then Sub64(sum, m) else sum) % m
  }

  /** Part of a sum that the guarded addition loses: taking off the modulus once does not undo the wrap
      when the wrapped sum is at least the modulus. */
  ghost function LostInAdd(x: nat, y: nat, m: nat): nat {
    if x + y >= WORD + m then WORD else 0
  }

  lemma WrapOnce(x: nat, y: nat)
    requires x < WORD && y < WORD
    ensures Add64(x, y) == if x + y < WORD then x + y else x + y - WORD
    ensures Sub64(x, y) == if x < y then x - y + WORD else x - y
  {
  }

  lemma {:induction false} LessModulus(x: int, m: nat)
    requires m > 0
    ensures (x - m) % m == x % m
  {
    CongruentDivides(x, x - m, m);
    MultipleMod(1, m);
  }

  lemma {:induction false} AddModValue(x: nat, y: nat, m: nat)
    requires 0 < m < WORD && x < WORD && y < WORD
    ensures AddMod(x, y, m) == (x + y - LostInAdd(x, y, m)) % m
  {
    hide Add64, Sub64;
    WrapOnce(x, y);
    if x + y >= WORD {
      WrapOnce(x + y - WORD, m);
      LessModulus(x + y - WORD, m);
      LessModulus(x + y, m);
    }
  }

  /** What mul_mod loses: its only unguarded step is the first doubling, when a is not reduced. */
  ghost function LostInMul(a: nat, b: nat, m: nat): nat {
    b / 2 * LostInAdd(a, a, m)
  }

  /** What mul_mod returns, for all operands. */
  ghost function MulModResult(a: nat, b: nat, m: nat): nat
    requires m > 0
  {
    (a * b - LostInMul(a, b, m)) % m
  }

  /** One round of the loop: b loses its lowest bit, a doubles. */
  lemma {:induction false} MulStep(r: nat, a: nat, b: nat, m: nat, r': nat, a': nat)
    requires 0 < m < WORD && a < WORD && r < m && (a < m || r == 0) && b > 0
    requires r' == if b % 2 == 1 then AddMod(r, a, m) else r
    requires b / 2 == 0 || a' == AddMod(a, a, m)
    ensures r' < m
    ensures (r' + a' * (b / 2)) % m == (r + a * b - LostInMul(a, b, m)) % m
  {
    var h := b / 2;
    AddModValue(r, a, m);
    AddModValue(a, a, m);
    assert LostInAdd(r, a, m) == 0;
    var lost := LostInAdd(a, a, m);
    assert r' % m == (r + b % 2 * a) % m by {
      if b % 2 == 0 { assert b % 2 * a == 0; } else { assert b % 2 * a == a; ModTerm(r + a, 0, m); }
    }
    if h == 0 {
      assert a' * h == 0 && b == 1 && h * lost == 0;
      ModTerm(r', 0, m);
    } else {
      MulDouble(a, a', h, lost, m);
      SumCongruent(r', r + b % 2 * a, a' * h, (2 * a - lost) * h, m);
      MulParts(r, a, b, h, lost);
    }
  }

  lemma {:induction false} MulDouble(a: nat, a': nat, h: nat, lost: nat, m: nat)
    requires m > 0 && a' == (a + a - lost) % m
    ensures (a' * h) % m == ((2 * a - lost) * h) % m
  {
    ModFactor(2 * a - lost, h, m);
  }

  lemma {:induction false} SumCongruent(x: int, x': int, y: int, y': int, m: nat)
    requires m > 0 && x % m == x' % m && y % m == y' % m
    ensures (x + y) % m == (x' + y') % m
  {
    ModTerm(x, y, m);
    ModTerm(x', y, m);
    ModTerm(y, x', m);
    ModTerm(y', x', m);
  }

  lemma {:induction false} MulParts(r: nat, a: nat, b: nat, h: nat, lost: nat)
    requires h == b / 2
    ensures r + b % 2 * a + (2 * a - lost) * h == r + a * b - h * lost
  {
    assert b == 2 * h + b % 2;
    assert a * b == 2 * a * h + b % 2 * a by {
      assert a * (2 * h + b % 2) == a * (2 * h) + a * (b % 2);
    }
    assert (2 * a - lost) * h == 2 * a * h - lost * h;
  }

  /** Binary multiplication modulo m. The result is exact up to what the first doubling loses. */
  method MulMod(a0: nat, b0: nat, m: nat) returns (r: nat)
    requires 0 < m < WORD && a0 < WORD && b0 < WORD
    ensures r < m && r == MulModResult(a0, b0, m)
    ensures a0 < m ==> r == (a0 * b0) % m
  {
    hide AddMod, LostInAdd, LostInMul;
    var a: nat, b: nat := a0, b0;
    r := 0;
    NothingLost(a0, b0, m);
    while b != 0
      invariant r < m && a < WORD
      invariant b == 0 || a < m || (r == 0 && a == a0 && b == b0)
      invariant (r + a * b - LostInMul(a, b, m)) % m == (a0 * b0 - LostInMul(a0, b0, m)) % m
    {
      ghost var r1: nat, a1: nat, b1: nat := r, a, b;
      if b % 2 == 1 {
        r := AddMod(r, a, m);
      }
      b := b / 2;
      if b != 0 {
        a := AddMod(a, a, m);
        AddModSmall(a1, m);
      }
      MulStep(r1, a1, b1, m, r, a);
      NothingLost(a, b, m);
    }
    assert a * b == 0;
    NothingLost(a, b, m);
    ModSmall(r, m);
  }

  lemma AddModSmall(a: nat, m: nat)
    requires 0 < m
    ensures AddMod(a, a, m) < m
  {
  }

  /** Nothing is lost when the first factor is reduced, or when nothing is doubled. */
  lemma {:induction false} NothingLost(a: nat, b: nat, m: nat)
    requires 0 < m < WORD
    ensures a < m || b < 2 ==> LostInMul(a, b, m) == 0
  {
    if b < 2 {
      assert b / 2 == 0;
    }
  }

  /** mul_mod computes the product modulo m exactly when what the first doubling loses is a multiple of m. */
  lemma {:induction false} MulModExact(a: nat, b: nat, m: nat)
    requires 0 < m < WORD && a < WORD && b < WORD
    ensures MulModResult(a, b, m) == (a * b) % m <==>
            b < 2 || 2 * a < WORD + m || (b / 2 * WORD) % m == 0
  {
    CongruentDivides(a * b, a * b - LostInMul(a, b, m), m);
    if b < 2 {
      NothingLost(a, b, m);
    }
    if b < 2 || 2 * a < WORD + m {
      assert LostInMul(a, b, m) == 0;
      ModSmall(0, m);
    }
  }

  /** An unreduced first factor on which mul_mod is wrong. */
  lemma MulModWrong()
    ensures MulModResult(WORD - 1, 2, 3) == 2
    ensures ((WORD - 1) * 2) % 3 == 0
  {
  }

  // pow_mod

  lemma {:induction false} PowSquare(a: nat, h: nat)
    ensures Pow(a, 2 * h) == Pow(a * a, h)
  {
    if h > 0 {
      PowSquare(a, h - 1);
      assert Pow(a, 2 * h) == a * (a * Pow(a, 2 * h - 2));
      assert a * (a * Pow(a, 2 * h - 2)) == a * a * Pow(a, 2 * h - 2);
    }
  }

  lemma {:induction false} PowCongruent(a: nat, a': nat, n: nat, m: nat)
    requires m > 0 && a % m == a' % m
    ensures Pow(a, n) % m == Pow(a', n) % m
  {
    if n > 0 {
      PowCongruent(a, a', n - 1, m);
      MulCongruent(a, a', Pow(a, n - 1), m);
      MulCongruent(Pow(a, n - 1), Pow(a', n - 1), a', m);
      assert a' * Pow(a, n - 1) == Pow(a, n - 1) * a';
      assert a' * Pow(a', n - 1) == Pow(a', n - 1) * a';
    }
  }

  /** One round of the loop: b loses its lowest bit, a is squared. */
  lemma {:induction false} PowStep(r: nat, a: nat, b: nat, m: nat, r': nat, a': nat)
    requires 0 < m && b > 0
    requires r' % m == (if b % 2 == 1 then r * a else r) % m
    requires b / 2 == 0 || a' % m == (a * a) % m
    ensures (r' * Pow(a', b / 2)) % m == (r * Pow(a, b)) % m
  {
    var h := b / 2;
    if h > 0 {
      PowCongruent(a', a * a, h, m);
    }
    PowSquare(a, h);
    var p := Pow(a, 2 * h);
    assert Pow(a', h) % m == p % m;
    var x := if b % 2 == 1 then r * a else r;
    MulBoth(r', x, Pow(a', h), p, m);
    if b % 2 == 1 {
      assert Pow(a, b) == a * p;
      assert r * a * p == r * (a * p);
    }
  }

  lemma {:induction false} MulBoth(x: nat, x': nat, y: nat, y': nat, m: nat)
    requires m > 0 && x % m == x' % m && y % m == y' % m
    ensures (x * y) % m == (x' * y') % m
  {
    MulCongruent(x, x', y, m);
    MulCongruent(y, y', x', m);
    assert x' * y == y * x' && x' * y' == y' * x';
  }

  /** What the loop of pow_mod keeps. */
  ghost predicate OnTrack(r: nat, a: nat, b: nat, m: nat, target: nat) {
    r < m && a < m && (r * Pow(a, b)) % m == target % m
  }

  lemma {:induction false} OnTrackStep(r: nat, a: nat, b: nat, m: nat, target: nat, r': nat, a': nat)
    requires OnTrack(r, a, b, m, target) && b > 0
    requires if b % 2 == 1 then r' == (r * a) % m else r' == r
    requires if b / 2 > 0 then a' == (a * a) % m else a' == a
    ensures OnTrack(r', a', b / 2, m, target)
  {
    hide Pow;
    ReducedTwice(r * a, m);
    ReducedTwice(a * a, m);
    PowStep(r, a, b, m, r', a');
  }

  lemma {:induction false} OnTrackEnd(r: nat, a: nat, m: nat, target: nat)
    requires OnTrack(r, a, 0, m, target)
    ensures r == target % m
  {
    ModSmall(r, m);
    assert r * Pow(a, 0) == r;
  }

  /** What pow_mod aims at: the first square is what mul_mod makes of the base, reduced or not. */
  ghost function PowTarget(a: nat, b: nat, m: nat): nat
    requires m > 0
  {
    (if b % 2 == 1 then a else 1) * Pow(MulModResult(a, a, m), b / 2)
  }

  /** What pow_mod returns, for all operands. */
  ghost function PowModResult(a: nat, b: nat, m: nat): nat
    requires m > 0
  {
    if b == 0 then 1 else PowTarget(a, b, m) % m
  }

  /** What holds after the first round. */
  ghost predicate Tracked(r: nat, a: nat, b: nat, m: nat, target: nat) {
    m > 0 && r < m && if b == 0 then r == target % m else OnTrack(r, a, b, m, target)
  }

  lemma {:induction false} FirstRound(a0: nat, b0: nat, m: nat, r: nat, a: nat)
    requires 1 < m && b0 > 0
    requires if b0 % 2 == 1 then r == (1 * a0) % m else r == 1
    requires b0 / 2 > 0 ==> a == MulModResult(a0, a0, m)
    ensures Tracked(r, a, b0 / 2, m, PowTarget(a0, b0, m))
  {
    hide Pow;
    var first: nat := if b0 % 2 == 1 then a0 else 1;
    var p := Pow(MulModResult(a0, a0, m), b0 / 2);
    ReducedTwice(first, m);
    MulBoth(r, first, p, p, m);
    if b0 / 2 == 0 {
      PowZero(MulModResult(a0, a0, m));
    }
  }

  lemma PowZero(a: nat)
    ensures Pow(a, 0) == 1
  {
  }

  lemma {:induction false} TrackedStep(r: nat, a: nat, b: nat, m: nat, target: nat, r': nat, a': nat)
    requires Tracked(r, a, b, m, target) && b > 0
    requires if b % 2 == 1 then r' == (r * a) % m else r' == r
    requires if b / 2 > 0 then a' == (a * a) % m else a' == a
    ensures Tracked(r', a', b / 2, m, target)
  {
    hide Pow;
    OnTrackStep(r, a, b, m, target, r', a');
    if b / 2 == 0 {
      OnTrackEnd(r', a', m, target);
    }
  }

  lemma TrackedReduced(r: nat, a: nat, b: nat, m: nat, target: nat)
    requires Tracked(r, a, b, m, target)
    ensures r < m && (b > 0 ==> a < m) && (b == 0 ==> r == target % m)
  {
  }

  /** A reduced base, or an exponent that needs no square, gives the power; so does any base whose square is exact. */
  lemma {:induction false} PowModExact(a: nat, b: nat, m: nat)
    requires 1 < m < WORD && a < WORD
    requires a < m || b < 2 || MulModResult(a, a, m) == (a * a) % m
    ensures PowModResult(a, b, m) == Pow(a, b) % m
  {
    hide Pow, LostInMul;
    PowZero(a);
    if b == 1 {
      PowZero(MulModResult(a, a, m));
      PowZero(a * a);
      PowSquare(a, 0);
      assert Pow(a, 1) == a by { PowOne(a); }
    } else if b > 1 {
      NothingLost(a, a, m);
      var sq := MulModResult(a, a, m);
      ReducedTwice(a * a, m);
      PowCongruent(sq, a * a, b / 2, m);
      PowSquare(a, b / 2);
      PowParts(a, b);
      var first: nat := if b % 2 == 1 then a else 1;
      MulBoth(first, first, Pow(sq, b / 2), Pow(a * a, b / 2), m);
    }
  }

  lemma {:induction false} PowOne(a: nat)
    ensures Pow(a, 1) == a
  {
    assert Pow(a, 0) == 1;
  }

  lemma PowParts(a: nat, b: nat)
    ensures Pow(a, b) == (if b % 2 == 1 then a else 1) * Pow(a, 2 * (b / 2))
  {
  }

  /** Binary exponentiation modulo m: the result for all operands, and the power for a reduced base. */
  method PowMod(a0: nat, b0: nat, m: nat) returns (r: nat)
    requires 0 < m < WORD && a0 < WORD && b0 < WORD
    ensures m == 1 ==> r == if b0 == 0 then 1 else 0
    ensures m > 1 ==> r < m && r == PowModResult(a0, b0, m)
    ensures m > 1 && a0 < m ==> r == Pow(a0, b0) % m
  {
    hide Pow, MulModResult, OnTrack, Tracked, PowTarget;
    var a: nat, b: nat := a0, b0;
    r := 1;
    ghost var started := false;
    ghost var target := PowTarget(a0, b0, m);
    while b != 0
      invariant a < WORD && r < WORD && b < WORD
      invariant !started ==> r == 1 && a == a0 && b == b0
      invariant started && m > 1 ==> b0 > 0 && Tracked(r, a, b, m, target)
      invariant m == 1 ==> (r == 0 && b0 > 0) || (r == 1 && (b > 0 || b0 == 0))
    {
      ghost var r1: nat, a1: nat, b1: nat := r, a, b;
      if started && m > 1 {
        TrackedReduced(r, a, b, m, target);
      }
      if b % 2 == 1 {
        r := MulMod(r, a, m);
      }
      b := b / 2;
      if b != 0 {
        a := MulMod(a, a, m);
      }
      if m > 1 {
        if started {
          TrackedStep(r1, a1, b1, m, target, r, a);
        } else {
          FirstRound(a0, b0, m, r, a);
        }
      }
      started := true;
    }
    if m > 1 {
      if started {
        TrackedReduced(r, a, b, m, target);
      }
      if a0 < m {
        PowModExact(a0, b0, m);
      }
    }
  }

  lemma {:induction false} ReducedTwice(x: nat, m: nat)
    requires m > 0
    ensures x % m % m == x % m
  {
    ModSmall(x % m, m);
  }

  // sprp

  /** The odd part of x, and how often 2 divides it. */
  ghost function OddPart(x: nat): (d: nat)
    ensures d <= x
  {
    if x > 0 && x % 2 == 0 then OddPart(x / 2) else x
  }

  ghost function Twos(x: nat): nat {
    if x > 0 && x % 2 == 0 then 1 + Twos(x / 2) else 0
  }

  lemma {:induction false} OddPartTimesTwos(x: nat)
    ensures OddPart(x) * Exp2(Twos(x)) == x
    ensures x > 0 ==> OddPart(x) % 2 == 1
  {
    if x > 0 && x % 2 == 0 {
      OddPartTimesTwos(x / 2);
      assert OddPart(x) * Exp2(Twos(x)) == 2 * (OddPart(x / 2) * Exp2(Twos(x / 2)));
    }
  }

  /** Shifting out k zero bits. */
  lemma {:induction false} ShiftOut(d: nat, k: nat)
    requires d > 0 && d % Exp2(k) == 0
    ensures d / Exp2(k) > 0
    ensures OddPart(d / Exp2(k)) == OddPart(d) && Twos(d / Exp2(k)) + k == Twos(d)
  {
    if k > 0 {
      var e := Exp2(k - 1);
      var q := d / (2 * e);
      assert d == 2 * (q * e) by { assert d == q * (2 * e); }
      MultipleMod(q, e);
      DivUnique(d / 2, e, q, 0);
      ShiftOut(d / 2, k - 1);
    }
  }

  /** a^(d * 2^i) modulo n, where n - 1 = d * 2^s with d odd. */
  ghost function Rung(n: nat, a: nat, i: nat): nat
    requires n > 0
  {
    Pow(a, OddPart(n - 1) * Exp2(i)) % n
  }

  /** n is a strong probable prime to base a. */
  ghost predicate StrongProbablePrime(n: nat, a: nat)
    requires n > 0
  {
    Rung(n, a, 0) == 1 || exists i: nat :: i < Twos(n - 1) && Rung(n, a, i) == n - 1
  }

  /** Each rung is the square of the one before. */
  lemma {:induction false} RungSquare(n: nat, a: nat, i: nat)
    requires n > 0
    ensures Rung(n, a, i + 1) == (Rung(n, a, i) * Rung(n, a, i)) % n
  {
    var e := OddPart(n - 1) * Exp2(i);
    assert OddPart(n - 1) * Exp2(i + 1) == 2 * e;
    PowTwice(a, e);
    var p := Pow(a, e);
    ReducedTwice(p, n);
    MulBoth(p % n, p, p % n, p, n);
  }

  lemma {:induction false} PowSum(a: nat, x: nat, y: nat)
    ensures Pow(a, x + y) == Pow(a, x) * Pow(a, y)
  {
    if x > 0 {
      PowSum(a, x - 1, y);
      assert Pow(a, x + y) == a * Pow(a, x - 1 + y);
      assert a * (Pow(a, x - 1) * Pow(a, y)) == a * Pow(a, x - 1) * Pow(a, y);
    }
  }

  lemma {:induction false} PowTwice(a: nat, e: nat)
    ensures Pow(a, 2 * e) == Pow(a, e) * Pow(a, e)
  {
    PowSum(a, e, e);
  }

  /** A rung of 0 or 1 is followed by the same for ever. */
  lemma {:induction false} RungStuck(n: nat, a: nat, i: nat, j: nat)
    requires n > 1 && i <= j && Rung(n, a, i) <= 1
    ensures Rung(n, a, j) <= 1
    decreases j - i
  {
    if i < j {
      RungSquare(n, a, i);
      var x := Rung(n, a, i);
      assert x * x == x;
      ModSmall(x, n);
      RungStuck(n, a, i + 1, j);
    }
  }

  /** d is x with s zero bits shifted out. */
  ghost predicate Shifted(x: nat, d: nat, s: nat) {
    0 < d <= x && OddPart(d) == OddPart(x) && s + Twos(d) == Twos(x)
  }

  lemma {:induction false} ShiftedMore(x: nat, d: nat, s: nat, k: nat)
    requires Shifted(x, d, s) && d % Exp2(k) == 0
    ensures d / Exp2(k) <= d && Shifted(x, d / Exp2(k), s + k)
    ensures k > 0 ==> d / Exp2(k) < d
  {
    hide OddPart, Twos;
    ShiftOut(d, k);
    ShrinkBy(d, Exp2(k));
    if k > 0 {
      assert Exp2(k) == 2 * Exp2(k - 1);
    }
  }

  lemma {:induction false} ShrinkBy(d: nat, e: nat)
    requires e > 0
    ensures d / e <= d && (e > 1 && d > 0 ==> d / e < d)
  {
    var q, r := d / e, d % e;
    assert d == e * q + r;
    MulAtLeast(e, q);
    if e > 1 {
      MulAtLeast(e - 1, q);
      assert e * q == (e - 1) * q + q;
    }
  }

  /** The shifts of sprp: they leave the odd part of x and count the twos. */
  method SplitTwos(x: nat) returns (d: nat, s: nat)
    requires 0 < x < WORD
    ensures d == OddPart(x) && s == Twos(x) && d <= x
  {
    hide OddPart, Twos, And, Shifted, Exp2;
    d, s := x, 0;
    ShiftedStart(x);
    LowBits(d, 8);
    while And(0xff, d) == 0
      invariant Shifted(x, d, s) && And(0xff, d) == d % Exp2(8)
      decreases d
    {
      ShiftedMore(x, d, s, 8);
      d := d / 256;
      s := s + 8;
      LowBits(d, 8);
    }
    d, s := ShiftZeros(d, s, 4, x);
    d, s := ShiftZeros(d, s, 2, x);
    d, s := ShiftZeros(d, s, 1, x);
    LowBits(d, 1);
    ShiftedEnd(x, d, s);
  }

  /** One conditional shift by k bits: after it fewer than k zero bits are left. */
  method ShiftZeros(d: nat, s: nat, k: nat, ghost x: nat) returns (d': nat, s': nat)
    requires Shifted(x, d, s) && 1 <= k <= 4 && d % Exp2(2 * k) != 0
    ensures Shifted(x, d', s') && d' % Exp2(k) != 0
  {
    hide And, Shifted;
    d', s' := d, s;
    LowBits(d, k);
    if And(Exp2(k) - 1, d) == 0 {
      ShiftedMore(x, d, s, k);
      Exp2Square(k);
      FewerTwos(d, Exp2(k));
      d' := d / Exp2(k);
      s' := s + k;
    }
  }

  lemma {:induction false} Exp2Square(k: nat)
    ensures Exp2(2 * k) == Exp2(k) * Exp2(k)
  {
    if k > 0 {
      Exp2Square(k - 1);
      assert Exp2(2 * k) == 4 * Exp2(2 * (k - 1));
      var e := Exp2(k - 1);
      assert 4 * (e * e) == 2 * e * (2 * e);
    }
  }

  lemma {:induction false} FewerTwos(d: nat, e: nat)
    requires e > 0 && d % (e * e) != 0 && d % e == 0
    ensures (d / e) % e != 0
  {
    var q := d / e;
    var k := q / e;
    assert d == q * e;
    if q % e == 0 {
      assert q == k * e && d == k * (e * e);
      MultipleMod(k, e * e);
    }
  }

  lemma ShiftedStart(x: nat)
    requires x > 0
    ensures Shifted(x, x, 0)
  {
  }

  lemma {:induction false} ShiftedEnd(x: nat, d: nat, s: nat)
    requires Shifted(x, d, s) && d % 2 == 1
    ensures d == OddPart(x) && s == Twos(x) && d <= x
  {
    OddAlready(d);
  }

  lemma OddAlready(d: nat)
    requires d % 2 == 1
    ensures OddPart(d) == d && Twos(d) == 0
  {
  }

  lemma {:induction false} LowBits(d: nat, k: nat)
    requires 1 <= k <= 8
    ensures Exp2(1) == 2 && Exp2(2) == 4 && Exp2(4) == 16 && Exp2(8) == 256
    ensures And(Exp2(k) - 1, d) == d % Exp2(k)
  {
    Exp2IsPow2(k);
    AndMask(Exp2(k), d);
  }

  lemma {:induction false} Exp2IsPow2(k: nat)
    ensures IsPow2(Exp2(k))
  {
    if k > 0 {
      Exp2IsPow2(k - 1);
    }
  }

  /** The strong probable prime test. n = 1 would shift for ever and n = 0 would divide by zero. */
  method Sprp(n: nat, a: nat) returns (result: nat)
    requires 2 <= n < WORD && a < WORD
    ensures result == 0 || result == 1
    ensures n % 2 == 1 && a < n ==> (result == 1 <==> StrongProbablePrime(n, a))
    ensures n % 2 == 0 ==> (result == 1 <==> PowModResult(a, n - 1, n) == 1 || PowModResult(a, n - 1, n) == n - 1)
  {
    hide Pow, OddPart, Twos, Rung, MulModResult, StrongProbablePrime, BelowRung, PowModResult;
    var d, s := SplitTwos(n - 1);
    if n % 2 == 0 {
      OddAlready(n - 1);
    }
    var b: nat := PowMod(a, d, n);
    RungZero(n, a);
    TwosOfEven(n);
    FirstRung(n, a);
    if b == 1 || b == n - 1 {
      return 1;
    }
    ghost var good := a < n && n % 2 == 1;
    var r := 1;
    while r < s
      invariant b < WORD && 1 <= r && (good ==> r <= s) && (n % 2 == 0 ==> s == 0)
      invariant good ==> BelowRung(n, a, r) && b == Rung(n, a, r - 1)
    {
      RungSquare(n, a, r - 1);
      RungSmall(n, a, r - 1);
      b := MulMod(b, b, n);
      assert good ==> b == Rung(n, a, r);
      if b <= 1 {
        if good {
          NeverMinusOne(n, a, r);
        }
        return 0;
      }
      NextRung(n, a, r);
      if b == n - 1 {
        return 1;
      }
      r := r + 1;
    }
    if good {
      NoRung(n, a);
    }
    return 0;
  }

  lemma {:induction false} FirstRung(n: nat, a: nat)
    requires n > 1 && (n % 2 == 1 ==> Twos(n - 1) > 0)
    ensures n % 2 == 1 && (Rung(n, a, 0) == 1 || Rung(n, a, 0) == n - 1) ==> StrongProbablePrime(n, a)
    ensures Rung(n, a, 0) != 1 && Rung(n, a, 0) != n - 1 ==> BelowRung(n, a, 1)
  {
    hide Rung, Twos;
  }

  lemma {:induction false} NextRung(n: nat, a: nat, r: nat)
    requires n > 1
    ensures Rung(n, a, r) == n - 1 && r < Twos(n - 1) ==> StrongProbablePrime(n, a)
    ensures BelowRung(n, a, r) && Rung(n, a, r) != n - 1 ==> BelowRung(n, a, r + 1)
  {
    hide Rung, Twos;
  }

  lemma {:induction false} NoRung(n: nat, a: nat)
    requires n > 1 && BelowRung(n, a, Twos(n - 1))
    ensures !StrongProbablePrime(n, a)
  {
    hide Rung, Twos;
  }

  /** None of the first rungs makes n a strong probable prime. */
  ghost predicate BelowRung(n: nat, a: nat, r: nat)
    requires n > 0
  {
    r > 0 && Rung(n, a, 0) != 1 && forall i: nat :: i < r ==> Rung(n, a, i) != n - 1
  }

  lemma {:induction false} RungZero(n: nat, a: nat)
    requires n > 0
    ensures Rung(n, a, 0) == Pow(a, OddPart(n - 1)) % n
  {
    hide Pow, OddPart;
    assert OddPart(n - 1) * Exp2(0) == OddPart(n - 1);
  }

  lemma TwosOfEven(n: nat)
    requires n >= 2
    ensures n % 2 == 1 ==> Twos(n - 1) > 0
  {
  }

  /** After a rung of 0 or 1 there is no rung of -1. */
  lemma {:induction false} NeverMinusOne(n: nat, a: nat, r: nat)
    requires n > 2 && Rung(n, a, r) <= 1 && BelowRung(n, a, r)
    ensures !StrongProbablePrime(n, a)
  {
    hide Rung;
    forall i: nat | r <= i
      ensures Rung(n, a, i) != n - 1
    {
      RungStuck(n, a, r, i);
    }
  }

  /** Every odd prime passes the test to every base: walking down from a^(n-1) = 1, each square root
      of 1 is 1 or -1. */
  lemma {:induction false} PrimePasses(n: nat, a: nat)
    requires Prime(n) && n % 2 == 1 && 0 < a < n
    ensures StrongProbablePrime(n, a)
  {
    hide Pow, OddPart, Twos, Prime;
    var s := Twos(n - 1);
    OddPartTimesTwos(n - 1);
    Fermat(n, a);
    assert Rung(n, a, s) == 1;
    PrimeDescends(n, a, s);
  }

  lemma {:induction false} PrimeDescends(n: nat, a: nat, i: nat)
    requires Prime(n) && n % 2 == 1 && 0 < a < n && i <= Twos(n - 1)
    requires Rung(n, a, i) == 1
    ensures StrongProbablePrime(n, a)
    decreases i
  {
    hide Rung, Twos, Prime;
    if i > 0 {
      RungSquare(n, a, i - 1);
      RungSmall(n, a, i - 1);
      SqrtOne(n, Rung(n, a, i - 1));
      if Rung(n, a, i - 1) == 1 {
        PrimeDescends(n, a, i - 1);
      }
    }
  }

  lemma RungSmall(n: nat, a: nat, i: nat)
    requires n > 0
    ensures Rung(n, a, i) < n
  {
  }

  const BASES: set<nat> := {3, 5, 7, 11, 13, 17, 19, 23, 29, 31, 37}

  /** What is_prime decides: a strong probable prime to base 2, and from 2047 on to eleven more bases. */
  ghost predicate Accepted(n: nat) {
    && n > 1 && n % 2 == 1
    && (n == 3 || (StrongProbablePrime(n, 2) &&
                   (n < 2047 || forall a :: a in BASES ==> StrongProbablePrime(n, a))))
  }

  lemma {:induction false} RungOne(n: nat, a: nat, i: nat, j: nat)
    requires n > 1 && i <= j && Rung(n, a, i) == 1
    ensures Rung(n, a, j) == 1
    decreases j - i
  {
    hide Rung;
    if i < j {
      RungSquare(n, a, i);
      ModSmall(1, n);
      RungOne(n, a, i + 1, j);
    }
  }

  lemma {:induction false} RungAfterMinusOne(n: nat, a: nat, i: nat)
    requires n > 1 && Rung(n, a, i) == n - 1
    ensures Rung(n, a, i + 1) == 1
  {
    hide Rung;
    RungSquare(n, a, i);
    assert (n - 1) * (n - 1) == (n - 2) * n + 1;
    DivUnique((n - 1) * (n - 1), n, n - 2, 1);
  }

  lemma {:induction false} LastRung(n: nat, a: nat)
    requires n > 1
    ensures Rung(n, a, Twos(n - 1)) == Pow(a, n - 1) % n
  {
    hide Pow, OddPart, Twos;
    OddPartTimesTwos(n - 1);
  }

  /** A strong probable prime is a Fermat probable prime: a composite that fails Fermat's test to a base is rejected. */
  lemma {:induction false} StrongIsFermat(n: nat, a: nat)
    requires n > 1 && StrongProbablePrime(n, a)
    ensures Pow(a, n - 1) % n == 1
  {
    hide Pow, Rung, Twos;
    LastRung(n, a);
    if Rung(n, a, 0) == 1 {
      RungOne(n, a, 0, Twos(n - 1));
    } else {
      var i: nat :| i < Twos(n - 1) && Rung(n, a, i) == n - 1;
      RungAfterMinusOne(n, a, i);
      RungOne(n, a, i + 1, Twos(n - 1));
    }
  }

  ghost predicate PassesFermat(n: nat, a: nat)
    requires n > 0
  {
    Pow(a, n - 1) % n == 1
  }

  lemma {:induction false} AcceptedFermat(n: nat)
    requires Accepted(n) && n > 3
    ensures Pow(2, n - 1) % n == 1
    ensures n >= 2047 ==> forall a :: a in {3, 5, 7, 11, 13, 17, 19, 23, 29, 31, 37} ==> PassesFermat(n, a)
  {
    hide Pow, StrongProbablePrime;
    StrongIsFermat(n, 2);
    if n >= 2047 {
      forall a | a in {3, 5, 7, 11, 13, 17, 19, 23, 29, 31, 37} ensures PassesFermat(n, a) {
        assert a in BASES;
        StrongIsFermat(n, a);
      }
    }
  }

  /** One step of a power worked out by hand. */
  lemma {:induction false} PowDouble(a: nat, e: nat, m: nat, r: nat, odd: bool, q: nat, t: nat)
    requires m > 0 && Pow(a, e) % m == r && t < m && r * r * (if odd then a else 1) == q * m + t
    ensures Pow(a, if odd then 2 * e + 1 else 2 * e) % m == t
  {
    var p := Pow(a, e);
    PowTwice(a, e);
    ReducedTwice(p, m);
    MulBoth(p, r, p, r, m);
    if odd {
      MulBoth(p * p, r * r, a, a, m);
      assert Pow(a, 2 * e + 1) == a * Pow(a, 2 * e);
      assert p * p * a == a * (p * p);
    }
    DivUnique(r * r * (if odd then a else 1), m, q, t);
  }

  /** 2047 passes the test to base 2, and fails it to base 3. */
  lemma {:induction false} PowersOfThree()
    ensures Pow(3, 2046) % 2047 == 1013
  {
    hide Pow;
    PowOne(3);
    PowDouble(3, 1, 2047, 3, true, 0, 27);
    PowDouble(3, 3, 2047, 27, true, 1, 140);
    PowDouble(3, 7, 2047, 140, true, 28, 1484);
    PowDouble(3, 15, 2047, 1484, true, 3227, 1099);
    PowDouble(3, 31, 2047, 1099, true, 1770, 213);
    PowDouble(3, 63, 2047, 213, true, 66, 1005);
    PowDouble(3, 127, 2047, 1005, true, 1480, 515);
    PowDouble(3, 255, 2047, 515, true, 388, 1439);
    PowDouble(3, 511, 2047, 1439, true, 3034, 1565);
    PowDouble(3, 1023, 2047, 1565, false, 1196, 1013);
  }

  lemma {:induction false} ThresholdRejected()
    ensures !Accepted(2047)
  {
    hide Pow, StrongProbablePrime;
    PowersOfThree();
    assert !PassesFermat(2047, 3);
    if Accepted(2047) {
      AcceptedFermat(2047);
    }
  }

  /**
   * The primality test: accepts every odd prime, and 2 is the only prime it rejects. What it accepts passes Fermat's
   * test to base 2, and from 2047 on to eleven more bases; 2047 itself, which passes to base 2, is rejected.
   */
  method IsPrime(n: nat) returns (result: nat)
    requires n < WORD
    ensures result == 0 || result == 1
    ensures result == 1 <==> Accepted(n)
    ensures Prime(n) ==> (result == 1 <==> n != 2)
    ensures n < 2 || n % 2 == 0 ==> result == 0
    ensures result == 1 && n > 3 ==> Pow(2, n - 1) % n == 1
    ensures result == 1 && n >= 2047 ==>
              forall a :: a in {3, 5, 7, 11, 13, 17, 19, 23, 29, 31, 37} ==> PassesFermat(n, a)
    ensures n == 2047 ==> result == 0
  {
    hide StrongProbablePrime, Prime, Pow;
    ThresholdRejected();
    if Accepted(n) && n > 3 {
      AcceptedFermat(n);
    }
    if Prime(n) {
      PrimeAccepted(n);
    }
    if n < 2 || n % 2 == 0 {
      return 0;
    }
    if n < 4 {
      return 1;
    }
    var passed := Sprp(n, 2);
    if passed == 0 {
      return 0;
    }
    if n < 2047 {
      return 1;
    }
    passed := Sprp(n, 3);
    if passed == 0 {
      return 0;
    }
    passed := Sprp(n, 5);
    if passed == 0 {
      return 0;
    }
    passed := Sprp(n, 7);
    if passed == 0 {
      return 0;
    }
    passed := Sprp(n, 11);
    if passed == 0 {
      return 0;
    }
    passed := Sprp(n, 13);
    if passed == 0 {
      return 0;
    }
    passed := Sprp(n, 17);
    if passed == 0 {
      return 0;
    }
    passed := Sprp(n, 19);
    if passed == 0 {
      return 0;
    }
    passed := Sprp(n, 23);
    if passed == 0 {
      return 0;
    }
    passed := Sprp(n, 29);
    if passed == 0 {
      return 0;
    }
    passed := Sprp(n, 31);
    if passed == 0 {
      return 0;
    }
    passed := Sprp(n, 37);
    if passed == 0 {
      return 0;
    }
    return 1;
  }

  lemma {:induction false} PrimeAccepted(n: nat)
    requires Prime(n)
    ensures n >= 2 && (Accepted(n) <==> n != 2)
  {
    hide StrongProbablePrime;
    if n > 2 {
      assert !Divides(2, n);
      PrimePasses(n, 2);
      if n >= 2047 {
        forall a | a in BASES
          ensures StrongProbablePrime(n, a)
        {
          PrimePasses(n, a);
        }
      }
    }
  }
}
