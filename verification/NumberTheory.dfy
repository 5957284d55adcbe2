/** Powers, congruences and primes: what the strong probable prime test rests on. */
module NumberTheory {
  import opened Bits

  ghost function Pow(a: nat, n: nat): nat {
    if n == 0 then 1 else a * Pow(a, n - 1)
  }

  ghost predicate Divides(d: nat, n: int)
    requires d > 0
  {
    n % d == 0
  }

  ghost predicate Prime(p: nat) {
    p >= 2 && forall d {:trigger Divides(d, p)} :: 2 <= d < p ==> !Divides(d, p)
  }

  lemma {:induction false} ModFactor(x: int, y: int, m: nat)
    requires m > 0
    ensures (x % m * y) % m == (x * y) % m
  {
    var q, r := x / m, x % m;
    var q', r' := (r * y) / m, (r * y) % m;
    assert x == q * m + r && r * y == q' * m + r';
    assert x * y == (q * y + q') * m + r' by {
      assert x * y == q * m * y + r * y;
      assert q * m * y == q * y * m;
    }
    DivUnique(x * y, m, q * y + q', r');
  }

  lemma {:induction false} ModTerm(x: int, y: int, m: nat)
    requires m > 0
    ensures (x % m + y) % m == (x + y) % m
  {
    var q, r := x / m, x % m;
    var q', r' := (r + y) / m, (r + y) % m;
    assert x + y == (q + q') * m + r';
    DivUnique(x + y, m, q + q', r');
  }

  /** Congruent numbers differ by a multiple of the modulus, and the other way round. */
  lemma {:induction false} CongruentDivides(x: int, y: int, m: nat)
    requires m > 0
    ensures x % m == y % m <==> Divides(m, x - y)
  {
    var q, r := x / m, x % m;
    var q', r' := y / m, y % m;
    if r == r' {
      assert x - y == (q - q') * m;
      MultipleMod(q - q', m);
    } else {
      assert x - y == (q - q') * m + (r - r');
      assert x - y == (q - q' - 1) * m + (r - r' + m);
      if r > r' {
        DivUnique(x - y, m, q - q', r - r');
      } else {
        DivUnique(x - y, m, q - q' - 1, r - r' + m);
      }
    }
  }

  lemma {:induction false} ModSmall(x: nat, m: nat)
    requires x < m
    ensures x % m == x
  {
    DivUnique(x, m, 0, x);
  }

  /** Congruence is kept by multiplication. */
  lemma {:induction false} MulCongruent(x: int, x': int, y: int, m: nat)
    requires m > 0 && x % m == x' % m
    ensures (x * y) % m == (x' * y) % m
  {
    ModFactor(x, y, m);
    ModFactor(x', y, m);
  }

  lemma {:induction false} DividesProduct(d: nat, x: int, y: int)
    requires d > 0 && Divides(d, x)
    ensures Divides(d, x * y)
  {
    var k := x / d;
    assert x * y == k * y * d;
    MultipleMod(k * y, d);
  }

  lemma {:induction false} DividesDifference(d: nat, x: int, y: int)
    requires d > 0 && Divides(d, x) && Divides(d, y)
    ensures Divides(d, x - y)
  {
    ModSum(x, y, d);
  }

  /** Euclid's lemma, by descent on the first factor. */
  lemma {:induction false} EuclidSmall(p: nat, a: nat, b: int)
    requires Prime(p) && 0 < a < p && Divides(p, a * b)
    ensures Divides(p, b)
    decreases a
  {
    if a > 1 {
      var q, r := p / a, p % a;
      assert !Divides(a, p) && r > 0;
      assert r * b == p * b - q * (a * b) by {
        assert r == p - q * a;
        assert (p - q * a) * b == p * b - q * a * b;
      }
      MultipleMod(b, p);
      DividesProduct(p, a * b, q);
      assert Divides(p, p * b) && Divides(p, q * (a * b));
      DividesDifference(p, p * b, q * (a * b));
      EuclidSmall(p, r, b);
    } else {
      assert a * b == b;
    }
  }

  lemma {:induction false} Euclid(p: nat, a: int, b: int)
    requires Prime(p) && Divides(p, a * b)
    ensures Divides(p, a) || Divides(p, b)
  {
    if !Divides(p, a) {
      ModFactor(a, b, p);
      EuclidSmall(p, a % p, b);
    }
  }

  /** A square root of 1 modulo a prime is 1 or -1. */
  lemma {:induction false} SqrtOne(p: nat, x: nat)
    requires Prime(p) && x < p && (x * x) % p == 1
    ensures x == 1 || x == p - 1
  {
    ModSmall(1, p);
    CongruentDivides(x * x, 1, p);
    assert x * x - 1 == (x - 1) * (x + 1);
    Euclid(p, x - 1, x + 1);
    if Divides(p, x - 1) {
      if x > 1 {
        ModSmall(x - 1, p);
      } else if x == 0 {
        DivUnique(-1, p, -1, p - 1);
      }
    } else if x + 1 < p {
      ModSmall(x + 1, p);
    }
  }

  // Fermat's little theorem: multiplying by a permutes the non-zero residues.

  ghost function Residues(p: nat): (s: set<nat>)
    ensures forall i :: i in s <==> 1 <= i < p
    ensures |s| == if p == 0 then 0 else p - 1
  {
    if p <= 1 then {} else Residues(p - 1) + {p - 1}
  }

  ghost function Product(s: set<nat>): nat {
    if s == {} then 1 else
      var x :| x in s;
      x * Product(s - {x})
  }

  lemma {:induction false} ProductRemove(s: set<nat>, x: nat)
    requires x in s
    ensures Product(s) == x * Product(s - {x})
    decreases s
  {
    var y :| y in s && Product(s) == y * Product(s - {y});
    if y != x {
      ProductRemove(s - {y}, x);
      ProductRemove(s - {x}, y);
      assert s - {y} - {x} == s - {x} - {y};
      SwapFactors(x, y, Product(s - {x} - {y}));
    }
  }

  lemma SwapFactors(x: nat, y: nat, z: nat)
    ensures y * (x * z) == x * (y * z)
  {
  }

  ghost function Times(a: nat, p: nat, i: nat): nat
    requires p > 0
  {
    (a * i) % p
  }

  ghost function Scaled(a: nat, p: nat, s: set<nat>): set<nat>
    requires p > 0
  {
    set i | i in s :: Times(a, p, i)
  }

  /** Distinct residues stay distinct when multiplied by a non-zero residue. */
  lemma {:induction false} ScaleInjective(a: nat, p: nat, i: nat, j: nat)
    requires Prime(p) && 0 < a < p && 1 <= i < p && 1 <= j < p
    requires (a * i) % p == (a * j) % p
    ensures i == j
  {
    CongruentDivides(a * i, a * j, p);
    assert a * i - a * j == a * (i - j);
    EuclidSmall(p, a, i - j);
    CongruentDivides(i, j, p);
    ModSmall(i, p);
    ModSmall(j, p);
  }

  lemma {:induction false} ScaleNonZero(a: nat, p: nat, i: nat)
    requires Prime(p) && 0 < a < p && 1 <= i < p
    ensures 1 <= Times(a, p, i) < p
  {
    if (a * i) % p == 0 {
      EuclidSmall(p, a, i);
      ModSmall(i, p);
    }
  }

  lemma {:induction false} ScaledSize(a: nat, p: nat, s: set<nat>)
    requires Prime(p) && 0 < a < p && s <= Residues(p)
    ensures |Scaled(a, p, s)| == |s| && Scaled(a, p, s) <= Residues(p)
    decreases s
  {
    hide Times, Residues, Prime;
    if s != {} {
      var x :| x in s;
      ScaledSize(a, p, s - {x});
      ScaleNonZero(a, p, x);
      ScaledRemove(a, p, s, x);
    } else {
      assert Scaled(a, p, s) == {};
    }
  }

  lemma {:induction false} ScaledProduct(a: nat, p: nat, s: set<nat>)
    requires Prime(p) && 0 < a < p && s <= Residues(p)
    ensures Product(Scaled(a, p, s)) % p == (Pow(a, |s|) * Product(s)) % p
    decreases s
  {
    hide Residues, Prime;
    if s != {} {
      var x :| x in s;
      var rest := s - {x};
      ScaledProduct(a, p, rest);
      var fx := Times(a, p, x);
      ScaledRemove(a, p, s, x);
      assert Scaled(a, p, s) - {fx} == Scaled(a, p, rest);
      ProductRemove(s, x);
      ProductRemove(Scaled(a, p, s), fx);
      ScaledStep(a, p, x, Product(Scaled(a, p, rest)), Pow(a, |rest|), Product(rest));
    } else {
      assert Scaled(a, p, s) == {};
    }
  }

  lemma {:induction false} ScaledRemove(a: nat, p: nat, s: set<nat>, x: nat)
    requires Prime(p) && 0 < a < p && s <= Residues(p) && x in s
    ensures Scaled(a, p, s) == Scaled(a, p, s - {x}) + {Times(a, p, x)}
    ensures Times(a, p, x) !in Scaled(a, p, s - {x})
  {
    var fx := Times(a, p, x);
    if fx in Scaled(a, p, s - {x}) {
      var i :| i in s - {x} && Times(a, p, i) == fx;
      ScaleInjective(a, p, i, x);
    }
    assert s == s - {x} + {x};
    forall y | y in Scaled(a, p, s)
      ensures y in Scaled(a, p, s - {x}) + {fx}
    {
      var i :| i in s && Times(a, p, i) == y;
      assert i == x || i in s - {x};
    }
  }

  lemma {:induction false} ScaledStep(a: nat, p: nat, x: nat, u: nat, k: nat, v: nat)
    requires p > 0 && u % p == (k * v) % p
    ensures ((a * x) % p * u) % p == (a * k * (x * v)) % p
  {
    ModFactor(a * x, u, p);
    MulCongruent(u, k * v, a * x, p);
    assert a * x * u == u * (a * x);
    assert k * v * (a * x) == a * k * (x * v);
  }

  lemma {:induction false} ProductNotDivided(p: nat, s: set<nat>)
    requires Prime(p) && s <= Residues(p)
    ensures !Divides(p, Product(s))
    decreases s
  {
    if s == {} {
      ModSmall(1, p);
    } else {
      var x :| x in s && Product(s) == x * Product(s - {x});
      ProductNotDivided(p, s - {x});
      if Divides(p, Product(s)) {
        EuclidSmall(p, x, Product(s - {x}));
      }
    }
  }

  lemma {:induction false} FullSubset(s: set<nat>, t: set<nat>)
    requires s <= t && |s| == |t|
    ensures s == t
  {
    assert |t - s| == |t| - |s|;
  }

  /** Fermat's little theorem. */
  lemma {:induction false} Fermat(p: nat, a: nat)
    requires Prime(p) && 0 < a < p
    ensures Pow(a, p - 1) % p == 1
  {
    var all := Residues(p);
    ScaledProduct(a, p, all);
    ScaledSize(a, p, all);
    FullSubset(Scaled(a, p, all), all);
    ProductNotDivided(p, all);
    var k, v := Pow(a, p - 1), Product(all);
    Cancel(p, k, v);
  }

  lemma {:induction false} Cancel(p: nat, k: nat, v: nat)
    requires Prime(p) && !Divides(p, v) && (k * v) % p == v % p
    ensures k % p == 1
  {
    CongruentDivides(k * v, v, p);
    assert k * v - v == (k - 1) * v;
    Euclid(p, k - 1, v);
    CongruentDivides(k, 1, p);
    ModSmall(1, p);
  }
}
