/** Congruences, greatest common divisors and inverses: the integer arithmetic
    behind the scalar field and behind the voter-interleaving stride. */
module ModArith {

  predicate Cong(a: int, b: int, q: nat)
    requires q > 0
  {
    (a - b) % q == 0
  }

  ghost predicate Prime(q: nat) {
    q >= 2 && forall d: nat :: 2 <= d < q ==> q % d != 0
  }

  // ----- division ----------------------------------------------------------

  lemma MultipleBound(d: int, q: nat)
    requires q > 0
    ensures d >= 1 ==> d * q >= q
    ensures d <= -1 ==> d * q + q <= 0
  {
    if d <= -1 {
      assert (d + 1) * q <= 0;
    }
  }

  lemma DivModUnique(a: int, q: nat, k: int, r: int)
    requires q > 0 && 0 <= r < q && a == k * q + r
    ensures a / q == k && a % q == r
  {
    var d := a / q - k;
    assert d * q == r - a % q by {
      assert a == (a / q) * q + a % q;
      assert d * q == (a / q) * q - k * q;
    }
    MultipleBound(d, q);
  }

  lemma CongIntro(a: int, b: int, k: int, q: nat)
    requires q > 0 && a - b == k * q
    ensures Cong(a, b, q)
  {
    DivModUnique(a - b, q, k, 0);
  }

  lemma CongElim(a: int, b: int, q: nat) returns (k: int)
    requires q > 0 && Cong(a, b, q)
    ensures a == b + k * q
  {
    k := (a - b) / q;
  }

  lemma ModCong(a: int, q: nat)
    requires q > 0
    ensures 0 <= a % q < q && Cong(a % q, a, q)
  {
    CongIntro(a % q, a, -(a / q), q);
  }

  lemma CongTrans(a: int, b: int, c: int, q: nat)
    requires q > 0 && Cong(a, b, q) && Cong(b, c, q)
    ensures Cong(a, c, q)
  {
    var k := CongElim(a, b, q);
    var m := CongElim(b, c, q);
    assert (k + m) * q == k * q + m * q;
    CongIntro(a, c, k + m, q);
  }

  lemma CongSym(a: int, b: int, q: nat)
    requires q > 0 && Cong(a, b, q)
    ensures Cong(b, a, q)
  {
    var k := CongElim(a, b, q);
    assert (-k) * q == -(k * q);
    CongIntro(b, a, -k, q);
  }

  /** a*x + b*y respects congruence in x and y. */
  lemma CongCombine(a: int, x: int, x': int, b: int, y: int, y': int, q: nat)
    requires q > 0 && Cong(x, x', q) && Cong(y, y', q)
    ensures Cong(a * x + b * y, a * x' + b * y', q)
  {
    var k := CongElim(x, x', q);
    var m := CongElim(y, y', q);
    calc {
      a * x + b * y;
      a * (x' + k * q) + b * (y' + m * q);
      a * x' + a * (k * q) + b * y' + b * (m * q);
      { assert a * (k * q) == (a * k) * q && b * (m * q) == (b * m) * q; }
      a * x' + b * y' + ((a * k) * q + (b * m) * q);
      { assert (a * k) * q + (b * m) * q == (a * k + b * m) * q; }
      a * x' + b * y' + (a * k + b * m) * q;
    }
    CongIntro(a * x + b * y, a * x' + b * y', a * k + b * m, q);
  }

  lemma CongAdd(x: int, x': int, y: int, y': int, q: nat)
    requires q > 0 && Cong(x, x', q) && Cong(y, y', q)
    ensures Cong(x + y, x' + y', q)
  {
    CongCombine(1, x, x', 1, y, y', q);
  }

  lemma CongScale(a: int, x: int, x': int, q: nat)
    requires q > 0 && Cong(x, x', q)
    ensures Cong(a * x, a * x', q)
  {
    CongIntro(0, 0, 0, q);
    CongCombine(a, x, x', 0, 0, 0, q);
  }

  lemma CongMul(x: int, x': int, y: int, y': int, q: nat)
    requires q > 0 && Cong(x, x', q) && Cong(y, y', q)
    ensures Cong(x * y, x' * y', q)
  {
    CongCombine(y, x, x', 0, y, y', q);
    CongCombine(x', y, y', 0, x, x, q);
    assert y * x == x * y;
    CongTrans(x * y, x' * y, x' * y', q);
  }

  lemma CongUnique(a: int, b: int, q: nat)
    requires q > 0 && Cong(a, b, q) && 0 <= a < q && 0 <= b < q
    ensures a == b
  {
    var k := CongElim(a, b, q);
    MultipleBound(k, q);
  }

  lemma CongModEq(a: int, b: int, q: nat)
    requires q > 0
    ensures Cong(a, b, q) <==> a % q == b % q
  {
    ModCong(a, q);
    ModCong(b, q);
    if Cong(a, b, q) {
      CongTrans(a % q, a, b, q);
      CongSym(b % q, b, q);
      CongTrans(a % q, b, b % q, q);
      CongUnique(a % q, b % q, q);
    }
    if a % q == b % q {
      CongSym(a % q, a, q);
      CongTrans(a, a % q, b, q);
    }
  }

  // ----- greatest common divisor -------------------------------------------

  function Gcd(a: nat, b: nat): (d: nat)
    ensures a > 0 || b > 0 ==> d > 0
    decreases b
  {
    if b == 0 then a else Gcd(b, a % b)
  }

  /** Coefficients x, y with a*x + b*y == Gcd(a, b). */
  function Bezout(a: nat, b: nat): (r: (int, int))
    decreases b
  {
    if b == 0 then (1, 0)
    else
      var (x, y) := Bezout(b, a % b);
      (y, x - (a / b) * y)
  }

  lemma BackSubstitute(a: int, b: int, k: int, r: int, x: int, y: int)
    requires a == k * b + r
    ensures b * x + r * y == a * y + b * (x - k * y)
  {
    calc {
      a * y + b * (x - k * y);
      (k * b + r) * y + b * (x - k * y);
      { assert (k * b + r) * y == b * (k * y) + r * y; }
      b * (k * y) + r * y + b * (x - k * y);
      { assert b * (k * y) + b * (x - k * y) == b * x; }
      b * x + r * y;
    }
  }

  lemma {:induction false} BezoutIdentity(a: nat, b: nat)
    ensures var (x, y) := Bezout(a, b); a * x + b * y == Gcd(a, b)
    decreases b
  {
    if b > 0 {
      BezoutIdentity(b, a % b);
      var (x, y) := Bezout(b, a % b);
      var k, r := a / b, a % b;
      QuotRem(a, b);
      assert Bezout(a, b) == (y, x - k * y) && Gcd(a, b) == Gcd(b, r);
      hide *;
      BackSubstitute(a, b, k, r, x, y);
    }
  }

  lemma QuotRem(a: nat, b: nat)
    requires b > 0
    ensures a == (a / b) * b + a % b && a / b >= 0 && 0 <= a % b < b
  {
  }

  lemma DividesSum(k: int, b: int, r: int, d: nat)
    requires d > 0 && b % d == 0 && r % d == 0
    ensures (k * b + r) % d == 0
  {
    var m, n := b / d, r / d;
    assert k * (m * d) + n * d == (k * m + n) * d;
    DivModUnique(k * b + r, d, k * m + n, 0);
  }

  /** A divisor is no larger than what it divides. */
  lemma DivisorBound(d: nat, a: nat)
    requires d > 0 && a > 0 && a % d == 0
    ensures d <= a
  {
    assert a == (a / d) * d;
    MultipleBound(a / d, d);
  }

  /** The gcd divides both arguments. */
  lemma {:induction false} GcdDivides(a: nat, b: nat)
    requires a > 0 || b > 0
    ensures a % Gcd(a, b) == 0 && b % Gcd(a, b) == 0
    decreases b
  {
    var d := Gcd(a, b);
    if b == 0 {
      DivModUnique(a, a, 1, 0);
      DivModUnique(0, a, 0, 0);
    } else {
      GcdDivides(b, a % b);
      QuotRem(a, b);
      DividesSum(a / b, b, a % b, d);
    }
  }

  lemma GcdOne(v: nat)
    requires v > 0
    ensures Gcd(1, v) == 1
  {
    GcdDivides(1, v);
    DivisorBound(Gcd(1, v), 1);
  }

  // ----- the scalar field --------------------------------------------------

  /** `Scalar::invert`: the inverse of a modulo q, and 0 for 0. */
  function Inverse(a: int, q: nat): int
    requires q > 0
  {
    if a % q == 0 then 0 else Bezout(a % q, q).0
  }

  lemma InverseCorrect(a: int, q: nat)
    requires Prime(q) && !Cong(a, 0, q)
    ensures Cong(a * Inverse(a, q), 1, q)
  {
    var r := a % q;
    ModCong(a, q);
    assert a - 0 == a;
    var d := Gcd(r, q);
    GcdDivides(r, q);
    DivisorBound(d, r);
    BezoutIdentity(r, q);
    var (x, y) := Bezout(r, q);
    assert r * x - 1 == (-y) * q;
    CongIntro(r * x, 1, -y, q);
    CongSym(r, a, q);
    CongMul(a, r, x, x, q);
    CongTrans(a * x, r * x, 1, q);
  }

  /** A nonzero scalar cancels. */
  lemma Cancel(a: int, x: int, y: int, q: nat)
    requires Prime(q) && !Cong(a, 0, q) && Cong(a * x, a * y, q)
    ensures Cong(x, y, q)
  {
    var i := Inverse(a, q);
    InverseCorrect(a, q);
    CongMul(i, i, a * x, a * y, q);
    CongMul(a * i, 1, x, x, q);
    CongMul(a * i, 1, y, y, q);
    assert i * (a * x) == (a * i) * x && i * (a * y) == (a * i) * y;
    CongSym((a * i) * x, x, q);
    CongTrans(x, (a * i) * x, (a * i) * y, q);
    CongTrans(x, (a * i) * y, y, q);
  }
}
