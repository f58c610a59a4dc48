/** Threshold decryption: any qualifying set of verified shares recombines to
    the one secret the dealers share, so the published totals are unique. */
module Threshold {
  import opened Wrappers
  import opened ModArith
  import opened Group
  import opened Interpolation
  import opened Dkg
  import opened Decryption

  // ----- the Lagrange coefficient ------------------------------------------

  /** Interpolation points of a subset of trustee indices: index + 1. */
  function XCoords(indices: seq<nat>): (r: seq<int>)
    ensures |r| == |indices| && forall k :: 0 <= k < |r| ==> r[k] == indices[k] + 1
  {
    seq(|indices|, k requires 0 <= k < |indices| => indices[k] + 1)
  }

  function Numerator(x: int, ys: seq<int>): int {
    if ys == [] then 1
    else
      var n := |ys| - 1;
      Numerator(x, ys[..n]) * if ys[n] == x then 1 else -ys[n]
  }

  function Denominator(x: int, ys: seq<int>): int {
    if ys == [] then 1
    else
      var n := |ys| - 1;
      Denominator(x, ys[..n]) * if ys[n] == x then 1 else x - ys[n]
  }

  /** No other index coincides with x modulo q. */
  predicate Separate(x: int, ys: seq<int>, q: nat)
    requires q > 0
  {
    forall k :: 0 <= k < |ys| && ys[k] != x ==> !Cong(x, ys[k], q)
  }

  /** The weight is the quotient of the numerator and the denominator. */
  lemma {:induction false} WeightIsQuotient(x: int, ys: seq<int>, q: nat)
    requires Prime(q) && Separate(x, ys, q)
    ensures Cong(Weight(x, ys, q) * Denominator(x, ys), Numerator(x, ys), q)
    ensures !Cong(Denominator(x, ys), 0, q)
  {
    if ys == [] {
      CongIntro(1, 1, 0, q);
      assert !Cong(1, 0, q) by {
        DivModUnique(1, q, 0, 1);
      }
    } else {
      var n := |ys| - 1;
      var front, y := ys[..n], ys[n];
      assert Separate(x, front, q) by {
        assert forall k :: 0 <= k < n ==> front[k] == ys[k];
      }
      WeightIsQuotient(x, front, q);
      assert ys == front + [y] && [y][1..] == [];
      WeightSplit(x, front, [y], q);
      var w, d, m := Weight(x, front, q), Denominator(x, front), Numerator(x, front);
      assert Weight(x, [y], q) == Factor(x, y, q);
      if y == x {
        assert Weight(x, ys, q) == w * 1 && Denominator(x, ys) == d * 1 && Numerator(x, ys) == m * 1;
      } else {
        assert x - y - 0 == x - y;
        InverseCorrect(x - y, q);
        QuotientStep(w, d, m, -y, Inverse(x - y, q), x - y, q);
        NonzeroProduct(d, x - y, q);
      }
    }
  }

  lemma QuotientStep(w: int, d: int, m: int, f: int, i: int, e: int, q: nat)
    requires q > 0 && Cong(w * d, m, q) && Cong(e * i, 1, q)
    ensures Cong((w * (f * i)) * (d * e), m * f, q)
  {
    hide *;
    CongMul(w * d, m, e * i, 1, q);
    CongScale(f, (w * d) * (e * i), m * 1, q);
    Rearrange(w, f, i, d, e);
    assert f * (m * 1) == m * f;
  }

  lemma Rearrange(w: int, f: int, i: int, d: int, e: int)
    ensures (w * (f * i)) * (d * e) == f * ((w * d) * (e * i))
  {
    calc {
      (w * (f * i)) * (d * e);
      { assert w * (f * i) == f * (w * i); }
      (f * (w * i)) * (d * e);
      f * ((w * i) * (d * e));
      { assert (w * i) * (d * e) == (w * d) * (e * i); }
      f * ((w * d) * (e * i));
    }
  }

  lemma NonzeroProduct(a: int, b: int, q: nat)
    requires Prime(q) && !Cong(a, 0, q) && !Cong(b, 0, q)
    ensures !Cong(a * b, 0, q)
  {
    hide Cong;
    if Cong(a * b, 0, q) {
      assert a * 0 == 0;
      Cancel(a, b, 0, q);
    }
  }

  /** None exactly when a different index of the subset coincides modulo q. */
  method LagrangeCoefficientAtZero(target: nat, subset: seq<nat>, q: nat) returns (r: Option<int>)
    requires Prime(q)
    ensures r.None? <==> !Separate(target + 1, XCoords(subset), q)
    ensures r.Some? ==> Cong(r.value, Weight(target + 1, XCoords(subset), q), q)
  {
    ghost var ys := XCoords(subset);
    ghost var x := target + 1;
    var xi := (target + 1) % q;
    var numerator, denominator := 1 % q, 1 % q;
    ModCong(1, q);
    var k := 0;
    while k < |subset|
      invariant 0 <= k <= |subset|
      invariant Separate(x, ys[..k], q)
      invariant Cong(numerator, Numerator(x, ys[..k]), q)
      invariant Cong(denominator, Denominator(x, ys[..k]), q)
    {
      var j := subset[k];
      assert ys[..k + 1][..k] == ys[..k];
      if j != target {
        var xj := (j + 1) % q;
        var diff := (xi - xj) % q;
        LagrangeStep(numerator, denominator, x, ys, k, q);
        if diff == 0 {
          return None;
        }
        numerator := (numerator * -xj) % q;
        denominator := (denominator * diff) % q;
      } else {
        assert Numerator(x, ys[..k + 1]) == Numerator(x, ys[..k]) * 1;
        assert Denominator(x, ys[..k + 1]) == Denominator(x, ys[..k]) * 1;
      }
      k := k + 1;
    }
    assert ys[..k] == ys;
    WeightIsQuotient(x, ys, q);
    DivideOut(numerator, Numerator(x, ys), denominator, Denominator(x, ys), Weight(x, ys, q), q);
    r := Some((numerator * Inverse(denominator, q)) % q);
  }

  lemma LagrangeStep(numerator: int, denominator: int, x: int, ys: seq<int>, k: nat, q: nat)
    requires q > 0 && k < |ys| && ys[k] != x
    requires Cong(numerator, Numerator(x, ys[..k]), q) && Cong(denominator, Denominator(x, ys[..k]), q)
    ensures var diff := (x % q - ys[k] % q) % q;
            && (diff == 0 <==> Cong(x, ys[k], q))
            && Cong((numerator * -(ys[k] % q)) % q, Numerator(x, ys[..k + 1]), q)
            && Cong((denominator * diff) % q, Denominator(x, ys[..k + 1]), q)
  {
    var y := ys[k];
    assert ys[..k + 1][..k] == ys[..k];
    ModCong(x, q);
    ModCong(y, q);
    CongCombine(1, x % q, x, -1, y % q, y, q);
    Reduced(x % q - y % q, x - y, q);
    var diff := (x % q - y % q) % q;
    CongModEq(diff, x - y, q);
    DivModUnique(diff, q, 0, diff);
    CongScale(-1, y % q, y, q);
    hide Cong;
    CongMul(numerator, Numerator(x, ys[..k]), -(y % q), -y, q);
    Reduced(numerator * -(y % q), Numerator(x, ys[..k]) * -y, q);
    CongMul(denominator, Denominator(x, ys[..k]), diff, x - y, q);
    Reduced(denominator * diff, Denominator(x, ys[..k]) * (x - y), q);
  }

  lemma DivideOut(n: int, n': int, d: int, d': int, w: int, q: nat)
    requires Prime(q) && Cong(n, n', q) && Cong(d, d', q) && !Cong(d', 0, q) && Cong(w * d', n', q)
    ensures Cong((n * Inverse(d, q)) % q, w, q)
  {
    hide Cong, Inverse;
    if Cong(d, 0, q) {
      CongSym(d, d', q);
      CongTrans(d', d, 0, q);
    }
    InverseCorrect(d, q);
    var i := Inverse(d, q);
    CongScale(w, d, d', q);
    CongTrans(w * d, w * d', n', q);
    CongSym(n, n', q);
    CongTrans(w * d, n', n, q);
    CongScale(n, d * i, 1, q);
    assert n * (d * i) == d * (n * i) && n * 1 == n && w * d == d * w;
    CongSym(d * w, n, q);
    CongTrans(d * (n * i), n, d * w, q);
    Cancel(d, n * i, w, q);
    Reduced(n * i, w, q);
  }

  /** The comment above the source function promises None on duplicates. It never
      notices one: whether it returns None depends on which indices occur, not on
      how often. */
  lemma DuplicatesUnnoticed(target: nat, a: seq<nat>, b: seq<nat>, q: nat)
    requires q > 0 && forall i :: i in a <==> i in b
    ensures Separate(target + 1, XCoords(a), q) <==> Separate(target + 1, XCoords(b), q)
  {
    SeparateByIndex(target, a, q);
    SeparateByIndex(target, b, q);
  }

  lemma SeparateByIndex(target: nat, subset: seq<nat>, q: nat)
    requires q > 0
    ensures Separate(target + 1, XCoords(subset), q) <==> forall i :: i in subset && i != target ==> !Cong(target + 1, i + 1, q)
  {
    hide Cong;
    var ys := XCoords(subset);
    forall i | i in subset && i != target && Separate(target + 1, ys, q) ensures !Cong(target + 1, i + 1, q) {
      var k :| 0 <= k < |subset| && subset[k] == i;
      assert ys[k] == i + 1;
    }
    forall k | 0 <= k < |ys| && ys[k] != target + 1 ensures subset[k] in subset && ys[k] == subset[k] + 1 {
    }
  }

  /** Among trustee indices below q it never returns None at all. */
  lemma SmallIndicesSeparate(target: nat, subset: seq<nat>, q: nat)
    requires q > 0 && target + 1 < q && forall k :: 0 <= k < |subset| ==> subset[k] + 1 < q
    ensures Separate(target + 1, XCoords(subset), q)
  {
    var ys := XCoords(subset);
    forall k | 0 <= k < |ys| && ys[k] != target + 1 ensures !Cong(target + 1, ys[k], q) {
      if Cong(target + 1, ys[k], q) {
        CongUnique(target + 1, ys[k], q);
      }
    }
  }

  // ----- recombination -----------------------------------------------------

  function Indices(subset: seq<VerifiedShare>): (r: seq<nat>)
    ensures |r| == |subset| && forall k :: 0 <= k < |r| ==> r[k] == subset[k].trusteeIndex
  {
    seq(|subset|, k requires 0 <= k < |subset| => subset[k].trusteeIndex)
  }

  /** Weighted sum of the logarithms of todo, with weights among ys. */
  function Recombine(todo: seq<VerifiedShare>, ys: seq<int>, q: nat): int
    requires q > 0
  {
    if todo == [] then 0
    else
      var n := |todo| - 1;
      Recombine(todo[..n], ys, q) + Weight(todo[n].trusteeIndex + 1, ys, q) * todo[n].share.log
  }

  function SharedSecret(subset: seq<VerifiedShare>, q: nat): int
    requires q > 0
  {
    Recombine(subset, XCoords(Indices(subset)), q)
  }

  /** The point the shares of `subset` recombine to. */
  method CombineShares(subset: seq<VerifiedShare>, q: nat) returns (r: Option<Point>)
    requires Prime(q) && forall k :: 0 <= k < |subset| ==> subset[k].trusteeIndex + 1 < q
    ensures r.Some? && Represents(r.value, SharedSecret(subset, q), q)
  {
    var indices := Indices(subset);
    ghost var ys := XCoords(indices);
    var sum := Identity;
    RepresentsIdentity(q);
    var k := 0;
    while k < |subset|
      invariant 0 <= k <= |subset|
      invariant Represents(sum, Recombine(subset[..k], ys, q), q)
    {
      var share := subset[k];
      SmallIndicesSeparate(share.trusteeIndex, indices, q);
      var lambda := LagrangeCoefficientAtZero(share.trusteeIndex, indices, q);
      if lambda.None? {
        return None;
      }
      assert subset[..k + 1][..k] == subset[..k];
      AddWeighted(sum, Recombine(subset[..k], ys, q), lambda.value, Weight(share.trusteeIndex + 1, ys, q), share.share, q);
      sum := Add(sum, Mul(lambda.value, share.share, q), q);
      k := k + 1;
    }
    assert subset[..k] == subset;
    r := Some(sum);
  }

  lemma AddWeighted(sum: Point, v: int, lambda: int, w: int, p: Point, q: nat)
    requires q > 0 && Represents(sum, v, q) && Cong(lambda, w, q)
    ensures Represents(Add(sum, Mul(lambda, p, q), q), v + w * p.log, q)
  {
    CongIntro(p.log, p.log, 0, q);
    hide Cong;
    RepresentsMul(lambda, w, p, p.log, q);
    RepresentsAdd(sum, v, Mul(lambda, p, q), w * p.log, q);
  }

  /** Interpolation at zero of the dealers' joint polynomial. */
  lemma {:induction false} JointInterpolate(dealers: seq<Polynomial>, xs: seq<int>, f: int -> int, q: nat)
    requires Prime(q) && DistinctMod(xs, q)
    requires forall d :: d in dealers ==> |d| <= |xs|
    requires forall x :: f(x) == JointEval(dealers, x)
    ensures Cong(Combine(xs, xs, f, q), JointEval(dealers, 0), q)
  {
    if dealers == [] {
      CombineLinear(xs, xs, 0, f, 0, f, f, q);
      CongIntro(0, 0, 0, q);
    } else {
      var front, last := dealers[..|dealers| - 1], dealers[|dealers| - 1];
      var g: int -> int := x => JointEval(front, x);
      var h: int -> int := x => Eval(last, x);
      assert forall x :: f(x) == 1 * g(x) + 1 * h(x);
      assert JointEval(dealers, 0) == JointEval(front, 0) + Eval(last, 0);
      assert last in dealers && forall d :: d in front ==> d in dealers;
      hide *;
      JointInterpolate(front, xs, g, q);
      InterpolateAtZero(last, xs, h, q);
      CombineLinear(xs, xs, 1, g, 1, h, f, q);
      CongAdd(Combine(xs, xs, g, q), JointEval(front, 0), Combine(xs, xs, h, q), Eval(last, 0), q);
    }
  }

  /** Trustee t's key is the joint polynomial's value at t + 1, times G. */
  ghost predicate KeysOf(publics: seq<Point>, dealers: seq<Polynomial>, q: nat)
    requires q > 0
  {
    forall t :: 0 <= t < |publics| ==> Cong(publics[t].log, JointEval(dealers, t + 1), q)
  }

  /** Each share of the list is its trustee's value of the joint polynomial times pad. */
  ghost predicate OnPolynomial(shares: seq<VerifiedShare>, dealers: seq<Polynomial>, pad: Point, q: nat)
    requires q > 0
  {
    forall k :: 0 <= k < |shares| ==>
      Cong(shares[k].share.log, JointEval(dealers, shares[k].trusteeIndex + 1) * pad.log, q)
  }

  lemma {:induction false} RecombineIsCombine(todo: seq<VerifiedShare>, ys: seq<int>, dealers: seq<Polynomial>,
                                              f: int -> int, pad: Point, q: nat)
    requires q > 0 && OnPolynomial(todo, dealers, pad, q)
    requires forall x :: f(x) == JointEval(dealers, x)
    ensures Cong(Recombine(todo, ys, q), pad.log * Combine(XCoords(Indices(todo)), ys, f, q), q)
  {
    var all := XCoords(Indices(todo));
    if todo == [] {
      CongIntro(0, pad.log * 0, 0, q);
    } else {
      var n := |todo| - 1;
      var front := todo[..n];
      var x := todo[n].trusteeIndex + 1;
      assert OnPolynomial(front, dealers, pad, q) by {
        assert forall k :: 0 <= k < n ==> front[k] == todo[k];
      }
      RecombineIsCombine(front, ys, dealers, f, pad, q);
      var init := XCoords(Indices(front));
      assert all == init + [x] && [x][1..] == [];
      CombineSplit(init, [x], ys, f, q);
      var w, v := Weight(x, ys, q), f(x);
      assert Combine([x], ys, f, q) == w * v;
      assert Recombine(todo, ys, q) == Recombine(front, ys, q) + w * todo[n].share.log;
      RecombineStep(w, v, pad.log, todo[n].share.log, Recombine(front, ys, q), Combine(init, ys, f, q), q);
    }
  }

  lemma RecombineStep(w: int, v: int, pad: int, share: int, r: int, c: int, q: nat)
    requires q > 0 && Cong(share, v * pad, q) && Cong(r, pad * c, q)
    ensures Cong(r + w * share, pad * (c + w * v), q)
  {
    hide *;
    CongScale(w, share, v * pad, q);
    assert w * (v * pad) == pad * (w * v);
    CongSumScaled(r, w * share, pad, c, w * v, q);
  }

  /** Any set of at least as many distinct verified shares as the polynomials
      have coefficients recombines to (joint secret) * pad. */
  lemma SubsetRecoversSecret(subset: seq<VerifiedShare>, dealers: seq<Polynomial>, pad: Point, q: nat)
    requires Prime(q) && OnPolynomial(subset, dealers, pad, q)
    requires forall d :: d in dealers ==> |d| <= |subset|
    requires forall k :: 0 <= k < |subset| ==> subset[k].trusteeIndex + 1 < q
    requires forall j, k :: 0 <= j < k < |subset| ==> subset[j].trusteeIndex != subset[k].trusteeIndex
    ensures Cong(SharedSecret(subset, q), JointEval(dealers, 0) * pad.log, q)
  {
    var xs := XCoords(Indices(subset));
    var f: int -> int := x => JointEval(dealers, x);
    assert DistinctMod(xs, q) by {
      forall j, k | 0 <= j < k < |xs| ensures !Cong(xs[j], xs[k], q) {
        if Cong(xs[j], xs[k], q) {
          CongUnique(xs[j], xs[k], q);
        }
      }
    }
    RecombineIsCombine(subset, xs, dealers, f, pad, q);
    JointInterpolate(dealers, xs, f, q);
    var secret, sum := JointEval(dealers, 0), Combine(xs, xs, f, q);
    hide *;
    CongScale(pad.log, sum, secret, q);
    CongTrans(SharedSecret(subset, q), pad.log * sum, pad.log * secret, q);
    assert pad.log * secret == secret * pad.log;
  }
}
