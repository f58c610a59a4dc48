/** Lagrange interpolation at zero over the scalar field. */
module Interpolation {
  import opened ModArith

  /** Horner value of the polynomial with coefficients cs, lowest first. */
  function Eval(cs: seq<int>, x: int): int {
    if cs == [] then 0 else cs[0] + x * Eval(cs[1..], x)
  }

  predicate DistinctMod(xs: seq<int>, q: nat)
    requires q > 0
  {
    forall i, j :: 0 <= i < j < |xs| ==> !Cong(xs[i], xs[j], q)
  }

  function Factor(x: int, y: int, q: nat): int
    requires q > 0
  {
    if y == x then 1 else -y * Inverse(x - y, q)
  }

  /** The Lagrange coefficient at zero of point x among ys. */
  function Weight(x: int, ys: seq<int>, q: nat): int
    requires q > 0
  {
    if ys == [] then 1 else Factor(x, ys[0], q) * Weight(x, ys[1..], q)
  }

  /** Sum over todo of the weight among ys times f. */
  function Combine(todo: seq<int>, ys: seq<int>, f: int -> int, q: nat): int
    requires q > 0
  {
    if todo == [] then 0
    else Weight(todo[0], ys, q) * f(todo[0]) + Combine(todo[1..], ys, f, q)
  }

  // ----- structure of weights and sums -------------------------------------

  lemma {:induction false} WeightSplit(x: int, a: seq<int>, b: seq<int>, q: nat)
    requires q > 0
    ensures Weight(x, a + b, q) == Weight(x, a, q) * Weight(x, b, q)
  {
    if a == [] {
      assert a + b == b;
    } else {
      WeightSplit(x, a[1..], b, q);
      assert (a + b)[1..] == a[1..] + b;
      var f, u, v := Factor(x, a[0], q), Weight(x, a[1..], q), Weight(x, b, q);
      assert f * (u * v) == (f * u) * v;
    }
  }

  lemma {:induction false} CombineSplit(a: seq<int>, b: seq<int>, ys: seq<int>, f: int -> int, q: nat)
    requires q > 0
    ensures Combine(a + b, ys, f, q) == Combine(a, ys, f, q) + Combine(b, ys, f, q)
  {
    if a == [] {
      assert a + b == b;
    } else {
      CombineSplit(a[1..], b, ys, f, q);
      assert (a + b)[1..] == a[1..] + b;
    }
  }

  lemma LinearTerm(w: int, a: int, s: int, cf: int, b: int, t: int, cg: int)
    ensures w * (a * s + b * t) + (a * cf + b * cg) == a * (w * s + cf) + b * (w * t + cg)
  {
    assert w * (a * s + b * t) == w * (a * s) + w * (b * t);
    assert w * (a * s) == a * (w * s) && w * (b * t) == b * (w * t);
    assert a * (w * s + cf) == a * (w * s) + a * cf;
    assert b * (w * t + cg) == b * (w * t) + b * cg;
  }

  lemma {:induction false} CombineLinear(todo: seq<int>, ys: seq<int>, a: int, f: int -> int, b: int, g: int -> int,
                                         h: int -> int, q: nat)
    requires q > 0 && forall x :: h(x) == a * f(x) + b * g(x)
    ensures Combine(todo, ys, h, q) == a * Combine(todo, ys, f, q) + b * Combine(todo, ys, g, q)
  {
    if todo != [] {
      var rest := todo[1..];
      CombineLinear(rest, ys, a, f, b, g, h, q);
      LinearTerm(Weight(todo[0], ys, q), a, f(todo[0]), Combine(rest, ys, f, q),
                 b, g(todo[0]), Combine(rest, ys, g, q));
    }
  }

  /** Multiplying by (x - b) removes b from the interpolation points. */
  lemma {:induction false} DropPoint(todo: seq<int>, a: seq<int>, b: int, c: seq<int>, f: int -> int, g: int -> int, q: nat)
    requires Prime(q) && forall x :: g(x) == (x - b) * f(x)
    requires forall x :: x in todo ==> !Cong(x, b, q)
    ensures Cong(Combine(todo, a + [b] + c, g, q), -b * Combine(todo, a + c, f, q), q)
  {
    var ys := a + [b] + c;
    if todo == [] {
      CongIntro(0, 0, 0, q);
    } else {
      var x, rest := todo[0], todo[1..];
      assert x in todo && forall y :: y in rest ==> y in todo;
      var w, w' := Weight(x, ys, q), Weight(x, a + c, q);
      var r, r' := Combine(rest, ys, g, q), Combine(rest, a + c, f, q);
      assert Combine(todo, ys, g, q) == w * ((x - b) * f(x)) + r;
      assert Combine(todo, a + c, f, q) == w' * f(x) + r';
      hide *;
      DropPoint(rest, a, b, c, f, g, q);
      DropTerm(x, a, b, c, f(x), q);
      CongSumScaled(w * ((x - b) * f(x)), r, -b, w' * f(x), r', q);
    }
  }

  lemma CongSumScaled(s: int, t: int, b: int, s': int, t': int, q: nat)
    requires q > 0 && Cong(s, b * s', q) && Cong(t, b * t', q)
    ensures Cong(s + t, b * (s' + t'), q)
  {
    hide *;
    CongAdd(s, b * s', t, b * t', q);
    assert b * s' + b * t' == b * (s' + t');
  }

  lemma DropTerm(x: int, a: seq<int>, b: int, c: seq<int>, v: int, q: nat)
    requires Prime(q) && !Cong(x, b, q)
    ensures Cong(Weight(x, a + [b] + c, q) * ((x - b) * v), -b * (Weight(x, a + c, q) * v), q)
  {
    var u, w, i := Weight(x, a, q), Weight(x, c, q), Inverse(x - b, q);
    assert Weight(x, a + [b] + c, q) == (u * (-b * i)) * w && Weight(x, a + c, q) == u * w by {
      WeightSplit(x, a + [b], c, q);
      WeightSplit(x, a, [b], q);
      WeightSplit(x, a, c, q);
    }
    assert Cong((x - b) * i, 1, q) by {
      assert x - b - 0 == x - b;
      InverseCorrect(x - b, q);
    }
    hide *;
    Regroup(u, w, b, i, x - b, v);
    CongScale(-b * ((u * w) * v), (x - b) * i, 1, q);
  }

  lemma Regroup(u: int, w: int, b: int, i: int, d: int, v: int)
    ensures ((u * (-b * i)) * w) * (d * v) == (-b * ((u * w) * v)) * (d * i)
    ensures -b * ((u * w) * v) == (-b * ((u * w) * v)) * 1
  {
    var m := u * w;
    calc {
      ((u * (-b * i)) * w) * (d * v);
      { assert (u * (-b * i)) * w == (-b * i) * m; }
      ((-b * i) * m) * (d * v);
      (-b * i) * (m * (d * v));
      { assert m * (d * v) == (m * v) * d; }
      (-b * i) * ((m * v) * d);
      { assert (-b * i) * ((m * v) * d) == -b * (i * ((m * v) * d)); }
      -b * (i * ((m * v) * d));
      { assert i * ((m * v) * d) == (m * v) * (d * i); }
      -b * ((m * v) * (d * i));
      (-b * (m * v)) * (d * i);
    }
  }

  /** The point b itself contributes nothing once multiplied by (x - b). */
  lemma DropFrom(a: seq<int>, b: int, c: seq<int>, f: int -> int, g: int -> int, q: nat)
    requires Prime(q) && forall x :: g(x) == (x - b) * f(x)
    requires DistinctMod(a + [b] + c, q)
    ensures Cong(Combine(a + [b] + c, a + [b] + c, g, q), -b * Combine(a + c, a + c, f, q), q)
  {
    var ys := a + [b] + c;
    Apart(a, b, c, q);
    assert Combine([b], ys, g, q) == 0 by {
      assert [b][1..] == [] && g(b) == 0 * f(b);
    }
    hide *;
    DropPoint(a, a, b, c, f, g, q);
    DropPoint(c, a, b, c, f, g, q);
    CombineSplit(a + [b], c, ys, g, q);
    CombineSplit(a, [b], ys, g, q);
    CombineSplit(a, c, a + c, f, q);
    CongSumScaled(Combine(a, ys, g, q), Combine(c, ys, g, q), -b, Combine(a, a + c, f, q), Combine(c, a + c, f, q), q);
  }

  lemma Apart(a: seq<int>, b: int, c: seq<int>, q: nat)
    requires q > 0 && DistinctMod(a + [b] + c, q)
    ensures forall x :: x in a || x in c ==> !Cong(x, b, q)
    ensures DistinctMod(a + c, q)
  {
    var ys := a + [b] + c;
    hide Cong;
    assert ys[|a|] == b;
    forall x | x in a ensures !Cong(x, b, q) {
      var i :| 0 <= i < |a| && a[i] == x;
      assert ys[i] == x;
    }
    forall x | x in c && Cong(x, b, q) ensures false {
      var i :| 0 <= i < |c| && c[i] == x;
      assert ys[|a| + 1 + i] == x;
      CongSym(x, b, q);
    }
    forall i, j | 0 <= i < j < |a + c| ensures !Cong((a + c)[i], (a + c)[j], q) {
      var i', j' := if i < |a| then i else i + 1, if j < |a| then j else j + 1;
      assert (a + c)[i] == ys[i'] && (a + c)[j] == ys[j'];
    }
  }

  /** Weighing x * h(x) instead of h(x) costs only the sum without the point b. */
  lemma Shift(a: seq<int>, b: int, c: seq<int>, h: int -> int, xh: int -> int, q: nat)
    requires Prime(q) && DistinctMod(a + [b] + c, q)
    requires forall x :: xh(x) == x * h(x)
    ensures var xs := a + [b] + c;
            Cong(1 * Combine(xs, xs, xh, q) + -b * Combine(xs, xs, h, q), -b * Combine(a + c, a + c, h, q), q)
  {
    var xs := a + [b] + c;
    var g: int -> int := x => 1 * xh(x) + -b * h(x);
    forall x ensures g(x) == (x - b) * h(x) {
      HornerStep(x, b, h(x));
    }
    hide *;
    DropFrom(a, b, c, h, g, q);
    CombineLinear(xs, xs, 1, xh, -b, h, g, q);
  }

  lemma HornerStep(x: int, b: int, v: int)
    ensures 1 * (x * v) + -b * v == (x - b) * v
  {
  }

  // ----- the theorem -------------------------------------------------------

  /** The Lagrange coefficients at zero sum to one. */
  lemma {:induction false} WeightsSumToOne(xs: seq<int>, one: int -> int, q: nat)
    requires Prime(q) && |xs| >= 1 && DistinctMod(xs, q)
    requires forall x :: one(x) == 1
    ensures Cong(Combine(xs, xs, one, q), 1, q)
    decreases |xs|
  {
    if |xs| == 1 {
      SingleWeight(xs[0], one, q);
      assert xs == [xs[0]];
    } else {
      var id: int -> int := x => x;
      hide *;
      WithoutEnds(xs, q);
      WeightsSumToOne(xs[1..], one, q);
      WeightsSumToOne(xs[..|xs| - 1], one, q);
      ShiftFirst(xs, one, id, q);
      ShiftLast(xs, one, id, q);
      SumIsOne(xs[0], xs[|xs| - 1], Combine(xs, xs, one, q), Combine(xs, xs, id, q), q);
    }
  }

  lemma WithoutEnds(xs: seq<int>, q: nat)
    requires q > 0 && |xs| >= 2 && DistinctMod(xs, q)
    ensures DistinctMod(xs[1..], q) && DistinctMod(xs[..|xs| - 1], q)
    ensures !Cong(xs[|xs| - 1], xs[0], q)
  {
    hide Cong;
    if Cong(xs[|xs| - 1], xs[0], q) {
      CongSym(xs[|xs| - 1], xs[0], q);
    }
  }

  lemma ShiftFirst(xs: seq<int>, one: int -> int, id: int -> int, q: nat)
    requires Prime(q) && |xs| >= 2 && DistinctMod(xs, q)
    requires forall x :: one(x) == 1 && id(x) == x
    requires Cong(Combine(xs[1..], xs[1..], one, q), 1, q)
    ensures Cong(1 * Combine(xs, xs, id, q) + -xs[0] * Combine(xs, xs, one, q), -xs[0] * 1, q)
  {
    assert xs == [] + [xs[0]] + xs[1..] && [] + xs[1..] == xs[1..];
    hide *;
    ShiftOne([], xs[0], xs[1..], one, id, q);
  }

  lemma ShiftLast(xs: seq<int>, one: int -> int, id: int -> int, q: nat)
    requires Prime(q) && |xs| >= 2 && DistinctMod(xs, q)
    requires forall x :: one(x) == 1 && id(x) == x
    requires Cong(Combine(xs[..|xs| - 1], xs[..|xs| - 1], one, q), 1, q)
    ensures Cong(1 * Combine(xs, xs, id, q) + -xs[|xs| - 1] * Combine(xs, xs, one, q), -xs[|xs| - 1] * 1, q)
  {
    var front := xs[..|xs| - 1];
    assert xs == front + [xs[|xs| - 1]] + [] && front + [] == front;
    hide *;
    ShiftOne(front, xs[|xs| - 1], [], one, id, q);
  }

  lemma ShiftOne(a: seq<int>, b: int, c: seq<int>, one: int -> int, id: int -> int, q: nat)
    requires Prime(q) && DistinctMod(a + [b] + c, q)
    requires forall x :: one(x) == 1 && id(x) == x
    requires Cong(Combine(a + c, a + c, one, q), 1, q)
    ensures var xs := a + [b] + c;
            Cong(1 * Combine(xs, xs, id, q) + -b * Combine(xs, xs, one, q), -b * 1, q)
  {
    var xs := a + [b] + c;
    var l := Combine(a + c, a + c, one, q);
    hide *;
    Shift(a, b, c, one, id, q);
    CongScale(-b, l, 1, q);
    CongTrans(1 * Combine(xs, xs, id, q) + -b * Combine(xs, xs, one, q), -b * l, -b * 1, q);
  }

  lemma SingleWeight(x: int, one: int -> int, q: nat)
    requires q > 0 && one(x) == 1
    ensures Cong(Combine([x], [x], one, q), 1, q)
  {
    assert [x][1..] == [];
    assert Weight(x, [x], q) == 1;
    CongIntro(1, 1, 0, q);
  }

  lemma SumIsOne(a: int, b: int, l: int, m: int, q: nat)
    requires Prime(q) && !Cong(b, a, q)
    requires Cong(1 * m + -a * l, -a * 1, q) && Cong(1 * m + -b * l, -b * 1, q)
    ensures Cong(l, 1, q)
  {
    assert !Cong(b - a, 0, q) by {
      assert b - a - 0 == b - a;
    }
    hide Cong, Prime;
    CongCombine(1, 1 * m + -a * l, -a * 1, -1, 1 * m + -b * l, -b * 1, q);
    assert 1 * (1 * m + -a * l) + -1 * (1 * m + -b * l) == (b - a) * l;
    assert 1 * (-a * 1) + -1 * (-b * 1) == (b - a) * 1;
    Cancel(b - a, l, 1, q);
  }

  /** Interpolation at zero recovers the constant term of every polynomial with
      at most as many coefficients as there are (distinct) points. */
  lemma {:induction false} InterpolateAtZero(cs: seq<int>, xs: seq<int>, f: int -> int, q: nat)
    requires Prime(q) && DistinctMod(xs, q) && |cs| <= |xs|
    requires forall x :: f(x) == Eval(cs, x)
    ensures Cong(Combine(xs, xs, f, q), Eval(cs, 0), q)
    decreases |cs|
  {
    var one: int -> int := _ => 1;
    if cs == [] {
      CombineLinear(xs, xs, 0, one, 0, one, f, q);
      CongIntro(0, 0, 0, q);
    } else {
      var n := |xs|;
      var b, c, rest := xs[n - 1], cs[0], cs[1..];
      var ys := xs[..n - 1];
      assert xs == ys + [b] + [] && ys + [] == ys;
      var h: int -> int := x => Eval(rest, x);
      var xh: int -> int := x => x * h(x);
      Apart(ys, b, [], q);
      assert forall x :: f(x) == c * one(x) + 1 * xh(x);
      assert Eval(cs, 0) == c;
      hide *;
      InterpolateAtZero(rest, ys, h, q);
      InterpolateAtZero(rest, xs, h, q);
      WeightsSumToOne(xs, one, q);
      Shift(ys, b, [], h, xh, q);
      CombineLinear(xs, xs, c, one, 1, xh, f, q);
      ConstantTerm(b, c, Eval(rest, 0), Combine(xs, xs, xh, q), Combine(ys, ys, h, q),
                   Combine(xs, xs, h, q), Combine(xs, xs, one, q), q);
    }
  }

  lemma Opposite(b: int, v: int)
    ensures -b * v == -(b * v)
  {
  }

  lemma ConstantTerm(b: int, c: int, v: int, m: int, dropped: int, ch: int, l: int, q: nat)
    requires q > 0 && Cong(1 * m + -b * ch, -b * dropped, q)
    requires Cong(dropped, v, q) && Cong(ch, v, q) && Cong(l, 1, q)
    ensures Cong(c * l + 1 * m, c, q)
  {
    hide *;
    CongScale(-b, dropped, v, q);
    CongTrans(1 * m + -b * ch, -b * dropped, -b * v, q);
    CongCombine(b, ch, v, c, l, 1, q);
    Opposite(b, ch);
    Opposite(b, v);
    CongAdd(1 * m + -b * ch, -b * v, b * ch + c * l, b * v + c * 1, q);
  }
}
