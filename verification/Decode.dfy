/** Recovering the integer T from the point T*G, by linear scan and by
    baby-step giant-step. */
module Decode {
  import opened Wrappers
  import opened ModArith
  import opened Group

  const BSGS_THRESHOLD: nat := 50_000

  /** The only T in [0, max] with T*G == p, if there is one (max < q). */
  function Decoded(p: Point, max: nat): Option<nat> {
    if 0 <= p.log <= max then Some(p.log) else None
  }

  method LinearDecode(p: Point, max: nat, q: nat) returns (r: Option<nat>)
    requires 1 < q && max < q && Element(p, q)
    ensures r == Decoded(p, max)
  {
    var candidate := Identity;
    var k := 0;
    while k <= max
      invariant 0 <= k <= max + 1
      invariant k < q ==> candidate == Point(k)
      invariant p.log >= k
    {
      if candidate == p {
        return Some(k);
      }
      NextMultiple(k, q);
      candidate := Add(candidate, Base(q), q);
      k := k + 1;
    }
    r := None;
  }

  lemma NextMultiple(k: nat, q: nat)
    requires 1 < q && k < q
    ensures Base(q) == Point(1)
    ensures k + 1 < q ==> Add(Point(k), Base(q), q) == Point(k + 1)
  {
    DivModUnique(1, q, 0, 1);
    if k + 1 < q {
      DivModUnique(k + 1, q, 0, k + 1);
    }
  }

  /** The step the giant steps take: the ceiling of the square root of n. */
  method CeilSqrt(n: nat) returns (m: nat)
    requires n >= 1
    ensures 1 <= m <= n && m * m >= n && (m - 1) * (m - 1) < n
  {
    m := 1;
    while m * m < n
      invariant 1 <= m <= n && (m - 1) * (m - 1) < n
      decreases n - m
    {
      m := m + 1;
    }
  }

  method BabySteps(m: nat, q: nat) returns (table: map<Point, nat>)
    requires 1 < q && m <= q
    ensures forall p :: p in table <==> 0 <= p.log < m
    ensures forall p :: p in table ==> table[p] == p.log
  {
    table := map[];
    var baby := Identity;
    var j := 0;
    while j < m
      invariant 0 <= j <= m
      invariant j < q ==> baby == Point(j)
      invariant forall p :: p in table <==> 0 <= p.log < j
      invariant forall p :: p in table ==> table[p] == p.log
    {
      table := table[baby := j];
      NextMultiple(j, q);
      baby := Add(baby, Base(q), q);
      j := j + 1;
    }
  }

  method BsgsDecode(p: Point, max: nat, q: nat) returns (r: Option<nat>)
    requires 1 < q && max < q && Element(p, q)
    ensures r == Decoded(p, max)
  {
    var m := CeilSqrt(max + 1);
    var table := BabySteps(m, q);
    var giant := Mul(m, Base(q), q);
    RepresentsGiant(m, q);
    var gamma := p;
    CongIntro(p.log, p.log - 0, 0, q);
    hide Represents, Cong, Sub;
    ghost var s := 0;  // i * m
    var i := 0;
    while i <= m
      invariant 0 <= i <= m + 1 && s == i * m
      invariant Represents(gamma, p.log - s, q)
      invariant p.log <= max ==> p.log >= s
    {
      GiantStep(p, gamma, s, m, max, q);
      if gamma in table {
        var t := i * m + table[gamma];
        if t <= max {
          return Some(t);
        }
      }
      AfterGiant(gamma, p.log - s, giant, m, q);
      gamma := Sub(gamma, giant, q);
      Next(i, m);
      i := i + 1;
      s := s + m;
    }
    Next(m, m);
    r := None;
  }

  lemma Next(i: nat, m: nat)
    ensures (i + 1) * m == i * m + m
  {
  }

  lemma AfterGiant(gamma: Point, v: int, giant: Point, m: nat, q: nat)
    requires q > 0 && Represents(gamma, v, q) && Represents(giant, m, q)
    ensures Represents(Sub(gamma, giant, q), v - m, q)
  {
    hide Cong;
    RepresentsSub(gamma, v, giant, m, q);
  }

  lemma RepresentsGiant(m: nat, q: nat)
    requires 1 < q
    ensures Represents(Mul(m, Base(q), q), m, q)
  {
    CongIntro(m, m, 0, q);
    RepresentsBase(q);
    hide Cong;
    RepresentsMul(m, m, Base(q), 1, q);
  }

  /** A table hit within range is the answer, and the right giant step hits. */
  lemma GiantStep(p: Point, gamma: Point, s: nat, m: nat, max: nat, q: nat)
    requires 1 < q && max < q && Element(p, q) && 1 <= m && Represents(gamma, p.log - s, q)
    ensures 0 <= gamma.log
    ensures gamma.log < m && s + gamma.log <= max ==> p.log == s + gamma.log
    ensures p.log <= max && s <= p.log < s + m ==> gamma.log == p.log - s
  {
    var k := CongElim(gamma.log, p.log - s, q);
    MultipleBound(k, q);
  }

  /** The scan used below 50,000 accepted ballots, giant steps from there on. */
  method DecodeTally(p: Point, max: nat, q: nat) returns (r: Option<nat>)
    requires 1 < q && max < q && Element(p, q)
    ensures r == Decoded(p, max)
  {
    if max < BSGS_THRESHOLD {
      r := LinearDecode(p, max, q);
    } else {
      r := BsgsDecode(p, max, q);
    }
  }
}
