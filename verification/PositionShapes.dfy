/** When two positions of the realistic profile carry the same totals. */
module PositionShapes {
  import opened ModArith
  import opened Apportionment

  // ----- falling sequences -------------------------------------------------

  ghost predicate Falling(s: seq<nat>) {
    forall i, j :: 0 <= i < j < |s| ==> s[i] > s[j]
  }

  lemma {:induction false} FallsFrom(s: seq<nat>, i: nat, j: nat)
    requires (forall k: nat :: k + 1 < |s| ==> s[k] > s[k + 1]) && i < j < |s|
    ensures s[i] > s[j]
  {
    assert s[j - 1] > s[(j - 1) + 1];
    if i + 1 < j {
      FallsFrom(s, i, j - 1);
    }
  }

  /** A strictly falling sequence is determined by its multiset. */
  lemma {:induction false} FallingUnique(a: seq<nat>, b: seq<nat>)
    requires Falling(a) && Falling(b) && multiset(a) == multiset(b)
    ensures a == b
  {
    if a == [] {
      assert |multiset(b)| == 0;
    } else {
      assert a[0] in multiset(b) && |multiset(b)| == |a|;
      assert b[0] in multiset(a);
      assert a == [a[0]] + a[1..] && b == [b[0]] + b[1..];
      assert multiset(a[1..]) == multiset(a) - multiset{a[0]} && multiset(b[1..]) == multiset(b) - multiset{b[0]};
      FallingUnique(a[1..], b[1..]);
    }
  }

  /** Once the ranks fall strictly the correction does nothing, and the totals
      are determined by their multiset. */
  lemma LargeQuotas(voters: nat, c: nat, p: nat)
    requires voters >= c * (c + 1)
    ensures Quotas(voters, c, p) == RawQuotas(voters, c, p) && Falling(Quotas(voters, c, p))
  {
    var q := Quotas(voters, c, p);
    if c >= 2 {
      RawFalls(voters, c, p, 0);
    }
    QuotasStrictlyFall(voters, c, p);
    hide Quotas, RawQuotas;
    forall i, j | 0 <= i < j < |q| ensures q[i] > q[j] {
      FallsFrom(q, i, j);
    }
  }

  // ----- the same share held back ------------------------------------------

  lemma ModStep(a: nat, p: nat, d: nat, j: nat)
    requires d > 0 && j < d
    ensures (a + p) % d == j <==> a % d == (j - p) % d
  {
    if (a + p) % d == j {
      ModCong(a + p, d);
      CongIntro(p, p, 0, d);
      CongCombine(1, j, a + p, -1, p, p, d);
      CongModEq(j - p, a, d);
    }
    if a % d == (j - p) % d {
      CongModEq(a, j - p, d);
      CongIntro(p, p, 0, d);
      CongAdd(a, j - p, p, p, d);
      CongModEq(a + p, j, d);
      DivModUnique(j, d, 0, j);
    }
  }

  /** A round robin started at p gives slot j what one started at 0 gives slot j - p. */
  lemma {:induction false} RoundRobinShift(m: nat, p: nat, d: nat, j: nat)
    requires d > 0 && j < d
    ensures (j - p) % d >= 0 && RoundRobin(m, p, d, j) == Residues(m, d, (j - p) % d)
  {
    ModCong(j - p, d);
    if m > 0 {
      RoundRobinShift(m - 1, p, d, j);
      ResiduesStep(m - 1, d, (j - p) % d);
      ModStep(m - 1, p, d, j);
    } else {
      DivModUnique(0, d, 0, 0);
    }
  }

  /** Rounds that come out even, or start at the same slot. */
  predicate SameRounds(m: nat, p: nat, r: nat, d: nat)
    requires d > 0
  {
    m % d == 0 || p % d == r % d
  }

  lemma RoundRobinsAgree(m: nat, p: nat, r: nat, d: nat)
    requires d > 0 && SameRounds(m, p, r, d)
    ensures forall j: nat :: j < d ==> RoundRobin(m, p, d, j) == RoundRobin(m, r, d, j)
  {
    forall j: nat | j < d ensures RoundRobin(m, p, d, j) == RoundRobin(m, r, d, j) {
      RoundRobinShift(m, p, d, j);
      RoundRobinShift(m, r, d, j);
      if p % d == r % d {
        CongModEq(p, r, d);
        CongIntro(j, j, 0, d);
        CongCombine(1, j, j, -1, p, r, d);
        CongModEq(j - p, j - r, d);
      }
    }
  }

  /** Otherwise some slot tells the two starting points apart. */
  lemma RoundRobinsDiffer(m: nat, p: nat, r: nat, d: nat) returns (j: nat)
    requires d > 0 && m % d > 0 && p % d != r % d
    ensures j < d && RoundRobin(m, p, d, j) != RoundRobin(m, r, d, j)
  {
    GapPositive(p, r, d);
    hide SameRounds, RoundRobin;
    var gap := (p - r) % d;
    if gap >= m % d {
      j := p % d;
      ShiftedBack(p, p, r, 0, d);
    } else {
      j := (p - 1) % d;
      ShiftedBack(p - 1, p, r, 1, d);
      DivModUnique(d - 1, d, 0, d - 1);
    }
    TellsApart(m, p, r, d, j);
  }

  lemma TellsApart(m: nat, p: nat, r: nat, d: nat, j: nat)
    requires d > 0 && j < d && ((j - p) % d < m % d <==> !((j - r) % d < m % d))
    ensures RoundRobin(m, p, d, j) != RoundRobin(m, r, d, j)
  {
    RoundRobinShift(m, p, d, j);
    RoundRobinShift(m, r, d, j);
    hide RoundRobin;
  }

  lemma GapPositive(p: nat, r: nat, d: nat)
    requires d > 0 && p % d != r % d
    ensures 1 <= (p - r) % d < d
  {
    ModCong(p - r, d);
    if (p - r) % d == 0 {
      CongIntro(r, r, 0, d);
      CongAdd(p - r, 0, r, r, d);
      CongModEq(p, r, d);
    }
  }

  /** The distances of slot s = p - back from the two starting points. */
  lemma ShiftedBack(s: int, p: nat, r: nat, back: int, d: nat)
    requires d > 0 && s == p - back && 0 <= back <= (p - r) % d
    ensures 0 <= s % d < d && (s % d - r) % d == (p - r) % d - back
    ensures (s % d - p) % d == if back == 0 then 0 else (d - back) % d
  {
    var gap := (p - r) % d;
    ModCong(s, d);
    ModCong(p - r, d);
    CongIntro(r, r, 0, d);
    CongCombine(1, s % d, s, -1, r, r, d);
    CongIntro(back, back, 0, d);
    CongCombine(1, gap, p - r, -1, back, back, d);
    CongSym(gap - back, p - r - back, d);
    CongTrans(s % d - r, s - r, gap - back, d);
    CongModEq(s % d - r, gap - back, d);
    DivModUnique(gap - back, d, 0, gap - back);
    CongIntro(p, p, 0, d);
    CongCombine(1, s % d, s, -1, p, p, d);
    CongIntro(-back, d - back, -1, d);
    CongTrans(s % d - p, -back, d - back, d);
    CongModEq(s % d - p, d - back, d);
    if back == 0 {
      DivModUnique(d, d, 1, 0);
    }
  }

  /** Positions that hold back the same share have the same totals exactly when
      the remaining losers' half divides evenly, or both start at the same one. */
  lemma SameReserve(voters: nat, c: nat, p: nat, r: nat)
    requires c >= 2 && Reserve(voters, c, p) == Reserve(voters, c, r)
    ensures var alike := SameRounds((voters - Reserve(voters, c, p)) / 2, p, r, c - 1);
            && (Quotas(voters, c, p) == Quotas(voters, c, r) <==> alike)
            && (multiset(Quotas(voters, c, p)) == multiset(Quotas(voters, c, r)) <==> alike)
  {
    var base := voters - Reserve(voters, c, p);
    var alike := SameRounds(base / 2, p, r, c - 1);
    hide Reserve, Share, Assigned, RoundRobin, Quotas, SameRounds;
    if voters <= c * (c + 1) {
      SmallElectoratesLookAlike(voters, c, p, r);
      assert alike by {
        NothingLeft(voters, c, p, r);
      }
    } else {
      LargeQuotas(voters, c, p);
      LargeQuotas(voters, c, r);
      SkewedSplit(base, p, c);
      SkewedSplit(base, r, c);
      if alike {
        RoundRobinsAgree(base / 2, p, r, c - 1);
        forall k: nat | k < c ensures Raw(voters, c, p, k) == Raw(voters, c, r, k) {
          if k > 0 {
            assert k - 1 < c - 1;
          }
        }
        assert RawQuotas(voters, c, p) == RawQuotas(voters, c, r);
      } else {
        var j := RoundRobinsDiffer(base / 2, p, r, c - 1);
        assert Raw(voters, c, p, j + 1) != Raw(voters, c, r, j + 1);
        assert RawQuotas(voters, c, p)[j + 1] != RawQuotas(voters, c, r)[j + 1];
        if multiset(Quotas(voters, c, p)) == multiset(Quotas(voters, c, r)) {
          FallingUnique(Quotas(voters, c, p), Quotas(voters, c, r));
        }
      }
    }
  }

  lemma NothingLeft(voters: nat, c: nat, p: nat, r: nat)
    requires c >= 2 && voters <= c * (c + 1)
    ensures SameRounds((voters - Reserve(voters, c, p)) / 2, p, r, c - 1)
  {
    DivModUnique(0, c - 1, 0, 0);
  }

  // ----- different shares held back ----------------------------------------

  /** d times a round-robin share is m, give or take d - 1. */
  lemma RoundRobinNear(m: nat, p: nat, d: nat, j: nat)
    requires d > 0 && j < d
    ensures m - (d - 1) <= d * RoundRobin(m, p, d, j) <= m + (d - 1)
  {
    RoundRobinShift(m, p, d, j);
    ModCong(j - p, d);
    ResiduesNear(m, d, (j - p) % d);
  }

  lemma ResiduesNear(m: nat, d: nat, x: nat)
    requires d > 0
    ensures m - (d - 1) <= d * Residues(m, d, x) <= m + (d - 1)
  {
    QuotRem(m, d);
    var k, e := m / d, m % d;
    assert d * (k + 1) == k * d + d && d * k == k * d;
    assert Residues(m, d, x) == k + if e > x then 1 else 0;
  }

  /** The last rank's quota, within the rounding of its two parts. */
  lemma LastQuota(voters: nat, c: nat, p: nat)
    requires c >= 2
    ensures var lo, d, t := Reserve(voters, c, p), c - 1, TotalWeight(c);
            exists spread: nat, share: nat ::
              && Raw(voters, c, p, c - 1) == spread + share
              && voters - lo - 2 * d + 1 <= 2 * (d * spread) <= voters - lo + 2 * d - 2
              && lo - t + 1 <= share * t <= lo
  {
    var lo, d, t := Reserve(voters, c, p), c - 1, TotalWeight(c);
    var m := (voters - lo) / 2;
    LeftOver(lo, c);
    SkewedSplit(voters - lo, p, c);
    RoundRobinNear(m, p, d, c - 2);
    assert lo * (c - (c - 1)) == lo;
    QuotRem(lo, t);
    var spread, share := RoundRobin(m, p, d, c - 2), Share(lo, c, c - 1);
    hide Reserve, Share, Assigned, TotalWeight, RoundRobin, SkewedCount;
    assert Raw(voters, c, p, c - 1) == spread + share;
  }

  /** The last rank loses more of the base than it gains of the reserved slice. */
  lemma LastQuotaFalls(a: int, b: int, x: int, y: int, v: int, lo: int, hi: int, d: int, t: int)
    requires d >= 1 && t > 2 * d && hi > lo
    requires v - lo - 2 * d + 1 <= 2 * (d * a) && 2 * (d * b) <= v - hi + 2 * d - 2
    requires lo - t + 1 <= x * t && y * t <= hi
    requires (hi - lo) * (t - 2 * d) >= 6 * d * t
    ensures a + x > b + y
  {
    if a + x <= b + y {
      var spread, share := 2 * (d * a) - 2 * (d * b), x * t - y * t;
      assert spread >= hi - lo - 4 * d + 3 && share >= lo - hi - t + 1;
      assert spread == 2 * (d * (a - b)) && share == (x - y) * t;
      ScaledSum(a - b, x - y, d, t);
      Monotone(t, hi - lo - 4 * d + 3, spread);
      Monotone(2 * d, lo - hi - t + 1, share);
      Expand(hi - lo, d, t);
    }
  }

  lemma ScaledSum(u: int, w: int, d: int, t: int)
    requires u + w <= 0 && d >= 1 && t >= 1
    ensures t * (2 * (d * u)) + (2 * d) * (w * t) <= 0
  {
    assert t * (2 * (d * u)) + (2 * d) * (w * t) == (2 * d * t) * (u + w);
    assert 2 * d * t >= 0;
  }

  lemma Monotone(k: int, x: int, y: int)
    requires k >= 0 && x <= y
    ensures k * x <= k * y
  {
  }

  lemma Expand(gap: int, d: int, t: int)
    requires d >= 1 && t >= 1 && gap * (t - 2 * d) >= 6 * d * t
    ensures t * (gap - 4 * d + 3) + (2 * d) * (-gap - t + 1) > 0
  {
    assert t * (gap - 4 * d + 3) == gap * t - 4 * (d * t) + 3 * t;
    assert (2 * d) * (-gap - t + 1) == -(2 * (gap * d)) - 2 * (d * t) + 2 * d;
    assert gap * (t - 2 * d) == gap * t - 2 * (gap * d);
    assert 6 * d * t == 6 * (d * t);
  }

  /** Positions whose reserved slices are far enough apart never look alike. */
  lemma ReservesApart(voters: nat, c: nat, p: nat, r: nat)
    requires c >= 2 && voters >= c * (c + 1) && Reserve(voters, c, p) < Reserve(voters, c, r)
    requires (Reserve(voters, c, r) - Reserve(voters, c, p)) * (TotalWeight(c) - 2 * (c - 1)) >= 6 * (c - 1) * TotalWeight(c)
    ensures Quotas(voters, c, p)[c - 1] > Quotas(voters, c, r)[c - 1]
    ensures multiset(Quotas(voters, c, p)) != multiset(Quotas(voters, c, r))
  {
    var lo, hi, d, t := Reserve(voters, c, p), Reserve(voters, c, r), c - 1, TotalWeight(c);
    WeightIsLarge(c);
    LargeQuotas(voters, c, p);
    LargeQuotas(voters, c, r);
    LastQuota(voters, c, p);
    LastQuota(voters, c, r);
    hide Reserve, TotalWeight, Raw, Quotas;
    var a: nat, x: nat :|
      Raw(voters, c, p, c - 1) == a + x && voters - lo - 2 * d + 1 <= 2 * (d * a) <= voters - lo + 2 * d - 2 && lo - t + 1 <= x * t <= lo;
    var b: nat, y: nat :|
      Raw(voters, c, r, c - 1) == b + y && voters - hi - 2 * d + 1 <= 2 * (d * b) <= voters - hi + 2 * d - 2 && hi - t + 1 <= y * t <= hi;
    LastQuotaFalls(a, b, x, y, voters, lo, hi, d, t);
    if multiset(Quotas(voters, c, p)) == multiset(Quotas(voters, c, r)) {
      FallingUnique(Quotas(voters, c, p), Quotas(voters, c, r));
    }
  }

  lemma WeightIsLarge(c: nat)
    requires c >= 2
    ensures 2 * TotalWeight(c) == c * (c + 1) && TotalWeight(c) > 2 * (c - 1)
  {
    WeightsClosed(c, c);
    assert c * (2 * c - c + 1) == c * (c + 1);
    assert c * (c + 1) - 4 * (c - 1) == (c - 1) * (c - 2) + 2;
    assert (c - 1) * (c - 2) >= 0;
  }

  // ----- when positions look alike -----------------------------------------

  /** From this many voters on, positions of different shares never collide. */
  function DistinctFrom(c: nat): nat
    requires c >= 2
  {
    WeightIsLarge(c);
    var t, d := TotalWeight(c), c - 1;
    20 * Max(t, 6 * d * t / (t - 2 * d) + 1)
  }

  lemma EnoughVoters(voters: nat, c: nat)
    requires c >= 2 && voters >= DistinctFrom(c)
    ensures TotalWeight(c) > 2 * (c - 1) && voters >= 20 * TotalWeight(c)
    ensures (voters / 20) * (TotalWeight(c) - 2 * (c - 1)) >= 6 * (c - 1) * TotalWeight(c)
  {
    WeightIsLarge(c);
    var d, t := c - 1, TotalWeight(c);
    var e, u := t - 2 * d, 6 * d * t;
    var n := Max(t, u / e + 1);
    assert voters >= 20 * n;
    hide TotalWeight, DistinctFrom;
    AboveQuotient(u, e, voters / 20);
  }

  lemma AboveQuotient(u: int, e: nat, n: nat)
    requires e > 0 && u >= 0 && n >= u / e + 1
    ensures n * e >= u
  {
    QuotRem(u, e);
    Monotone(e, u / e + 1, n);
    assert e * (u / e + 1) == (u / e) * e + e;
  }

  lemma FarApart(voters: nat, c: nat, p: nat, r: nat)
    requires c >= 2 && voters >= DistinctFrom(c) && p % 3 < r % 3
    ensures var lo, hi, d, t := Reserve(voters, c, p), Reserve(voters, c, r), c - 1, TotalWeight(c);
            lo < hi && (hi - lo) * (t - 2 * d) >= 6 * d * t && voters >= c * (c + 1)
  {
    EnoughVoters(voters, c);
    WeightIsLarge(c);
    GapOfReserves(voters, c, p, r);
    hide *;
    Widen(Reserve(voters, c, r) - Reserve(voters, c, p), voters / 20, TotalWeight(c) - 2 * (c - 1), 6 * (c - 1) * TotalWeight(c));
  }

  lemma Widen(gap: int, n: int, e: int, u: int)
    requires gap >= n && e > 0 && n * e >= u
    ensures gap * e >= u
  {
    Monotone(e, n, gap);
  }

  lemma GapOfReserves(voters: nat, c: nat, p: nat, r: nat)
    requires c >= 2 && voters >= 20 * TotalWeight(c) && p % 3 < r % 3
    ensures Reserve(voters, c, r) - Reserve(voters, c, p) >= voters / 20
  {
    PlainReserve(voters, c, p);
    PlainReserve(voters, c, r);
    hide *;
    ReserveGap(voters, p % 3, r % 3);
  }

  lemma PlainReserve(voters: nat, c: nat, p: nat)
    requires c >= 2 && voters >= 20 * TotalWeight(c)
    ensures Reserve(voters, c, p) == voters * (10 + 5 * (p % 3)) / 100
  {
    WeightIsLarge(c);
    hide TotalWeight;
    var b := p % 3;
    if b == 0 {
    } else if b == 1 {
    } else {
      assert b == 2;
    }
  }

  lemma ReserveGap(voters: nat, a: nat, b: nat)
    requires a < b < 3
    ensures voters * (10 + 5 * b) / 100 - voters * (10 + 5 * a) / 100 >= voters / 20
  {
  }

  /** Above the bound, positions look alike exactly when they hold back the same
      share and deal it from the same start, or without remainder. */
  lemma PositionsAlike(voters: nat, c: nat, p: nat, r: nat)
    requires c >= 2 && voters >= DistinctFrom(c)
    ensures multiset(Quotas(voters, c, p)) == multiset(Quotas(voters, c, r))
       <==> p % 3 == r % 3 && SameRounds((voters - Reserve(voters, c, p)) / 2, p, r, c - 1)
  {
    if p % 3 == r % 3 {
      SameReserve(voters, c, p, r);
    } else if p % 3 < r % 3 {
      FarApart(voters, c, p, r);
      ReservesApart(voters, c, p, r);
    } else {
      FarApart(voters, c, r, p);
      ReservesApart(voters, c, r, p);
    }
  }

  /** Below the bound positions of different shares do collide: with 65 voters and
      3 candidates the first and the third race reserve 12 and 13 votes and end
      with the same totals. */
  lemma ReservesCollide()
    ensures 65 < DistinctFrom(3) && Reserve(65, 3, 0) < Reserve(65, 3, 2)
    ensures Quotas(65, 3, 0) == Quotas(65, 3, 2) == [33, 17, 15]
  {
    WeightsClosed(3, 3);
    assert DistinctFrom(3) == 740;
    SharesOf65();
    CollidingQuotas(0, 12);
    CollidingQuotas(2, 13);
  }

  lemma SharesOf65()
    ensures Reserve(65, 3, 0) == 12 && Reserve(65, 3, 2) == 13 && TotalWeight(3) == 6
  {
    WeightsClosed(3, 3);
  }

  lemma SharesOf12Or13(reserve: nat)
    requires 12 <= reserve <= 13 && TotalWeight(3) == 6
    ensures Share(reserve, 3, 0) == 6 && Share(reserve, 3, 1) == 4 && Share(reserve, 3, 2) == 2
    ensures Assigned(reserve, 3, 3) == 12
  {
    hide TotalWeight;
    assert Assigned(reserve, 3, 1) == Share(reserve, 3, 0);
    assert Assigned(reserve, 3, 2) == Share(reserve, 3, 0) + Share(reserve, 3, 1);
  }

  lemma BaseOf52Or53(base: nat, p: nat)
    requires 52 <= base <= 53 && p % 2 == 0
    ensures SkewedCount(base, p, 3, 0) == base - 26 && SkewedCount(base, p, 3, 1) == 13 && SkewedCount(base, p, 3, 2) == 13
  {
    SkewedSplit(base, p, 3);
    RoundRobinShift(26, p, 2, 0);
    RoundRobinShift(26, p, 2, 1);
    hide SkewedCount, RoundRobin;
  }

  lemma CollidingQuotas(p: nat, reserve: nat)
    requires p % 2 == 0 && 12 <= reserve <= 13 && Reserve(65, 3, p) == reserve && TotalWeight(3) == 6
    ensures Quotas(65, 3, p) == [33, 17, 15]
  {
    SharesOf12Or13(reserve);
    BaseOf52Or53(65 - reserve, p);
    hide Reserve, Share, Assigned, SkewedCount, TotalWeight;
    assert RawQuotas(65, 3, p) == [33, 17, 15];
  }
}
