/** Integer apportionment of a position's voters over its candidates. */
module Apportionment {
  import opened ModArith
  import opened Counting

  // ----- the base: every voter outside the reserved slice ------------------

  /** Half the voters pick candidate 0; the rest spread over the others. */
  function Skewed(v: nat, p: nat, c: nat): (k: nat)
    ensures c > 0 ==> k < c
  {
    if c <= 1 || v % 2 == 0 then 0 else 1 + (v / 2 + p) % (c - 1)
  }

  /** How many of the first n voters pick k by the skewed rule. */
  function SkewedCount(n: nat, p: nat, c: nat, k: nat): nat {
    if n == 0 then 0 else SkewedCount(n - 1, p, c, k) + if Skewed(n - 1, p, c) == k then 1 else 0
  }

  /** How many i < m have (i + p) % d == j. */
  function RoundRobin(m: nat, p: nat, d: nat, j: nat): (n: nat)
    requires d > 0
    ensures n <= m
  {
    if m == 0 then 0 else RoundRobin(m - 1, p, d, j) + if (m - 1 + p) % d == j then 1 else 0
  }

  /** How many i < x have i % d == j. */
  function Residues(x: nat, d: nat, j: nat): nat
    requires d > 0
  {
    x / d + if x % d > j then 1 else 0
  }

  lemma ResiduesStep(x: nat, d: nat, j: nat)
    requires d > 0 && j < d
    ensures Residues(x + 1, d, j) == Residues(x, d, j) + if x % d == j then 1 else 0
  {
    QuotRem(x, d);
    if x % d + 1 < d {
      DivModUnique(x + 1, d, x / d, x % d + 1);
    } else {
      DivModUnique(x + 1, d, x / d + 1, 0);
    }
  }

  lemma {:induction false} RoundRobinClosed(m: nat, p: nat, d: nat, j: nat)
    requires d > 0 && j < d
    ensures RoundRobin(m, p, d, j) == Residues(p + m, d, j) - Residues(p, d, j)
  {
    if m > 0 {
      RoundRobinClosed(m - 1, p, d, j);
      ResiduesStep(p + m - 1, d, j);
    }
  }

  /** A round robin gives any two slots the same share, give or take one. */
  lemma RoundRobinEven(m: nat, p: nat, d: nat, i: nat, j: nat)
    requires d > 0 && i < d && j < d
    ensures RoundRobin(m, p, d, i) <= RoundRobin(m, p, d, j) + 1
  {
    RoundRobinClosed(m, p, d, i);
    RoundRobinClosed(m, p, d, j);
  }

  lemma {:induction false} SkewedSplit(n: nat, p: nat, c: nat)
    requires c >= 2
    ensures SkewedCount(n, p, c, 0) == (n + 1) / 2
    ensures forall k: nat :: 1 <= k < c ==> SkewedCount(n, p, c, k) == RoundRobin(n / 2, p, c - 1, k - 1)
  {
    if n > 0 {
      SkewedSplit(n - 1, p, c);
    }
  }

  // ----- the reserved slice ------------------------------------------------

  function Min(a: nat, b: nat): nat {
    if a <= b then a else b
  }

  function Max(a: nat, b: nat): nat {
    if a >= b then a else b
  }

  /** 10, 15 or 20 per cent, but at least two votes per adjacent rank. */
  function Reserve(voters: nat, c: nat, p: nat): (r: nat)
    ensures r <= voters
    ensures voters >= c * (c + 1) ==> r >= c * (c + 1)
    ensures voters < c * (c + 1) ==> r == voters
  {
    Min(Max(voters * (10 + 5 * (p % 3)) / 100, c * (c + 1)), voters)
  }

  /** Sum of the first k weights c, c - 1, ... */
  function Weights(c: nat, k: nat): nat
    requires k <= c
  {
    if k == 0 then 0 else Weights(c, k - 1) + (c - (k - 1))
  }

  function TotalWeight(c: nat): (t: nat)
    ensures c > 0 ==> t > 0
  {
    Weights(c, c)
  }

  lemma {:induction false} WeightsClosed(c: nat, k: nat)
    requires k <= c
    ensures 2 * Weights(c, k) == k * (2 * c - k + 1)
  {
    if k > 0 {
      WeightsClosed(c, k - 1);
      assert (k - 1) * (2 * c - k + 2) + 2 * (c - (k - 1)) == k * (2 * c - k + 1);
    }
  }

  /** Rank k's share of the slice, rounded down. */
  function Share(reserve: nat, c: nat, k: nat): nat
    requires k < c
  {
    var part: nat := reserve * (c - k);
    part / TotalWeight(c)
  }

  function Assigned(reserve: nat, c: nat, k: nat): nat
    requires k <= c
  {
    if k == 0 then 0 else Assigned(reserve, c, k - 1) + Share(reserve, c, k - 1)
  }

  lemma {:induction false} AssignedBounds(reserve: nat, c: nat, k: nat)
    requires 0 < c && k <= c
    ensures var t := TotalWeight(c);
            && Assigned(reserve, c, k) * t <= reserve * Weights(c, k)
            && reserve * Weights(c, k) <= Assigned(reserve, c, k) * t + k * (t - 1)
  {
    if k > 0 {
      AssignedBounds(reserve, c, k - 1);
      var t, x := TotalWeight(c), c - (k - 1);
      FloorStep(Assigned(reserve, c, k - 1), Weights(c, k - 1), reserve, x, t, k - 1);
    }
  }

  lemma FloorStep(a: nat, w: nat, r: nat, x: nat, t: nat, k: nat)
    requires t > 0 && a * t <= r * w <= a * t + k * (t - 1)
    ensures var s := r * x / t; (a + s) * t <= r * (w + x) <= (a + s) * t + (k + 1) * (t - 1)
  {
    var s := r * x / t;
    QuotRem(r * x, t);
    assert (a + s) * t == a * t + s * t;
    assert r * (w + x) == r * w + r * x;
    assert (k + 1) * (t - 1) == k * (t - 1) + (t - 1);
  }

  /** Rounding down leaves fewer than one vote per candidate over. */
  lemma LeftOver(reserve: nat, c: nat)
    requires c > 0
    ensures Assigned(reserve, c, c) <= reserve < Assigned(reserve, c, c) + c
  {
    AssignedBounds(reserve, c, c);
    hide Assigned, TotalWeight;
    LeftOverArithmetic(Assigned(reserve, c, c), reserve, c, TotalWeight(c));
  }

  lemma LeftOverArithmetic(a: nat, r: nat, c: nat, t: nat)
    requires t > 0 && c > 0 && a * t <= r * t <= a * t + c * (t - 1)
    ensures a <= r < a + c
  {
    if a > r {
      assert (a - r) * t == a * t - r * t;
      MultipleBound(a - r, t);
    }
    if r >= a + c {
      assert (r - a - c) * t == r * t - a * t - c * t;
      assert c * (t - 1) == c * t - c;
      if r > a + c {
        MultipleBound(r - a - c, t);
      }
    }
  }

  /** Shares fall with the rank, by two votes once the slice is large enough. */
  lemma SharesFall(reserve: nat, c: nat, k: nat)
    requires k + 1 < c
    ensures Share(reserve, c, k) >= Share(reserve, c, k + 1)
    ensures reserve >= c * (c + 1) ==> Share(reserve, c, k) >= Share(reserve, c, k + 1) + 2
  {
    WeightsClosed(c, c);
    assert c * (2 * c - c + 1) == c * (c + 1);
    ShareStep(reserve, c - k, TotalWeight(c));
  }

  lemma ShareStep(r: nat, x: nat, t: nat)
    requires t > 0 && x >= 1
    ensures r * x / t >= r * (x - 1) / t
    ensures r >= 2 * t ==> r * x / t >= r * (x - 1) / t + 2
  {
    var b := r * (x - 1);
    assert r * x == b + r;
    QuotRem(b, t);
    QuotRem(b + r, t);
    var m, n := b / t, (b + r) / t;
    if n < m {
      assert (m - n) * t == m * t - n * t;
      MultipleBound(m - n, t);
    }
    if r >= 2 * t && n < m + 2 {
      assert (m + 2 - n) * t == m * t + 2 * t - n * t;
      MultipleBound(m + 2 - n, t);
    }
  }

  // ----- the quotas --------------------------------------------------------

  /** Rank k's votes before the final correction. */
  function Raw(voters: nat, c: nat, p: nat, k: nat): nat
    requires k < c
  {
    var reserve := Reserve(voters, c, p);
    SkewedCount(voters - reserve, p, c, k) + Share(reserve, c, k)
    + if k < reserve - Assigned(reserve, c, c) then 1 else 0
  }

  /** The last rank below n, but not rank 0, that holds a vote; 0 without one. */
  function LastHolder(q: seq<nat>, n: nat): (k: nat)
    requires n <= |q|
    ensures k == 0 || (k < n && q[k] > 0)
    ensures forall j :: 1 <= j < n && q[j] > 0 ==> 1 <= j <= k
  {
    if n <= 1 then 0 else if q[n - 1] > 0 then n - 1 else LastHolder(q, n - 1)
  }

  /** When rank 1 is level with rank 0, rank 0 takes a vote from the last holder. */
  function Corrected(q: seq<nat>): (r: seq<nat>)
    ensures |r| == |q|
  {
    if |q| > 1 && q[0] <= q[1] then
      var k := LastHolder(q, |q|);
      if k == 0 then q else q[k := q[k] - 1][0 := q[0] + 1]
    else q
  }

  function RawQuotas(voters: nat, c: nat, p: nat): (q: seq<nat>)
    ensures |q| == c && forall k :: 0 <= k < c ==> q[k] == Raw(voters, c, p, k)
  {
    seq(c, k requires 0 <= k < c => Raw(voters, c, p, k))
  }

  /** Votes of each candidate in position p. */
  function Quotas(voters: nat, c: nat, p: nat): (q: seq<nat>)
    ensures |q| == c
  {
    Corrected(RawQuotas(voters, c, p))
  }

  lemma {:induction false} SkewedSum(n: nat, p: nat, c: nat, s: seq<nat>)
    requires c > 0 && |s| == c && forall k :: 0 <= k < c ==> s[k] == SkewedCount(n, p, c, k)
    ensures Sum(s) == n
  {
    if n == 0 {
      SumZeros(s);
    } else {
      var picked := Skewed(n - 1, p, c);
      var before := s[picked := s[picked] - 1];
      SkewedSum(n - 1, p, c, before);
      SumUpdate(s, picked, s[picked] - 1);
    }
  }

  lemma {:induction false} AssignedIsSum(reserve: nat, c: nat, k: nat, s: seq<nat>)
    requires k <= c && |s| == k && forall j :: 0 <= j < k ==> s[j] == Share(reserve, c, j)
    ensures Sum(s) == Assigned(reserve, c, k)
  {
    hide Share;
    if k > 0 {
      AssignedIsSum(reserve, c, k - 1, s[..k - 1]);
    }
  }

  lemma {:induction false} OnesSum(n: nat, s: seq<nat>)
    requires n <= |s| && forall j :: 0 <= j < |s| ==> s[j] == if j < n then 1 else 0
    ensures Sum(s) == n
  {
    if s != [] {
      OnesSum(if n == |s| then n - 1 else n, s[..|s| - 1]);
    }
  }

  lemma RawSum(voters: nat, c: nat, p: nat)
    requires c > 0
    ensures Sum(RawQuotas(voters, c, p)) == voters
  {
    var reserve := Reserve(voters, c, p);
    var left := reserve - Assigned(reserve, c, c);
    LeftOver(reserve, c);
    hide Reserve, Share, Assigned, Sum, SkewedCount;
    var base := seq(c, k requires 0 <= k => SkewedCount(voters - reserve, p, c, k));
    var shares := seq(c, k requires 0 <= k < c => Share(reserve, c, k));
    var ones: seq<nat> := seq(c, k => if k < left then 1 else 0);
    var apportioned := seq(c, k requires 0 <= k < c => shares[k] + ones[k]);
    SkewedSum(voters - reserve, p, c, base);
    AssignedIsSum(reserve, c, c, shares);
    OnesSum(left, ones);
    SumAdd(shares, ones, apportioned);
    SumAdd(base, apportioned, RawQuotas(voters, c, p));
  }

  lemma CorrectedSum(q: seq<nat>)
    ensures Sum(Corrected(q)) == Sum(q)
  {
    if |q| > 1 && q[0] <= q[1] {
      var k := LastHolder(q, |q|);
      if k > 0 {
        SumUpdate(q, k, q[k] - 1);
        SumUpdate(q[k := q[k] - 1], 0, q[0] + 1);
      }
    }
  }

  /** Every voter is apportioned, exactly once. */
  lemma QuotasSum(voters: nat, c: nat, p: nat)
    requires c > 0
    ensures Sum(Quotas(voters, c, p)) == voters
  {
    RawSum(voters, c, p);
    CorrectedSum(RawQuotas(voters, c, p));
  }

  /** Before the correction the ranks never rise; once the electorate affords
      two votes per adjacent rank they strictly fall. */
  lemma RawFalls(voters: nat, c: nat, p: nat, k: nat)
    requires k + 1 < c
    ensures Raw(voters, c, p, k) >= Raw(voters, c, p, k + 1)
    ensures voters >= c * (c + 1) ==> Raw(voters, c, p, k) > Raw(voters, c, p, k + 1)
  {
    var reserve := Reserve(voters, c, p);
    var base := voters - reserve;
    SharesFall(reserve, c, k);
    SkewedSplit(base, p, c);
    if k > 0 {
      RoundRobinEven(base / 2, p, c - 1, k, k - 1);
    }
    hide Reserve, Share, Assigned;
    if voters < c * (c + 1) {
      assert base == 0;
    }
  }

  lemma {:induction false} RawFallsFromTop(voters: nat, c: nat, p: nat, k: nat)
    requires k < c
    ensures Raw(voters, c, p, k) <= Raw(voters, c, p, 0)
  {
    hide Raw;
    if k > 0 {
      RawFalls(voters, c, p, k - 1);
      RawFallsFromTop(voters, c, p, k - 1);
    }
  }

  /** Large electorates: every rank is strictly ahead of the next. */
  lemma QuotasStrictlyFall(voters: nat, c: nat, p: nat)
    requires voters >= c * (c + 1)
    ensures forall k: nat :: k + 1 < c ==> Quotas(voters, c, p)[k] > Quotas(voters, c, p)[k + 1]
  {
    hide Raw;
    forall k: nat | k + 1 < c ensures Raw(voters, c, p, k) > Raw(voters, c, p, k + 1) {
      RawFalls(voters, c, p, k);
    }
  }

  lemma {:induction false} NothingHeld(q: seq<nat>)
    requires q != [] && q[0] == 0 && LastHolder(q, |q|) == 0
    ensures Sum(q) == 0
  {
    SumZeros(q);
  }

  /** Any electorate: candidate 0 is the only winner. */
  lemma QuotasWinner(voters: nat, c: nat, p: nat)
    requires voters >= 1 && c >= 2
    ensures forall k: nat :: 1 <= k < c ==> Quotas(voters, c, p)[k] < Quotas(voters, c, p)[0]
  {
    var q := RawQuotas(voters, c, p);
    hide Raw;
    forall k: nat | k < c ensures q[k] <= q[0] {
      RawFallsFromTop(voters, c, p, k);
    }
    if q[0] <= q[1] {
      if LastHolder(q, c) == 0 {
        assert q[0] == 0;
        NothingHeld(q);
        RawSum(voters, c, p);
      }
    } else {
      forall k: nat | 1 <= k < c ensures q[k] < q[0] {
        RawFallsBelow(voters, c, p, k);
      }
    }
  }

  lemma {:induction false} RawFallsBelow(voters: nat, c: nat, p: nat, k: nat)
    requires 1 <= k < c
    ensures Raw(voters, c, p, k) <= Raw(voters, c, p, 1)
  {
    hide Raw;
    if k > 1 {
      RawFalls(voters, c, p, k - 1);
      RawFallsBelow(voters, c, p, k - 1);
    }
  }

  /** An electorate too small to hold anyone back votes alike in every position.
      Larger ones may too: `PositionShapes` says when. */
  lemma SmallElectoratesLookAlike(voters: nat, c: nat, p: nat, r: nat)
    requires voters <= c * (c + 1)
    ensures Quotas(voters, c, p) == Quotas(voters, c, r)
  {
    var a, b := Reserve(voters, c, p), Reserve(voters, c, r);
    assert a == b == voters;
    hide Reserve, Share, Assigned;
    forall k: nat | k < c ensures Raw(voters, c, p, k) == Raw(voters, c, r, k) {
    }
    assert RawQuotas(voters, c, p) == RawQuotas(voters, c, r);
  }

  // ----- the generator's loops ---------------------------------------------

  method RealisticQuotas(voters: nat, c: nat, p: nat) returns (q: seq<nat>)
    ensures q == Quotas(voters, c, p)
  {
    if c == 0 {
      return [];
    }
    hide Share, Assigned, SkewedCount, LastHolder;
    var reserve := Reserve(voters, c, p);
    var base := voters - reserve;
    q := BaseVotes(base, c, p);
    var a := Apportion(reserve, c);
    var k := 0;
    while k < c
      invariant 0 <= k <= c && |q| == c
      invariant forall j: nat :: j < c ==> q[j] == SkewedCount(base, p, c, j) + if j < k then a[j] else 0
    {
      q := q[k := q[k] + a[k]];
      k := k + 1;
    }
    assert q == RawQuotas(voters, c, p) by {
      forall j: nat | j < c ensures q[j] == Raw(voters, c, p, j) {
      }
    }
    q := Correct(q);
  }

  method BaseVotes(base: nat, c: nat, p: nat) returns (q: seq<nat>)
    requires c > 0
    ensures |q| == c && forall k: nat :: k < c ==> q[k] == SkewedCount(base, p, c, k)
  {
    q := seq(c, _ => 0);
    var v := 0;
    while v < base
      invariant 0 <= v <= base && |q| == c
      invariant forall k: nat :: k < c ==> q[k] == SkewedCount(v, p, c, k)
    {
      var picked := Skewed(v, p, c);
      q := q[picked := q[picked] + 1];
      v := v + 1;
    }
  }

  method Correct(votes: seq<nat>) returns (q: seq<nat>)
    ensures q == Corrected(votes)
  {
    q := votes;
    if |q| > 1 && q[0] <= q[1] {
      var k := |q| - 1;
      while k >= 1 && q[k] == 0
        invariant 0 <= k < |q| && LastHolder(q, |q|) == LastHolder(q, k + 1)
      {
        k := k - 1;
      }
      if k >= 1 {
        q := q[k := q[k] - 1];
        q := q[0 := q[0] + 1];
      }
    }
  }

  /** The reserved slice by descending weights, leftovers from the top down. */
  method Apportion(reserve: nat, c: nat) returns (a: seq<nat>)
    requires c > 0
    ensures |a| == c && forall k: nat :: k < c ==>
              a[k] == Share(reserve, c, k) + if k < reserve - Assigned(reserve, c, c) then 1 else 0
  {
    var total := 0;
    var k := 0;
    while k < c
      invariant 0 <= k <= c && total == Weights(c, k)
    {
      total := total + (c - k);
      k := k + 1;
    }
    a := [];
    var handedOut := 0;
    while |a| < c
      invariant |a| <= c && handedOut == Assigned(reserve, c, |a|)
      invariant forall k: nat :: k < |a| ==> a[k] == Share(reserve, c, k)
      decreases c - |a|
    {
      var share := reserve * (c - |a|) / total;
      assert share == Share(reserve, c, |a|);
      handedOut := handedOut + share;
      a := a + [share];
    }
    LeftOver(reserve, c);
    hide Share, Assigned;
    k := 0;
    while k < reserve - handedOut
      invariant 0 <= k <= reserve - handedOut < c && |a| == c
      invariant forall j: nat :: j < c ==> a[j] == Share(reserve, c, j) + if j < k then 1 else 0
    {
      DivModUnique(k, c, 0, k);
      a := a[k % c := a[k % c] + 1];
      k := k + 1;
    }
  }
}
