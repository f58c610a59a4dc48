/** Who votes for whom: a stride coprime to the electorate scatters the voters
    over the quota brackets, and a search places each of them. */
module Population {
  import opened ModArith
  import opened Counting
  import opened Apportionment

  // ----- the stride --------------------------------------------------------

  /** Some stride is found, and it is coprime to the number of voters. */
  method InterleaveStride(voters: nat) returns (s: nat)
    ensures s >= 1 && (voters >= 1 ==> Gcd(s, voters) == 1)
    ensures voters >= 2 ==> s < voters
  {
    if voters <= 2 {
      if voters >= 1 {
        GcdOne(voters);
      }
      return 1;
    }
    hide Gcd;
    var start := Max(voters * 61803 / 100000, 1);
    s := start;
    var tries := 0;
    GcdOne(voters);
    while Gcd(s, voters) != 1 && tries <= voters
      invariant 1 <= s < voters
      invariant s == start + tries || s == 1
      decreases voters - tries
    {
      s := s + 1;
      if s >= voters {
        s := 1;
      }
      tries := tries + 1;
    }
    s := Max(s, 1);
  }

  /** Multiplying by a stride coprime to n, and shifting, can be undone modulo n. */
  function Scatter(v: nat, stride: nat, p: nat, n: nat): (r: nat)
    requires n > 0
    ensures r < n
  {
    (v * stride + p) % n
  }

  function Gather(r: nat, stride: nat, p: nat, n: nat): (v: nat)
    requires n > 0
    ensures v < n
  {
    ((r - p) * Bezout(stride, n).0) % n
  }

  lemma StrideInverse(stride: nat, n: nat)
    requires n > 0 && Gcd(stride, n) == 1
    ensures Cong(stride * Bezout(stride, n).0, 1, n)
  {
    BezoutIdentity(stride, n);
    var (x, y) := Bezout(stride, n);
    hide *;
    BezoutCong(stride, x, n, y);
  }

  lemma BezoutCong(a: int, x: int, n: nat, y: int)
    requires n > 0 && a * x + n * y == 1
    ensures Cong(a * x, 1, n)
  {
    hide *;
    assert n * y == y * n && (-y) * n == -(y * n);
    CongIntro(a * x, 1, -y, n);
  }

  lemma GatherScatter(v: nat, stride: nat, p: nat, n: nat)
    requires n > 0 && Gcd(stride, n) == 1 && v < n
    ensures Gather(Scatter(v, stride, p, n), stride, p, n) == v
  {
    StrideInverse(stride, n);
    var x := Bezout(stride, n).0;
    var r := Scatter(v, stride, p, n);
    ModCong(v * stride + p, n);
    ModCong((r - p) * x, n);
    hide *;
    Unscatter(r, v, v * stride, stride, p, x, n);
    CongTrans(Gather(r, stride, p, n), (r - p) * x, v, n);
    CongUnique(Gather(r, stride, p, n), v, n);
  }

  lemma Unscatter(r: int, v: int, w: int, s: int, p: int, x: int, n: nat)
    requires n > 0 && Cong(r, w + p, n) && w == v * s && Cong(s * x, 1, n)
    ensures Cong((r - p) * x, v, n)
  {
    hide *;
    CongIntro(-p, -p, 0, n);
    CongAdd(r, w + p, -p, -p, n);
    CongScale(x, r + -p, w + p + -p, n);
    assert x * (r - p) == (r - p) * x && x * w == v * (s * x);
    CongScale(v, s * x, 1, n);
    CongTrans((r - p) * x, v * (s * x), v, n);
  }

  lemma ScatterGather(r: nat, stride: nat, p: nat, n: nat)
    requires n > 0 && Gcd(stride, n) == 1 && r < n
    ensures Scatter(Gather(r, stride, p, n), stride, p, n) == r
  {
    StrideInverse(stride, n);
    var x := Bezout(stride, n).0;
    var v := Gather(r, stride, p, n);
    ModCong((r - p) * x, n);
    ModCong(v * stride + p, n);
    hide *;
    Rescatter(r, v, stride, p, x, n);
    CongTrans(Scatter(v, stride, p, n), v * stride + p, r, n);
    CongUnique(Scatter(v, stride, p, n), r, n);
  }

  lemma Rescatter(r: int, v: int, s: int, p: int, x: int, n: nat)
    requires n > 0 && Cong(v, (r - p) * x, n) && Cong(s * x, 1, n)
    ensures Cong(v * s + p, r, n)
  {
    hide *;
    CongScale(s, v, (r - p) * x, n);
    assert s * v == v * s && s * ((r - p) * x) == (r - p) * (s * x);
    CongScale(r - p, s * x, 1, n);
    CongTrans(v * s, (r - p) * (s * x), r - p, n);
    CongIntro(p, p, 0, n);
    CongAdd(v * s, r - p, p, p, n);
  }

  // ----- the brackets ------------------------------------------------------

  function Prefix(q: seq<nat>, k: nat): nat
    requires k <= |q|
  {
    Sum(q[..k])
  }

  function Cumulative(q: seq<nat>): (cum: seq<nat>)
    ensures |cum| == |q| && forall k :: 0 <= k < |q| ==> cum[k] == Prefix(q, k + 1)
  {
    seq(|q|, k requires 0 <= k < |q| => Prefix(q, k + 1))
  }

  lemma PrefixStep(q: seq<nat>, k: nat)
    requires k < |q|
    ensures Prefix(q, k + 1) == Prefix(q, k) + q[k]
  {
    assert q[..k + 1] == q[..k] + [q[k]];
  }

  lemma {:induction false} PrefixMonotone(q: seq<nat>, j: nat, k: nat)
    requires j <= k <= |q|
    ensures Prefix(q, j) <= Prefix(q, k)
  {
    if j < k {
      PrefixMonotone(q, j, k - 1);
      PrefixStep(q, k - 1);
    }
  }

  predicate Nondecreasing(cum: seq<nat>) {
    forall i, j :: 0 <= i < j < |cum| ==> cum[i] <= cum[j]
  }

  lemma CumulativeNondecreasing(q: seq<nat>)
    ensures Nondecreasing(Cumulative(q))
  {
    forall i, j | 0 <= i < j < |q| ensures Cumulative(q)[i] <= Cumulative(q)[j] {
      PrefixMonotone(q, i + 1, j + 1);
    }
  }

  /** How many brackets end at or before r: where `partition_point` cuts. */
  function PartitionPoint(cum: seq<nat>, r: nat): (k: nat)
    ensures k <= |cum|
    ensures forall j :: 0 <= j < k ==> cum[j] <= r
    ensures k < |cum| ==> cum[k] > r
  {
    if cum == [] || cum[0] > r then 0
    else
      var k := PartitionPoint(cum[1..], r);
      assert forall j :: 1 <= j < k + 1 ==> cum[1..][j - 1] == cum[j];
      k + 1
  }

  lemma {:induction false} CutUnique(cum: seq<nat>, r: nat, k: nat)
    requires k <= |cum| && (forall j :: 0 <= j < k ==> cum[j] <= r) && (k < |cum| ==> cum[k] > r)
    ensures PartitionPoint(cum, r) == k
  {
    if k > 0 {
      CutUnique(cum[1..], r, k - 1);
    }
  }

  /** The reference generator's hand-written bisection finds the same cut. */
  method Bisect(cum: seq<nat>, r: nat) returns (lo: nat)
    requires Nondecreasing(cum)
    ensures lo == PartitionPoint(cum, r)
  {
    lo := 0;
    var hi := |cum|;
    while lo < hi
      invariant 0 <= lo <= hi <= |cum|
      invariant forall j :: 0 <= j < lo ==> cum[j] <= r
      invariant forall j :: hi <= j < |cum| ==> cum[j] > r
    {
      var mid := (lo + hi) / 2;
      if cum[mid] <= r {
        lo := mid + 1;
      } else {
        hi := mid;
      }
    }
    CutUnique(cum, r, lo);
  }

  /** r lies in bracket k exactly when the cut is at k. */
  lemma BracketOwns(q: seq<nat>, r: nat, k: nat)
    requires k < |q|
    ensures PartitionPoint(Cumulative(q), r) == k <==> Prefix(q, k) <= r < Prefix(q, k + 1)
  {
    var cum := Cumulative(q);
    if Prefix(q, k) <= r < Prefix(q, k + 1) {
      forall j | 0 <= j < k ensures cum[j] <= r {
        PrefixMonotone(q, j + 1, k);
      }
      CutUnique(cum, r, k);
    }
    if PartitionPoint(cum, r) == k && k > 0 {
      assert cum[k - 1] <= r;
    }
  }

  // ----- the plan ----------------------------------------------------------

  datatype Profile = UniformProfile | SkewedProfile | RealisticProfile

  datatype SelectionPlan =
    SelectionPlan(profile: Profile, candidates: nat, voters: nat, cum: seq<seq<nat>>, stride: nat)

  /** What NewPlan builds for an electorate with `positions` positions. */
  ghost predicate PlanFor(plan: SelectionPlan, profile: Profile, voters: nat, positions: nat, candidates: nat) {
    && plan.profile == profile && plan.voters == voters && plan.candidates == candidates
    && (voters >= 1 ==> Gcd(plan.stride, voters) == 1) && (voters >= 2 ==> plan.stride < voters)
    && (profile.RealisticProfile? && candidates > 1 ==>
          |plan.cum| == positions && forall p :: 0 <= p < positions ==> plan.cum[p] == Cumulative(Quotas(voters, candidates, p)))
  }

  method NewPlan(profile: Profile, voters: nat, positions: nat, candidates: nat) returns (plan: SelectionPlan)
    ensures PlanFor(plan, profile, voters, positions, candidates)
  {
    hide Quotas, Gcd, Prefix;
    var cum: seq<seq<nat>> := [];
    if profile.RealisticProfile? && candidates > 1 {
      while |cum| < positions
        invariant |cum| <= positions
        invariant forall p :: 0 <= p < |cum| ==> cum[p] == Cumulative(Quotas(voters, candidates, p))
        decreases positions - |cum|
      {
        var q := RealisticQuotas(voters, candidates, |cum|);
        var brackets := RunningTotals(q);
        cum := cum + [brackets];
      }
    }
    var stride := InterleaveStride(voters);
    plan := SelectionPlan(profile, candidates, voters, cum, stride);
  }

  method RunningTotals(q: seq<nat>) returns (cum: seq<nat>)
    ensures cum == Cumulative(q)
  {
    cum := [];
    var running := 0;
    while |cum| < |q|
      invariant |cum| <= |q| && running == Prefix(q, |cum|)
      invariant forall k :: 0 <= k < |cum| ==> cum[k] == Prefix(q, k + 1)
      decreases |q| - |cum|
    {
      PrefixStep(q, |cum|);
      running := running + q[|cum|];
      cum := cum + [running];
    }
  }

  /** Selection for the profiles that do not depend on the electorate. */
  function SelectCandidate(profile: Profile, v: nat, p: nat, c: nat): (k: nat)
    requires !profile.RealisticProfile?
    ensures c > 0 ==> k < c
  {
    if c <= 1 then 0
    else if profile.UniformProfile? then (v + p) % c
    else Skewed(v, p, c)
  }

  /** Which candidate voter v picks for position p. */
  function Select(plan: SelectionPlan, v: nat, p: nat): (k: nat)
    requires plan.profile.RealisticProfile? && plan.candidates > 1 ==> |plan.cum| > 0 && plan.voters > 0
    ensures plan.candidates > 0 ==> k < plan.candidates
  {
    if plan.candidates <= 1 then 0
    else if plan.profile.RealisticProfile? then
      var r := Scatter(v, plan.stride, p, plan.voters);
      Min(PartitionPoint(plan.cum[p % |plan.cum|], r), plan.candidates - 1)
    else SelectCandidate(plan.profile, v, p, plan.candidates)
  }

  /** The reference generator's selection, by bisection, picks the same candidate. */
  method SelectByBisection(plan: SelectionPlan, positions: nat, v: nat, p: nat) returns (k: nat)
    requires positions > 0 && plan.voters > 0 && PlanFor(plan, plan.profile, plan.voters, positions, plan.candidates)
    ensures k == Select(plan, v, p)
  {
    if plan.candidates <= 1 {
      return 0;
    }
    if !plan.profile.RealisticProfile? {
      return SelectCandidate(plan.profile, v, p, plan.candidates);
    }
    hide Quotas, Gcd, PartitionPoint, Prefix;
    var at := p % |plan.cum|;
    var cum := plan.cum[at];
    CumulativeNondecreasing(Quotas(plan.voters, plan.candidates, at));
    var lo := Bisect(cum, Scatter(v, plan.stride, p, plan.voters));
    k := Min(lo, plan.candidates - 1);
  }

  const WORD: nat := 0x1_0000_0000_0000_0000

  /** The generator multiplies in 64 bits; for any electorate and position count
      below 2^32 that is the unbounded product of the reference generator. */
  lemma NoWrap(v: nat, stride: nat, p: nat, n: nat)
    requires v < n && stride <= n <= 0x1_0000_0000 && p < 0x1_0000_0000 && n > 0
    ensures (v * stride % WORD + p) % n == Scatter(v, stride, p, n) && v * stride + p < WORD
  {
    ProductBound(v, 0xFFFF_FFFF, stride, 0x1_0000_0000);
    assert v * stride < WORD;
    DivModUnique(v * stride, WORD, 0, v * stride);
  }

  lemma ProductBound(a: nat, b: nat, x: nat, y: nat)
    requires a <= b && x <= y
    ensures a * x <= b * y
  {
    assert b * y - a * x == (b - a) * y + a * (y - x);
  }

  // ----- every quota is filled exactly -------------------------------------

  /** Under the realistic profile, exactly quota-many voters pick each candidate. */
  lemma QuotaFilled(plan: SelectionPlan, positions: nat, p: nat, k: nat, picks: nat -> bool)
    requires PlanFor(plan, RealisticProfile, plan.voters, positions, plan.candidates)
    requires plan.voters >= 1 && plan.candidates >= 2 && p < positions && k < plan.candidates
    requires forall v: nat :: picks(v) <==> Select(plan, v, p) == k
    ensures Count(0, plan.voters, picks) == Quotas(plan.voters, plan.candidates, p)[k]
  {
    var n, q := plan.voters, Quotas(plan.voters, plan.candidates, p);
    var lo, hi := Prefix(q, k), Prefix(q, k + 1);
    DivModUnique(p, positions, 0, p);
    assert plan.cum[p % |plan.cum|] == Cumulative(q);
    QuotasSum(n, plan.candidates, p);
    PrefixMonotone(q, k + 1, |q|);
    PrefixStep(q, k);
    assert q[..|q|] == q;
    hide Quotas, Gcd, Scatter, Gather, Prefix;
    forall v: nat | v < n ensures picks(v) <==> lo <= Scatter(v, plan.stride, p, n) < hi {
      SelectInBracket(plan, q, v, p, k);
    }
    var f, g := (v: nat) => Scatter(v, plan.stride, p, n), (r: nat) => Gather(r, plan.stride, p, n);
    forall v: nat | v < n ensures f(v) < n && g(f(v)) == v {
      GatherScatter(v, plan.stride, p, n);
    }
    forall r: nat | r < n ensures g(r) < n && f(g(r)) == r {
      ScatterGather(r, plan.stride, p, n);
    }
    PermutationCount(n, f, g, lo, hi, picks);
  }

  /** Voter v picks k exactly when its scattered number falls in bracket k; the
      clamp to the last candidate never acts. */
  lemma SelectInBracket(plan: SelectionPlan, q: seq<nat>, v: nat, p: nat, k: nat)
    requires plan.profile.RealisticProfile? && plan.candidates > 1 && |plan.cum| > 0 && plan.voters > 0
    requires plan.cum[p % |plan.cum|] == Cumulative(q) && |q| == plan.candidates && Sum(q) == plan.voters
    requires k < |q|
    ensures Select(plan, v, p) == k
       <==> Prefix(q, k) <= Scatter(v, plan.stride, p, plan.voters) < Prefix(q, k + 1)
  {
    hide Scatter, Sum;
    var r := Scatter(v, plan.stride, p, plan.voters);
    var cum := Cumulative(q);
    assert q[..|q|] == q;
    assert cum[|q| - 1] == plan.voters > r;
    BracketOwns(q, r, k);
  }
}
