/** Sums and counts over ranges of voters. */
module Counting {

  function Sum(s: seq<nat>): nat {
    if s == [] then 0 else Sum(s[..|s| - 1]) + s[|s| - 1]
  }

  lemma {:induction false} SumUpdate(s: seq<nat>, k: nat, x: nat)
    requires k < |s|
    ensures Sum(s[k := x]) == Sum(s) - s[k] + x
    ensures s[k] <= Sum(s)
  {
    var n := |s| - 1;
    if k == n {
      assert s[k := x][..n] == s[..n];
    } else {
      SumUpdate(s[..n], k, x);
      assert s[k := x][..n] == s[..n][k := x];
    }
  }

  lemma {:induction false} SumAdd(s: seq<nat>, t: seq<nat>, u: seq<nat>)
    requires |s| == |t| == |u| && forall k :: 0 <= k < |s| ==> u[k] == s[k] + t[k]
    ensures Sum(u) == Sum(s) + Sum(t)
  {
    if s != [] {
      var n := |s| - 1;
      SumAdd(s[..n], t[..n], u[..n]);
    }
  }

  lemma {:induction false} SumZeros(s: seq<nat>)
    requires forall k :: 0 <= k < |s| ==> s[k] == 0
    ensures Sum(s) == 0
  {
    if s != [] {
      SumZeros(s[..|s| - 1]);
    }
  }

  /** How many v in [lo, hi) satisfy f. */
  function Count(lo: nat, hi: nat, f: nat -> bool): (n: nat)
    requires lo <= hi
    ensures n <= hi - lo
  {
    if lo == hi then 0 else Count(lo, hi - 1, f) + if f(hi - 1) then 1 else 0
  }

  lemma {:induction false} CountSplit(lo: nat, mid: nat, hi: nat, f: nat -> bool)
    requires lo <= mid <= hi
    ensures Count(lo, hi, f) == Count(lo, mid, f) + Count(mid, hi, f)
  {
    if mid < hi {
      CountSplit(lo, mid, hi - 1, f);
    }
  }

  lemma {:induction false} CountSame(lo: nat, hi: nat, f: nat -> bool, g: nat -> bool)
    requires lo <= hi && forall v :: lo <= v < hi ==> f(v) == g(v)
    ensures Count(lo, hi, f) == Count(lo, hi, g)
  {
    if lo < hi {
      CountSame(lo, hi - 1, f, g);
    }
  }

  lemma {:induction false} CountIsCardinality(hi: nat, f: nat -> bool)
    ensures Count(0, hi, f) == |set v: nat | v < hi && f(v)|
  {
    var all := set v: nat | v < hi && f(v);
    if hi > 0 {
      CountIsCardinality(hi - 1, f);
      var front := set v: nat | v < hi - 1 && f(v);
      assert all == if f(hi - 1) then front + {hi - 1} else front;
    } else {
      assert all == {};
    }
  }

  /** An injective image is as large as its source. */
  lemma {:induction false} ImageSize(s: set<nat>, f: nat -> nat)
    requires forall a, b :: a in s && b in s && f(a) == f(b) ==> a == b
    ensures |set v | v in s :: f(v)| == |s|
  {
    if s != {} {
      var a :| a in s;
      ImageSize(s - {a}, f);
      assert (set v | v in s :: f(v)) == (set v | v in s - {a} :: f(v)) + {f(a)};
    }
  }

  function Interval(lo: nat, hi: nat): (s: set<nat>)
    requires lo <= hi
    ensures |s| == hi - lo && forall r :: r in s <==> lo <= r < hi
  {
    if lo == hi then {} else Interval(lo, hi - 1) + {hi - 1}
  }

  /** A permutation f of [0, n) with inverse g puts exactly hi - lo arguments into [lo, hi). */
  lemma PermutationCount(n: nat, f: nat -> nat, g: nat -> nat, lo: nat, hi: nat, h: nat -> bool)
    requires lo <= hi <= n
    requires forall v: nat :: v < n ==> f(v) < n && g(f(v)) == v
    requires forall r: nat :: r < n ==> g(r) < n && f(g(r)) == r
    requires forall v: nat :: v < n ==> (h(v) <==> lo <= f(v) < hi)
    ensures Count(0, n, h) == hi - lo
  {
    var s := set v: nat | v < n && h(v);
    CountIsCardinality(n, h);
    ImageSize(s, f) by {
      forall a, b | a in s && b in s && f(a) == f(b) ensures a == b {
        assert g(f(a)) == a && g(f(b)) == b;
      }
    }
    var image := set v | v in s :: f(v);
    assert image == Interval(lo, hi) by {
      forall r | r in Interval(lo, hi) ensures r in image {
        assert f(g(r)) == r && g(r) in s;
      }
    }
  }
}
