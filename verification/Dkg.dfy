/** Feldman key generation: shares, commitments, complaints and the keys every
    verifier re-derives from the published transcript. */
module Dkg {
  import opened Wrappers
  import opened ModArith
  import opened Group
  import opened Interpolation

  type Polynomial = seq<int>

  function Logs(points: seq<Point>): (r: seq<int>)
    ensures |r| == |points| && forall k :: 0 <= k < |r| ==> r[k] == points[k].log
  {
    seq(|points|, k requires 0 <= k < |points| => points[k].log)
  }

  /** Sum over the dealers of their polynomial's value at x. */
  function JointEval(dealers: seq<Polynomial>, x: int): int {
    if dealers == [] then 0
    else JointEval(dealers[..|dealers| - 1], x) + Eval(dealers[|dealers| - 1], x)
  }

  function AllLogs(commitments: seq<seq<Point>>): (r: seq<Polynomial>)
    ensures |r| == |commitments| && forall j :: 0 <= j < |r| ==> r[j] == Logs(commitments[j])
  {
    seq(|commitments|, j requires 0 <= j < |commitments| => Logs(commitments[j]))
  }

  lemma JointEvalSnoc(ps: seq<Polynomial>, j: nat, x: int)
    requires j < |ps|
    ensures JointEval(ps[..j + 1], x) == JointEval(ps[..j], x) + Eval(ps[j], x)
  {
    assert ps[..j + 1][..j] == ps[..j];
  }

  // ----- two ways to evaluate a committed polynomial -----------------------

  /** Horner's rule from the highest coefficient down, in the group. */
  method HornerInGroup(points: seq<Point>, x: int, q: nat) returns (acc: Point)
    requires q > 0 && forall p :: p in points ==> Element(p, q)
    ensures Represents(acc, Eval(Logs(points), x), q)
  {
    ghost var cs := Logs(points);
    acc := Identity;
    RepresentsIdentity(q);
    var k := |points|;
    assert cs[k..] == [];
    while k > 0
      invariant 0 <= k <= |points|
      invariant Represents(acc, Eval(cs[k..], x), q)
    {
      k := k - 1;
      HornerStepInGroup(acc, points[k], x, Eval(cs[k + 1..], x), q);
      assert cs[k..][1..] == cs[k + 1..];
      acc := Add(Mul(x % q, acc, q), points[k], q);
    }
    assert cs[0..] == cs;
  }

  lemma HornerStepInGroup(acc: Point, c: Point, x: int, v: int, q: nat)
    requires q > 0 && Represents(acc, v, q) && Element(c, q)
    ensures Represents(Add(Mul(x % q, acc, q), c, q), c.log + x * v, q)
  {
    ModCong(x, q);
    CongIntro(c.log, c.log, 0, q);
    hide Cong;
    RepresentsMul(x % q, x, acc, v, q);
    RepresentsAdd(Mul(x % q, acc, q), x * v, c, c.log, q);
  }

  function Power(x: int, k: nat): int {
    if k == 0 then 1 else x * Power(x, k - 1)
  }

  /** Splitting a polynomial at coefficient k. */
  lemma {:induction false} EvalSplit(cs: seq<int>, k: nat, x: int)
    requires k <= |cs|
    ensures Eval(cs, x) == Eval(cs[..k], x) + Power(x, k) * Eval(cs[k..], x)
  {
    if k == 0 {
      assert cs[0..] == cs;
    } else {
      EvalSplit(cs[1..], k - 1, x);
      assert cs[1..][..k - 1] == cs[..k][1..] && cs[1..][k - 1..] == cs[k..];
      assert cs[..k][0] == cs[0];
      Distribute(x, Eval(cs[..k][1..], x), Power(x, k - 1), Eval(cs[k..], x));
    }
  }

  lemma Distribute(x: int, a: int, p: int, b: int)
    ensures x * (a + p * b) == x * a + (x * p) * b
  {
    assert x * (p * b) == (x * p) * b;
  }

  lemma EvalSnoc(cs: seq<int>, k: nat, x: int)
    requires k < |cs|
    ensures Eval(cs[..k + 1], x) == Eval(cs[..k], x) + cs[k] * Power(x, k)
  {
    EvalSplit(cs[..k + 1], k, x);
    assert cs[..k + 1][..k] == cs[..k] && cs[..k + 1][k..] == [cs[k]];
    assert [cs[k]][1..] == [];
    assert Eval([cs[k]], x) == cs[k];
    assert Power(x, k) * cs[k] == cs[k] * Power(x, k);
  }

  /** A recipient's check of one share against its dealer's commitments, summing
      powers of x upwards. It accepts exactly the polynomial's own value. */
  method VerifyShare(value: int, recipient: nat, commitments: seq<Point>, q: nat) returns (ok: bool)
    requires q > 0 && forall p :: p in commitments ==> Element(p, q)
    ensures ok <==> Cong(value, Eval(Logs(commitments), recipient), q)
  {
    var x := recipient % q;
    ghost var cs := Logs(commitments);
    var power := 1 % q;
    var expected := Identity;
    ModCong(1, q);
    RepresentsIdentity(q);
    var k := 0;
    while k < |commitments|
      invariant 0 <= k <= |commitments|
      invariant Represents(expected, Eval(cs[..k], recipient), q)
      invariant Cong(power, Power(recipient, k), q)
    {
      EvalSnoc(cs, k, recipient);
      PowerStep(expected, commitments[k], power, recipient, Eval(cs[..k], recipient), Power(recipient, k), q);
      expected := Add(expected, Mul(power, commitments[k], q), q);
      power := (power * x) % q;
      k := k + 1;
    }
    assert cs[..|commitments|] == cs;
    ok := Mul(value, Base(q), q) == expected;
    CheckedShare(value, Eval(cs, recipient), expected, q);
  }

  lemma PowerStep(expected: Point, c: Point, power: int, x: nat, v: int, p: int, q: nat)
    requires q > 0 && Represents(expected, v, q) && Element(c, q) && Cong(power, p, q)
    ensures Represents(Add(expected, Mul(power, c, q), q), v + c.log * p, q)
    ensures Cong((power * (x % q)) % q, x * p, q)
  {
    ModCong(x, q);
    CongIntro(c.log, c.log, 0, q);
    hide Cong;
    RepresentsMul(power, p, c, c.log, q);
    assert p * c.log == c.log * p;
    RepresentsAdd(expected, v, Mul(power, c, q), p * c.log, q);
    CongMul(power, p, x % q, x, q);
    Reduced(power * (x % q), p * x, q);
    assert p * x == x * p;
  }

  lemma CheckedShare(value: int, v: int, expected: Point, q: nat)
    requires q > 0 && Represents(expected, v, q)
    ensures Mul(value, Base(q), q) == expected <==> Cong(value, v, q)
  {
    CongIntro(value, value, 0, q);
    RepresentsBase(q);
    hide Cong;
    RepresentsMul(value, value, Base(q), 1, q);
    assert value * 1 == value;
    if Cong(value, v, q) {
      RepresentsUnique(Mul(value, Base(q), q), value, expected, v, q);
    }
    if Mul(value, Base(q), q) == expected {
      CongSym(expected.log, value, q);
      CongTrans(value, expected.log, v, q);
    }
  }

  // ----- keys derived from the transcript ----------------------------------

  /** The verification key of the trustee at 1-based position `index`. */
  method TrusteeVerificationKey(commitments: seq<seq<Point>>, index: nat, q: nat) returns (sum: Point)
    requires q > 0 && forall c, p :: c in commitments && p in c ==> Element(p, q)
    ensures Represents(sum, JointEval(AllLogs(commitments), index), q)
  {
    ghost var ps := AllLogs(commitments);
    sum := Identity;
    RepresentsIdentity(q);
    var j := 0;
    while j < |commitments|
      invariant 0 <= j <= |commitments|
      invariant Represents(sum, JointEval(ps[..j], index), q)
    {
      assert commitments[j] in commitments;
      var acc := HornerInGroup(commitments[j], index, q);
      JointEvalSnoc(ps, j, index);
      RepresentsAdd(sum, JointEval(ps[..j], index), acc, Eval(ps[j], index), q);
      sum := Add(sum, acc, q);
      j := j + 1;
    }
    assert ps[..|commitments|] == ps;
  }

  /** The joint election key: the sum of the dealers' constant terms. */
  method JointPublicKey(commitments: seq<seq<Point>>, q: nat) returns (key: Point)
    requires q > 0 && forall c, p :: c in commitments && p in c ==> Element(p, q)
    requires forall c :: c in commitments ==> |c| >= 1
    ensures Represents(key, JointEval(AllLogs(commitments), 0), q)
  {
    ghost var ps := AllLogs(commitments);
    key := Identity;
    RepresentsIdentity(q);
    var j := 0;
    while j < |commitments|
      invariant 0 <= j <= |commitments|
      invariant Represents(key, JointEval(ps[..j], 0), q)
    {
      assert commitments[j] in commitments;
      JointEvalSnoc(ps, j, 0);
      CongIntro(commitments[j][0].log, commitments[j][0].log, 0, q);
      assert Eval(ps[j], 0) == commitments[j][0].log;
      RepresentsAdd(key, JointEval(ps[..j], 0), commitments[j][0], commitments[j][0].log, q);
      key := Add(key, commitments[j][0], q);
      j := j + 1;
    }
    assert ps[..|commitments|] == ps;
  }

  // ----- the ceremony ------------------------------------------------------

  /** Scalars in canonical form. */
  predicate Canonical(cs: seq<int>, q: nat) {
    forall c :: c in cs ==> 0 <= c < q
  }

  function Commitments(coefficients: seq<int>, q: nat): (r: seq<Point>)
    requires q > 0
  {
    seq(|coefficients|, k requires 0 <= k < |coefficients| => Mul(coefficients[k], Base(q), q))
  }

  /** A commitment to a canonical coefficient is that coefficient times G. */
  lemma CommitmentLogs(cs: seq<int>, q: nat)
    requires q > 1 && Canonical(cs, q)
    ensures Logs(Commitments(cs, q)) == cs
    ensures forall p :: p in Commitments(cs, q) ==> Element(p, q)
  {
    forall k | 0 <= k < |cs| ensures Commitments(cs, q)[k] == Point(cs[k]) {
      assert cs[k] in cs;
      DivModUnique(1, q, 0, 1);
      DivModUnique(cs[k] * 1, q, 0, cs[k]);
    }
  }

  /** Dealer j sent recipient i (both from 0) a value off its polynomial. */
  predicate BadShare(dealers: seq<Polynomial>, received: seq<seq<int>>, i: nat, j: nat, q: nat)
    requires q > 0 && i < |received| && j < |dealers| == |received[i]|
  {
    !Cong(received[i][j], Eval(dealers[j], i + 1), q)
  }

  /** The polynomials of the dealers nobody accused, in dealer order. */
  function Active(dealers: seq<Polynomial>, accused: set<nat>): seq<Polynomial> {
    if dealers == [] then []
    else
      var n := |dealers| - 1;
      Active(dealers[..n], accused) + if n in accused then [] else [dealers[n]]
  }

  lemma ActiveSnoc(dealers: seq<Polynomial>, accused: set<nat>, j: nat)
    requires j < |dealers|
    ensures Active(dealers[..j + 1], accused)
         == Active(dealers[..j], accused) + if j in accused then [] else [dealers[j]]
  {
    assert dealers[..j + 1][..j] == dealers[..j];
  }

  datatype Complaint = Complaint(complainant: nat, accused: nat)

  datatype DkgOutput = DkgOutput(publicKey: Point, shares: seq<int>, commitments: seq<seq<Point>>,
                                 complaints: seq<Complaint>)

  datatype DkgError = DealerCount | PolynomialDegree | NotEnoughDealers

  predicate Matrix(received: seq<seq<int>>, n: nat) {
    |received| == n && forall row :: row in received ==> |row| == n
  }

  /** Every recipient checks every share against the dealer's commitments and
      complains about exactly the bad ones. */
  method CollectComplaints(dealers: seq<Polynomial>, commitments: seq<seq<Point>>, received: seq<seq<int>>, q: nat)
    returns (complaints: seq<Complaint>, accused: set<nat>)
    requires q > 0 && Matrix(received, |dealers|) && AllLogs(commitments) == dealers
    requires forall c, p :: c in commitments && p in c ==> Element(p, q)
    ensures forall i: nat, j: nat :: i < |received| && j < |dealers| ==>
              (BadShare(dealers, received, i, j, q) <==> Complaint(i, j) in complaints)
    ensures forall c :: c in complaints ==> c.complainant < |received| && c.accused < |dealers|
    ensures accused == set c | c in complaints :: c.accused
  {
    complaints, accused := [], {};
    var i := 0;
    while i < |received|
      invariant 0 <= i <= |received|
      invariant forall r: nat, j: nat :: r < i && j < |dealers| ==>
                  (BadShare(dealers, received, r, j, q) <==> Complaint(r, j) in complaints)
      invariant forall c :: c in complaints ==> c.complainant < i && c.accused < |dealers|
      invariant accused == set c | c in complaints :: c.accused
    {
      var j := 0;
      while j < |dealers|
        invariant 0 <= j <= |dealers|
        invariant forall r: nat, k: nat :: r < i && k < |dealers| ==>
                    (BadShare(dealers, received, r, k, q) <==> Complaint(r, k) in complaints)
        invariant forall k: nat :: k < j ==>
                    (BadShare(dealers, received, i, k, q) <==> Complaint(i, k) in complaints)
        invariant forall c :: c in complaints ==>
                    c.accused < |dealers| && (c.complainant < i || (c.complainant == i && c.accused < j))
        invariant accused == set c | c in complaints :: c.accused
      {
        var ok := CheckEntry(dealers, commitments, received, i, j, q);
        ghost var before := complaints;
        if !ok {
          complaints := complaints + [Complaint(i, j)];
          accused := accused + {j};
        }
        assert forall c :: c in complaints <==> c in before || (!ok && c == Complaint(i, j));
        j := j + 1;
      }
      i := i + 1;
    }
  }

  method CheckEntry(dealers: seq<Polynomial>, commitments: seq<seq<Point>>, received: seq<seq<int>>, i: nat, j: nat, q: nat)
    returns (ok: bool)
    requires q > 0 && Matrix(received, |dealers|) && AllLogs(commitments) == dealers
    requires forall c, p :: c in commitments && p in c ==> Element(p, q)
    requires i < |received| && j < |dealers|
    ensures ok <==> !BadShare(dealers, received, i, j, q)
  {
    assert commitments[j] in commitments;
    ok := VerifyShare(received[i][j], i + 1, commitments[j], q);
  }

  /** One recipient's share: the sum of what unaccused dealers sent. */
  method SumShares(dealers: seq<Polynomial>, row: seq<int>, accused: set<nat>, x: nat, q: nat) returns (value: int)
    requires q > 0 && |row| == |dealers|
    requires forall j: nat :: j < |dealers| && j !in accused ==> Cong(row[j], Eval(dealers[j], x), q)
    ensures Cong(value, JointEval(Active(dealers, accused), x), q)
  {
    value := 0;
    CongIntro(0, 0, 0, q);
    var j := 0;
    while j < |row|
      invariant 0 <= j <= |row|
      invariant Cong(value, JointEval(Active(dealers[..j], accused), x), q)
    {
      ActiveSnoc(dealers, accused, j);
      if j !in accused {
        AddShare(Active(dealers[..j], accused), dealers[j], value, row[j], x, q);
        value := (value + row[j]) % q;
      } else {
        assert Active(dealers[..j + 1], accused) == Active(dealers[..j], accused);
      }
      j := j + 1;
    }
    assert dealers[..|row|] == dealers;
  }

  lemma AddShare(kept: seq<Polynomial>, dealer: Polynomial, value: int, share: int, x: nat, q: nat)
    requires q > 0 && Cong(value, JointEval(kept, x), q) && Cong(share, Eval(dealer, x), q)
    ensures Cong((value + share) % q, JointEval(kept + [dealer], x), q)
  {
    var more := kept + [dealer];
    assert more[..|kept|] == kept && more[..|kept| + 1] == more;
    JointEvalSnoc(more, |kept|, x);
    hide Cong;
    CongAdd(value, JointEval(kept, x), share, Eval(dealer, x), q);
    Reduced(value + share, JointEval(kept, x) + Eval(dealer, x), q);
  }

  /** The published key, commitments and shares all belong to the same joint
      polynomial, the sum of `active`. */
  ghost predicate ConsistentOutput(o: DkgOutput, active: seq<Polynomial>, trustees: nat, q: nat)
    requires q > 0
  {
    && AllLogs(o.commitments) == active
    && Represents(o.publicKey, JointEval(active, 0), q)
    && |o.shares| == trustees
    && forall i: nat :: i < trustees ==> Cong(o.shares[i], JointEval(active, i + 1), q)
  }

  /** The dealers at least one recipient received a bad share from. */
  ghost predicate AccusedExactly(accused: set<nat>, dealers: seq<Polynomial>, received: seq<seq<int>>, q: nat)
    requires q > 0 && Matrix(received, |dealers|)
  {
    forall j: nat :: j in accused <==>
      j < |dealers| && exists i: nat :: i < |received| && BadShare(dealers, received, i, j, q)
  }

  /** The whole ceremony over an arbitrary matrix of delivered shares. Whatever
      was tampered with in transit, the key and every trustee's share come from
      one and the same set of dealers: those all of whose shares verified. */
  method RunInMemory(threshold: nat, trustees: nat, dealers: seq<Polynomial>, received: seq<seq<int>>, q: nat)
    returns (r: Result<DkgOutput, DkgError>, accused: set<nat>)
    requires q > 1 && 1 <= threshold <= trustees
    requires forall d :: d in dealers ==> Canonical(d, q)
    requires Matrix(received, |dealers|)
    ensures |dealers| != trustees ==> r == Err(DealerCount)
    ensures |dealers| == trustees && (exists d :: d in dealers && |d| != threshold) ==> r == Err(PolynomialDegree)
    ensures |dealers| == trustees && (forall d :: d in dealers ==> |d| == threshold) ==>
              var active := Active(dealers, accused);
              && AccusedExactly(accused, dealers, received, q)
              && (|active| < threshold ==> r == Err(NotEnoughDealers))
              && (|active| >= threshold ==> r.Ok? && ConsistentOutput(r.value, active, trustees, q))
  {
    accused := {};
    if |dealers| != trustees {
      return Err(DealerCount), accused;
    }
    var j := 0;
    while j < |dealers|
      invariant 0 <= j <= |dealers|
      invariant forall k :: 0 <= k < j ==> |dealers[k]| == threshold
    {
      if |dealers[j]| != threshold {
        assert dealers[j] in dealers;
        return Err(PolynomialDegree), accused;
      }
      j := j + 1;
    }
    r, accused := AfterDealing(threshold, dealers, received, q);
  }

  method AfterDealing(threshold: nat, dealers: seq<Polynomial>, received: seq<seq<int>>, q: nat)
    returns (r: Result<DkgOutput, DkgError>, accused: set<nat>)
    requires q > 1 && 1 <= threshold
    requires forall d :: d in dealers ==> Canonical(d, q) && |d| == threshold
    requires Matrix(received, |dealers|)
    ensures AccusedExactly(accused, dealers, received, q)
    ensures var active := Active(dealers, accused);
            && (|active| < threshold ==> r == Err(NotEnoughDealers))
            && (|active| >= threshold ==> r.Ok? && ConsistentOutput(r.value, active, |dealers|, q))
  {
    var commitments := CommitAll(dealers, q);
    var complaints;
    complaints, accused := CollectComplaints(dealers, commitments, received, q);
    var kept := KeepActive(dealers, commitments, accused, q);
    if |kept| < threshold {
      return Err(NotEnoughDealers), accused;
    }
    ActiveDegrees(dealers, accused, threshold);
    forall c | c in kept ensures |c| >= 1 {
      var k :| 0 <= k < |kept| && kept[k] == c;
      assert AllLogs(kept)[k] in Active(dealers, accused);
    }
    var publicKey := JointPublicKey(kept, q);
    var shares := AllShares(dealers, received, accused, q);
    return Ok(DkgOutput(publicKey, shares, kept, complaints)), accused;
  }

  method AllShares(dealers: seq<Polynomial>, received: seq<seq<int>>, accused: set<nat>, q: nat) returns (shares: seq<int>)
    requires q > 0 && Matrix(received, |dealers|) && AccusedExactly(accused, dealers, received, q)
    ensures |shares| == |dealers|
    ensures forall i: nat :: i < |dealers| ==> Cong(shares[i], JointEval(Active(dealers, accused), i + 1), q)
  {
    shares := [];
    var i := 0;
    while i < |received|
      invariant 0 <= i <= |received| && |shares| == i
      invariant forall k: nat :: k < i ==> Cong(shares[k], JointEval(Active(dealers, accused), k + 1), q)
    {
      forall j: nat | j < |dealers| && j !in accused ensures Cong(received[i][j], Eval(dealers[j], i + 1), q) {
        assert !BadShare(dealers, received, i, j, q);
      }
      var value := SumShares(dealers, received[i], accused, i + 1, q);
      shares := shares + [value];
      i := i + 1;
    }
  }

  method CommitAll(dealers: seq<Polynomial>, q: nat) returns (commitments: seq<seq<Point>>)
    requires q > 1 && forall d :: d in dealers ==> Canonical(d, q)
    ensures AllLogs(commitments) == dealers
    ensures forall c, p :: c in commitments && p in c ==> Element(p, q)
  {
    commitments := seq(|dealers|, k requires 0 <= k < |dealers| => Commitments(dealers[k], q));
    forall k | 0 <= k < |dealers|
      ensures Logs(commitments[k]) == dealers[k] && forall p :: p in commitments[k] ==> Element(p, q)
    {
      assert dealers[k] in dealers;
      CommitmentLogs(dealers[k], q);
    }
  }

  method KeepActive(dealers: seq<Polynomial>, commitments: seq<seq<Point>>, accused: set<nat>, q: nat)
    returns (kept: seq<seq<Point>>)
    requires AllLogs(commitments) == dealers
    requires forall c, p :: c in commitments && p in c ==> Element(p, q)
    ensures AllLogs(kept) == Active(dealers, accused)
    ensures forall c, p :: c in kept && p in c ==> Element(p, q)
  {
    kept := [];
    var j := 0;
    while j < |commitments|
      invariant 0 <= j <= |commitments|
      invariant AllLogs(kept) == Active(dealers[..j], accused)
      invariant forall c, p :: c in kept && p in c ==> Element(p, q)
    {
      ActiveSnoc(dealers, accused, j);
      if j !in accused {
        assert commitments[j] in commitments;
        assert AllLogs(kept + [commitments[j]]) == AllLogs(kept) + [dealers[j]];
        kept := kept + [commitments[j]];
      }
      j := j + 1;
    }
    assert dealers[..|commitments|] == dealers;
  }

  lemma {:induction false} ActiveDegrees(dealers: seq<Polynomial>, accused: set<nat>, t: nat)
    requires forall d :: d in dealers ==> |d| == t
    ensures forall d :: d in Active(dealers, accused) ==> |d| == t
  {
    if dealers != [] {
      assert dealers[|dealers| - 1] in dealers;
      ActiveDegrees(dealers[..|dealers| - 1], accused, t);
    }
  }
}
