/** From verified partial decryptions to published totals. */
module Tally {
  import opened Wrappers
  import opened ModArith
  import opened Group
  import opened Dkg
  import opened Decryption
  import opened Decode
  import opened Threshold

  datatype DecryptError = PartialsDoNotVerify | DuplicateTrustee(contest: nat) | Undecodable(contest: nat)

  /** Logarithm of contest c's aggregate data minus what the first `threshold`
      verified shares recombine to; -1 when there are too few of them. */
  function Plain(b: Board, pds: seq<PartialDecryption>, c: nat, q: nat): int
    requires q > 0 && b.WellFormed() && c < |b.data|
  {
    var shares := Verified(b, pds, c, q);
    if |shares| < b.params.threshold then -1
    else (b.data[c].log - SharedSecret(shares[..b.params.threshold], q)) % q
  }

  /** The decrypted totals, or None when anything does not verify or decode. */
  function Totals(b: Board, pds: seq<PartialDecryption>, max: nat, q: nat): (r: Option<seq<nat>>)
    requires q > 0 && b.WellFormed()
    ensures r.Some? ==> |r.value| == |b.data| && forall c :: 0 <= c < |b.data| ==>
              r.value[c] == Plain(b, pds, c, q) <= max
  {
    if Failures(b, pds, q) == [] && forall c :: 0 <= c < |b.data| ==> 0 <= Plain(b, pds, c, q) <= max
    then Some(seq(|b.data|, c requires 0 <= c < |b.data| && 0 <= Plain(b, pds, c, q) => Plain(b, pds, c, q) as nat))
    else None
  }

  /** A contest with a plaintext has a threshold of verified shares. */
  lemma PlainHasThreshold(b: Board, pds: seq<PartialDecryption>, c: nat, q: nat)
    requires q > 0 && b.WellFormed() && c < |b.data| && Plain(b, pds, c, q) >= 0
    ensures |Verified(b, pds, c, q)| >= b.params.threshold
  {
    hide Verified, SharedSecret;
  }

  method DecryptTotalsBound(b: Board, pds: seq<PartialDecryption>, max: nat, q: nat)
    returns (r: Result<seq<nat>, DecryptError>)
    requires Prime(q) && b.WellFormed() && |b.publics| < q && max < q
    ensures r.Ok? <==> Totals(b, pds, max, q).Some?
    ensures r.Ok? ==> r.value == Totals(b, pds, max, q).value
  {
    var verified, failures, thresholdSatisfied := VerifyPartialDecryptions(b, pds, q);
    forall c | 0 <= c < |b.data|
      ensures Enough(b, pds, c, q) <==> |Verified(b, pds, c, q)| >= b.params.threshold
    {
      EnoughMeansSlice(b, pds, c, q);
    }
    if failures != [] || !thresholdSatisfied {
      if !thresholdSatisfied {
        ghost var c: nat :| c < |verified| && !Enough(b, pds, c, q);
        assert Plain(b, pds, c, q) == -1;
      }
      return Err(PartialsDoNotVerify);
    }
    assert forall c :: 0 <= c < |b.data| ==> Enough(b, pds, c, q);
    hide Failures, Verified, Plain;
    var totals: seq<nat> := [];
    var c := 0;
    while c < |b.params.contestIds|
      invariant 0 <= c <= |b.params.contestIds| && |totals| == c
      invariant forall k :: 0 <= k < c ==> 0 <= Plain(b, pds, k, q) <= max && totals[k] == Plain(b, pds, k, q)
    {
      var total := DecryptContest(b, pds, verified[c], c, max, q);
      if total.Err? {
        return Err(total.error);
      }
      totals := totals + [total.value];
      c := c + 1;
    }
    r := Ok(totals);
  }

  /** One contest: recombine the first `threshold` shares, subtract, decode. */
  method DecryptContest(b: Board, pds: seq<PartialDecryption>, shares: seq<VerifiedShare>, c: nat, max: nat, q: nat)
    returns (r: Result<nat, DecryptError>)
    requires Prime(q) && b.WellFormed() && |b.publics| < q && max < q && c < |b.data|
    requires shares == Verified(b, pds, c, q) && |shares| >= b.params.threshold
    ensures r.Ok? <==> 0 <= Plain(b, pds, c, q) <= max
    ensures r.Ok? ==> r.value == Plain(b, pds, c, q)
  {
    var subset := shares[..b.params.threshold];
    assert Plain(b, pds, c, q) == (b.data[c].log - SharedSecret(subset, q)) % q;
    VerifiedSharesAreGood(b, pds, c, q);
    hide Verified, Plain, Prime, Cong, Recombine, SharesKey;
    var secret := CombineShares(subset, q);
    if secret.None? {
      return Err(DuplicateTrustee(c));
    }
    var point := Sub(b.data[c], secret.value, q);
    PlainPoint(b.data[c], secret.value, SharedSecret(subset, q), q);
    var total := DecodeTally(point, max, q);
    if total.None? {
      return Err(Undecodable(c));
    }
    r := Ok(total.value);
  }

  lemma PlainPoint(data: Point, secret: Point, v: int, q: nat)
    requires q > 0 && Represents(secret, v, q)
    ensures Sub(data, secret, q).log == (data.log - v) % q && Element(Sub(data, secret, q), q)
  {
    CongCombine(1, data.log, data.log, -1, secret.log, v, q) by {
      CongIntro(data.log, data.log, 0, q);
    }
    CongModEq(data.log - secret.log, data.log - v, q);
  }

  // ----- what a successful decryption means --------------------------------

  lemma SharesOnPolynomial(b: Board, pds: seq<PartialDecryption>, c: nat, dealers: seq<Polynomial>, q: nat)
    requires q > 0 && b.WellFormed() && c < |b.pads| && KeysOf(b.publics, dealers, q)
    ensures OnPolynomial(Verified(b, pds, c, q), dealers, b.pads[c], q)
  {
    VerifiedSharesAreGood(b, pds, c, q);
    var shares := Verified(b, pds, c, q);
    hide Verified, Cong, JointEval;
    forall k | 0 <= k < |shares|
      ensures Cong(shares[k].share.log, JointEval(dealers, shares[k].trusteeIndex + 1) * b.pads[c].log, q)
    {
      var t := shares[k].trusteeIndex;
      assert SharesKey(shares[k].share, b.pads[c], b.publics[t], q);
      KeyShare(shares[k].share.log, b.publics[t].log, JointEval(dealers, t + 1), b.pads[c].log, q);
    }
  }

  lemma KeyShare(share: int, key: int, value: int, pad: int, q: nat)
    requires q > 0 && Cong(share, key * pad, q) && Cong(key, value, q)
    ensures Cong(share, value * pad, q)
  {
    CongIntro(pad, pad, 0, q);
    hide *;
    CongMul(key, value, pad, pad, q);
    CongTrans(share, key * pad, value * pad, q);
  }

  /** Under the keys of dealers of degree below the threshold, the plaintext of
      contest c is the aggregate minus (joint secret) * pad, whichever verified
      shares came first. */
  lemma PlainMeaning(b: Board, pds: seq<PartialDecryption>, c: nat, dealers: seq<Polynomial>, q: nat)
    requires q > 0 && Prime(q) && b.WellFormed() && |b.pads| == |b.data| && |b.publics| < q && c < |b.data| && KeysOf(b.publics, dealers, q)
    requires forall d :: d in dealers ==> |d| <= b.params.threshold
    requires |Verified(b, pds, c, q)| >= b.params.threshold
    ensures Plain(b, pds, c, q) == (b.data[c].log - JointEval(dealers, 0) * b.pads[c].log) % q
  {
    hide *;
    var shares := Verified(b, pds, c, q);
    var subset := shares[..b.params.threshold];
    PlainDef(b, pds, c, q);
    VerifiedSharesAreGood(b, pds, c, q);
    SharesOnPolynomial(b, pds, c, dealers, q);
    SliceOfGood(b, c, shares, subset, dealers, q);
    SubsetRecoversSecret(subset, dealers, b.pads[c], q);
    CongSubtract(b.data[c].log, SharedSecret(subset, q), JointEval(dealers, 0) * b.pads[c].log, q);
  }

  lemma PlainDef(b: Board, pds: seq<PartialDecryption>, c: nat, q: nat)
    requires q > 0 && b.WellFormed() && c < |b.data|
    requires |Verified(b, pds, c, q)| >= b.params.threshold
    ensures Plain(b, pds, c, q)
         == (b.data[c].log - SharedSecret(Verified(b, pds, c, q)[..b.params.threshold], q)) % q
  {
    hide Verified, Recombine;
  }

  lemma SliceOfGood(b: Board, c: nat, shares: seq<VerifiedShare>, subset: seq<VerifiedShare>, dealers: seq<Polynomial>, q: nat)
    requires q > 0 && b.WellFormed() && c < |b.pads| && |b.publics| < q && subset <= shares
    requires GoodShares(b, c, shares, q) && OnPolynomial(shares, dealers, b.pads[c], q)
    ensures OnPolynomial(subset, dealers, b.pads[c], q)
    ensures forall k :: 0 <= k < |subset| ==> subset[k].trusteeIndex + 1 < q
    ensures forall j, k :: 0 <= j < k < |subset| ==> subset[j].trusteeIndex != subset[k].trusteeIndex
  {
    hide Cong, SharesKey;
    assert forall k :: 0 <= k < |subset| ==> subset[k] == shares[k];
  }

  lemma CongSubtract(d: int, v: int, w: int, q: nat)
    requires q > 0 && Cong(v, w, q)
    ensures (d - v) % q == (d - w) % q
  {
    CongIntro(d, d, 0, q);
    CongCombine(1, d, d, -1, v, w, q);
    CongModEq(d - v, d - w, q);
  }

  /** A decryption that succeeds publishes, for each contest, the one T in
      [0, max] with data = T*G + secret*pad. */
  lemma TotalsAreTheDecryption(b: Board, pds: seq<PartialDecryption>, max: nat, dealers: seq<Polynomial>, c: nat, t: nat, q: nat)
    requires Prime(q) && b.WellFormed() && |b.publics| < q && max < q && c < |b.data| && KeysOf(b.publics, dealers, q)
    requires forall d :: d in dealers ==> |d| <= b.params.threshold
    requires Totals(b, pds, max, q).Some? && t <= max
    ensures Cong(b.data[c].log, t + JointEval(dealers, 0) * b.pads[c].log, q)
       <==> t == Totals(b, pds, max, q).value[c]
  {
    assert |b.pads| == |b.data|;
    hide *;
    var total := Totals(b, pds, max, q).value[c];
    PlainHasThreshold(b, pds, c, q);
    PlainMeaning(b, pds, c, dealers, q);
    var data, mask := b.data[c].log, JointEval(dealers, 0) * b.pads[c].log;
    assert total == (data - mask) % q;
    UniquePlaintext(data, mask, t, total, q);
  }

  lemma UniquePlaintext(data: int, mask: int, t: nat, total: nat, q: nat)
    requires q > 0 && t < q && total == (data - mask) % q
    ensures Cong(data, t + mask, q) <==> t == total
  {
    ModCong(data - mask, q);
    assert Cong(data, t + mask, q) <==> Cong(data - mask, t, q) by {
      assert data - (t + mask) == data - mask - t;
    }
    if Cong(data - mask, t, q) {
      CongTrans(total, data - mask, t, q);
      CongUnique(total, t, q);
    }
    if t == total {
      CongSym(total, data - mask, q);
    }
  }

  /** Reordering the partial decryptions changes nothing: neither whether the
      decryption succeeds nor the totals. */
  lemma TotalsPermuted(b: Board, pds: seq<PartialDecryption>, pds': seq<PartialDecryption>, max: nat,
                       dealers: seq<Polynomial>, q: nat)
    requires Prime(q) && b.WellFormed() && |b.publics| < q && KeysOf(b.publics, dealers, q)
    requires forall d :: d in dealers ==> |d| <= b.params.threshold
    requires multiset(pds) == multiset(pds')
    ensures Totals(b, pds, max, q) == Totals(b, pds', max, q)
  {
    NoFailuresIffClean(b, pds, q);
    NoFailuresIffClean(b, pds', q);
    assert Clean(b, pds, q) <==> Clean(b, pds', q) by {
      CleanEitherWay(b, pds, pds', q);
    }
    hide Clean, Failures, Verified, Plain, Submitted, Prime, KeysOf;
    if Clean(b, pds, q) {
      CleanPermuted(b, pds, pds', q);
      forall c | 0 <= c < |b.data| ensures Plain(b, pds, c, q) == Plain(b, pds', c, q) {
        PlainPermuted(b, pds, pds', c, dealers, q);
      }
      SameTotals(b, pds, pds', max, q);
    }
  }

  lemma CleanEitherWay(b: Board, pds: seq<PartialDecryption>, pds': seq<PartialDecryption>, q: nat)
    requires q > 0 && b.WellFormed() && multiset(pds) == multiset(pds')
    ensures Clean(b, pds, q) <==> Clean(b, pds', q)
  {
    hide Clean;
    if Clean(b, pds, q) {
      CleanPermuted(b, pds, pds', q);
    }
    if Clean(b, pds', q) {
      CleanPermuted(b, pds', pds, q);
    }
  }

  lemma SameTotals(b: Board, pds: seq<PartialDecryption>, pds': seq<PartialDecryption>, max: nat, q: nat)
    requires q > 0 && b.WellFormed() && Failures(b, pds, q) == Failures(b, pds', q)
    requires forall c :: 0 <= c < |b.data| ==> Plain(b, pds, c, q) == Plain(b, pds', c, q)
    ensures Totals(b, pds, max, q) == Totals(b, pds', max, q)
  {
    hide Failures, Verified, Plain;
    var r, r' := Totals(b, pds, max, q), Totals(b, pds', max, q);
    assert r.Some? <==> r'.Some?;
    assert r.Some? ==> r.value == r'.value;
  }

  lemma PlainPermuted(b: Board, pds: seq<PartialDecryption>, pds': seq<PartialDecryption>, c: nat,
                      dealers: seq<Polynomial>, q: nat)
    requires Prime(q) && b.WellFormed() && |b.publics| < q && c < |b.data| && KeysOf(b.publics, dealers, q)
    requires forall d :: d in dealers ==> |d| <= b.params.threshold
    requires Failures(b, pds, q) == [] && Failures(b, pds', q) == []
    requires forall c, t :: Submitted(b, pds, c, t) <==> Submitted(b, pds', c, t)
    ensures Plain(b, pds, c, q) == Plain(b, pds', c, q)
  {
    CleanTrustees(b, pds, c, q);
    CleanTrustees(b, pds', c, q);
    var v, v' := Verified(b, pds, c, q), Verified(b, pds', c, q);
    assert Trustees(v) == Trustees(v');
    VerifiedSharesAreGood(b, pds, c, q);
    VerifiedSharesAreGood(b, pds', c, q);
    TrusteesCount(v);
    TrusteesCount(v');
    if |v| >= b.params.threshold {
      PlainMeaning(b, pds, c, dealers, q);
      PlainMeaning(b, pds', c, dealers, q);
    }
  }
}
