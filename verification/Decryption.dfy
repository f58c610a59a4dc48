/** Verification of trustees' partial decryptions against the DKG keys. */
module Decryption {
  import opened Wrappers
  import opened ModArith
  import opened Group

  const WIRE_VERSION: nat := 1

  datatype Parameters = Parameters(contestIds: seq<string>, trusteeIds: seq<string>, threshold: nat)

  /** The transcript context a Chaum-Pedersen proof is bound to. */
  datatype Context = Context(binding: string, trusteeId: string, contestId: string)

  /** A decodable proof, known only by the context it was made for. */
  datatype CpProof = CpProof(context: Context)

  /** `share` and `proof` are None when the wire bytes are missing or do not decode. */
  datatype PartialDecryption =
    PartialDecryption(version: nat, trusteeId: string, contestId: string, share: Option<Point>, proof: Option<CpProof>)

  datatype VerifiedShare = VerifiedShare(trusteeIndex: nat, share: Point)

  datatype Failure =
    | Shape(index: nat)
    | Duplicate(index: nat)
    | ShareDecode(index: nat)
    | CpDecode(index: nat)
    | CpRejected(index: nat)
    | BelowThreshold(contest: nat)

  /** What the shares are checked against: the aggregate ciphertexts, one per
      contest, and the trustees' public keys, one per trustee. */
  datatype Board = Board(params: Parameters, pads: seq<Point>, data: seq<Point>, publics: seq<Point>, binding: string) {
    predicate WellFormed() {
      && |pads| == |data| == |params.contestIds|
      && |publics| == |params.trusteeIds|
    }
  }

  /** A contest and a trustee, by position in the parameters. */
  datatype Slot = Slot(contest: nat, trustee: nat)

  /** First position of id, as `iter().position` finds it. */
  function Position(ids: seq<string>, id: string): (r: Option<nat>)
    ensures r.Some? <==> id in ids
    ensures r.Some? ==> r.value < |ids| && ids[r.value] == id && id !in ids[..r.value]
  {
    if ids == [] then None
    else if ids[0] == id then Some(0)
    else
      match Position(ids[1..], id)
      case None => None
      case Some(k) =>
        assert ids[..k + 1] == [ids[0]] + ids[1..][..k];
        Some(k + 1)
  }

  /** The (contest, trustee) a partial decryption names, if both exist. */
  function Route(b: Board, pd: PartialDecryption): (r: Option<Slot>)
    ensures r.Some? ==> r.value.contest < |b.params.contestIds| && r.value.trustee < |b.params.trusteeIds|
  {
    if pd.version != WIRE_VERSION then None
    else
      match (Position(b.params.contestIds, pd.contestId), Position(b.params.trusteeIds, pd.trusteeId))
      case (Some(c), Some(t)) => Some(Slot(c, t))
      case _ => None
  }

  /** The Chaum-Pedersen statement: share = s*pad for the s with pub = s*G. */
  predicate SharesKey(share: Point, pad: Point, pub: Point, q: nat)
    requires q > 0
  {
    Cong(share.log, pub.log * pad.log, q)
  }

  predicate CpAccepts(proof: CpProof, share: Point, pad: Point, pub: Point, context: Context, q: nat)
    requires q > 0
  {
    proof.context == context && SharesKey(share, pad, pub, q)
  }

  datatype Outcome = Rejected(failure: Failure) | Accepted(slot: Slot, share: Point)

  /** What happens to partial decryption number idx when `seen` are the slots
      already claimed by earlier ones. */
  function Judge(b: Board, pd: PartialDecryption, idx: nat, seen: set<Slot>, q: nat): Outcome
    requires q > 0 && b.WellFormed()
  {
    match Route(b, pd)
    case None => Rejected(Shape(idx))
    case Some(slot) =>
      if slot in seen then Rejected(Duplicate(idx))
      else if pd.share.None? then Rejected(ShareDecode(idx))
      else if pd.proof.None? then Rejected(CpDecode(idx))
      else if CpAccepts(pd.proof.value, pd.share.value, b.pads[slot.contest], b.publics[slot.trustee],
                        Context(b.binding, pd.trusteeId, b.params.contestIds[slot.contest]), q)
      then Accepted(slot, pd.share.value)
      else Rejected(CpRejected(idx))
  }

  function Seen(b: Board, pds: seq<PartialDecryption>): set<Slot> {
    if pds == [] then {}
    else
      Seen(b, pds[..|pds| - 1]) +
      match Route(b, pds[|pds| - 1])
      case None => {}
      case Some(slot) => {slot}
  }

  function LastOutcome(b: Board, pds: seq<PartialDecryption>, q: nat): Outcome
    requires q > 0 && b.WellFormed() && pds != []
  {
    var n := |pds| - 1;
    Judge(b, pds[n], n, Seen(b, pds[..n]), q)
  }

  function Failures(b: Board, pds: seq<PartialDecryption>, q: nat): seq<Failure>
    requires q > 0 && b.WellFormed()
  {
    if pds == [] then []
    else
      Failures(b, pds[..|pds| - 1], q) +
      match LastOutcome(b, pds, q)
      case Rejected(f) => [f]
      case Accepted(_, _) => []
  }

  /** The verified shares of contest c, in input order. */
  function Verified(b: Board, pds: seq<PartialDecryption>, c: nat, q: nat): seq<VerifiedShare>
    requires q > 0 && b.WellFormed()
  {
    if pds == [] then []
    else
      Verified(b, pds[..|pds| - 1], c, q) +
      match LastOutcome(b, pds, q)
      case Rejected(_) => []
      case Accepted(slot, share) => if slot.contest == c then [VerifiedShare(slot.trustee, share)] else []
  }

  function Trustees(shares: seq<VerifiedShare>): set<nat> {
    set k | 0 <= k < |shares| :: shares[k].trusteeIndex
  }

  predicate Enough(b: Board, pds: seq<PartialDecryption>, c: nat, q: nat)
    requires q > 0 && b.WellFormed()
  {
    |Trustees(Verified(b, pds, c, q))| >= b.params.threshold
  }

  method VerifyPartialDecryptions(b: Board, pds: seq<PartialDecryption>, q: nat)
    returns (verified: seq<seq<VerifiedShare>>, failures: seq<Failure>, thresholdSatisfied: bool)
    requires q > 0 && b.WellFormed()
    ensures |verified| == |b.params.contestIds|
    ensures forall c: nat :: c < |verified| ==> verified[c] == Verified(b, pds, c, q)
    ensures thresholdSatisfied <==> forall c: nat :: c < |verified| ==> Enough(b, pds, c, q)
    ensures failures == [] <==> Failures(b, pds, q) == [] && thresholdSatisfied
  {
    hide Verified, Failures, Trustees;
    verified, failures := JudgeAll(b, pds, q);
    thresholdSatisfied := true;
    var c := 0;
    while c < |verified|
      invariant 0 <= c <= |verified|
      invariant thresholdSatisfied <==> forall k: nat :: k < c ==> Enough(b, pds, k, q)
      invariant failures == [] <==> Failures(b, pds, q) == [] && thresholdSatisfied
    {
      var distinct := Trustees(verified[c]);
      assert Enough(b, pds, c, q) <==> |distinct| >= b.params.threshold;
      if |distinct| < b.params.threshold {
        failures := failures + [BelowThreshold(c)];
        thresholdSatisfied := false;
      }
      c := c + 1;
    }
  }

  method JudgeAll(b: Board, pds: seq<PartialDecryption>, q: nat)
    returns (verified: seq<seq<VerifiedShare>>, failures: seq<Failure>)
    requires q > 0 && b.WellFormed()
    ensures |verified| == |b.params.contestIds|
    ensures forall c: nat :: c < |verified| ==> verified[c] == Verified(b, pds, c, q)
    ensures failures == Failures(b, pds, q)
  {
    hide CpAccepts, SharesKey, Route;
    verified := seq(|b.params.contestIds|, _ => []);
    failures := [];
    var seen: set<Slot> := {};
    var idx := 0;
    while idx < |pds|
      invariant 0 <= idx <= |pds|
      invariant |verified| == |b.params.contestIds|
      invariant forall c: nat :: c < |verified| ==> verified[c] == Verified(b, pds[..idx], c, q)
      invariant failures == Failures(b, pds[..idx], q)
      invariant seen == Seen(b, pds[..idx])
    {
      var pd := pds[idx];
      assert pds[..idx + 1][..idx] == pds[..idx];
      ghost var outcome := LastOutcome(b, pds[..idx + 1], q);
      var route := Route(b, pd);
      if route.None? {
        failures := failures + [Shape(idx)];
        assert outcome == Rejected(Shape(idx));
      } else {
        var slot := route.value;
        if slot in seen {
          failures := failures + [Duplicate(idx)];
          assert outcome == Rejected(Duplicate(idx));
        } else {
          if pd.share.None? {
            failures := failures + [ShareDecode(idx)];
            assert outcome == Rejected(ShareDecode(idx));
          } else if pd.proof.None? {
            failures := failures + [CpDecode(idx)];
            assert outcome == Rejected(CpDecode(idx));
          } else if CpAccepts(pd.proof.value, pd.share.value, b.pads[slot.contest], b.publics[slot.trustee],
                              Context(b.binding, pd.trusteeId, b.params.contestIds[slot.contest]), q) {
            verified := verified[slot.contest := verified[slot.contest] + [VerifiedShare(slot.trustee, pd.share.value)]];
            assert outcome == Accepted(slot, pd.share.value);
          } else {
            failures := failures + [CpRejected(idx)];
            assert outcome == Rejected(CpRejected(idx));
          }
        }
        seen := seen + {slot};
      }
      idx := idx + 1;
    }
    assert pds[..|pds|] == pds;
  }

  // ----- what a verified share is ------------------------------------------

  /** Every verified share is its trustee's key applied to the contest's pad,
      and no trustee appears twice in a contest. */
  ghost predicate GoodShares(b: Board, c: nat, shares: seq<VerifiedShare>, q: nat)
    requires q > 0 && b.WellFormed() && c < |b.pads|
  {
    && (forall k :: 0 <= k < |shares| ==>
          shares[k].trusteeIndex < |b.publics|
          && SharesKey(shares[k].share, b.pads[c], b.publics[shares[k].trusteeIndex], q))
    && forall j, k :: 0 <= j < k < |shares| ==> shares[j].trusteeIndex != shares[k].trusteeIndex
  }

  lemma {:induction false} VerifiedSharesAreGood(b: Board, pds: seq<PartialDecryption>, c: nat, q: nat)
    requires q > 0 && b.WellFormed() && c < |b.pads|
    ensures GoodShares(b, c, Verified(b, pds, c, q), q)
    ensures forall s :: s in Verified(b, pds, c, q) ==> Slot(c, s.trusteeIndex) in Seen(b, pds)
  {
    hide SharesKey, Position;
    if pds != [] {
      VerifiedSharesAreGood(b, pds[..|pds| - 1], c, q);
    }
  }

  lemma {:induction false} TrusteesCount(shares: seq<VerifiedShare>)
    requires forall j, k :: 0 <= j < k < |shares| ==> shares[j].trusteeIndex != shares[k].trusteeIndex
    ensures |Trustees(shares)| == |shares|
  {
    if shares != [] {
      var n := |shares| - 1;
      TrusteesCount(shares[..n]);
      assert Trustees(shares) == Trustees(shares[..n]) + {shares[n].trusteeIndex};
    }
  }

  /** So the threshold count makes the slice of the first t shares in bounds. */
  lemma EnoughMeansSlice(b: Board, pds: seq<PartialDecryption>, c: nat, q: nat)
    requires q > 0 && b.WellFormed() && c < |b.pads|
    ensures Enough(b, pds, c, q) <==> |Verified(b, pds, c, q)| >= b.params.threshold
  {
    VerifiedSharesAreGood(b, pds, c, q);
    TrusteesCount(Verified(b, pds, c, q));
  }

  // ----- a failure-free list, independently of its order -------------------

  /** Partial decryption pd passes every check that does not depend on others. */
  ghost predicate Sound(b: Board, pd: PartialDecryption, q: nat)
    requires q > 0 && b.WellFormed()
  {
    Judge(b, pd, 0, {}, q).Accepted?
  }

  ghost predicate Clean(b: Board, pds: seq<PartialDecryption>, q: nat)
    requires q > 0 && b.WellFormed()
  {
    && (forall i :: 0 <= i < |pds| ==> Sound(b, pds[i], q))
    && forall i, j :: 0 <= i < j < |pds| ==> Route(b, pds[i]) != Route(b, pds[j])
  }

  lemma {:induction false} SeenMeaning(b: Board, pds: seq<PartialDecryption>)
    ensures forall slot :: slot in Seen(b, pds) <==> exists i :: 0 <= i < |pds| && Route(b, pds[i]) == Some(slot)
  {
    if pds != [] {
      var n := |pds| - 1;
      SeenMeaning(b, pds[..n]);
      forall slot | slot in Seen(b, pds)
        ensures exists i :: 0 <= i < |pds| && Route(b, pds[i]) == Some(slot)
      {
        if Route(b, pds[n]) != Some(slot) {
          var i :| 0 <= i < n && Route(b, pds[..n][i]) == Some(slot);
          assert Route(b, pds[i]) == Some(slot);
        }
      }
      forall slot | exists i :: 0 <= i < |pds| && Route(b, pds[i]) == Some(slot)
        ensures slot in Seen(b, pds)
      {
        var i :| 0 <= i < |pds| && Route(b, pds[i]) == Some(slot);
        if i < n {
          assert Route(b, pds[..n][i]) == Some(slot);
        }
      }
    }
  }

  lemma CleanSnoc(b: Board, pds: seq<PartialDecryption>, q: nat)
    requires q > 0 && b.WellFormed() && pds != []
    ensures var n := |pds| - 1;
            Clean(b, pds, q) <==> Clean(b, pds[..n], q) && Sound(b, pds[n], q)
                                  && forall i :: 0 <= i < n ==> Route(b, pds[i]) != Route(b, pds[n])
  {
    hide Sound, Route;
    var n := |pds| - 1;
    assert forall i :: 0 <= i < n ==> pds[..n][i] == pds[i];
  }

  /** The last entry is accepted when it is sound and its slot is free. */
  lemma LastAccepted(b: Board, pds: seq<PartialDecryption>, q: nat)
    requires q > 0 && b.WellFormed() && pds != []
    ensures var n := |pds| - 1;
            LastOutcome(b, pds, q).Accepted? <==> Sound(b, pds[n], q) && Route(b, pds[n]).Some?
                                                  && Route(b, pds[n]).value !in Seen(b, pds[..n])
  {
    hide CpAccepts, Route, Seen;
  }

  /** No failure is reported exactly for the lists every entry of which is sound
      and claims its own slot. */
  lemma {:induction false} NoFailuresIffClean(b: Board, pds: seq<PartialDecryption>, q: nat)
    requires q > 0 && b.WellFormed()
    ensures Failures(b, pds, q) == [] <==> Clean(b, pds, q)
  {
    if pds != [] {
      var n := |pds| - 1;
      var front := pds[..n];
      assert Failures(b, pds, q) == [] <==> Failures(b, front, q) == [] && LastOutcome(b, pds, q).Accepted?;
      hide *;
      NoFailuresIffClean(b, front, q);
      SeenMeaning(b, front);
      CleanSnoc(b, pds, q);
      LastAccepted(b, pds, q);
      assert forall i :: 0 <= i < n ==> front[i] == pds[i];
    }
  }

  ghost predicate Submitted(b: Board, pds: seq<PartialDecryption>, c: nat, t: nat) {
    exists i :: 0 <= i < |pds| && Route(b, pds[i]) == Some(Slot(c, t))
  }

  lemma SubmittedSnoc(b: Board, pds: seq<PartialDecryption>, c: nat, t: nat)
    requires pds != []
    ensures var n := |pds| - 1;
            Submitted(b, pds, c, t) <==> Submitted(b, pds[..n], c, t) || Route(b, pds[n]) == Some(Slot(c, t))
  {
    hide Route;
    var n := |pds| - 1;
    var front := pds[..n];
    if Submitted(b, front, c, t) {
      var i :| 0 <= i < n && Route(b, front[i]) == Some(Slot(c, t));
      assert Route(b, pds[i]) == Some(Slot(c, t));
    }
    if Submitted(b, pds, c, t) && Route(b, pds[n]) != Some(Slot(c, t)) {
      var i :| 0 <= i < |pds| && Route(b, pds[i]) == Some(Slot(c, t));
      assert Route(b, front[i]) == Some(Slot(c, t));
    }
  }

  lemma VerifiedSnoc(b: Board, pds: seq<PartialDecryption>, c: nat, t: nat, q: nat)
    requires q > 0 && b.WellFormed() && pds != [] && LastOutcome(b, pds, q).Accepted?
    ensures var n := |pds| - 1;
            t in Trustees(Verified(b, pds, c, q))
            <==> t in Trustees(Verified(b, pds[..n], c, q)) || Route(b, pds[n]) == Some(Slot(c, t))
  {
    hide CpAccepts, Route, Seen, Trustees;
    TrusteesSnoc(Verified(b, pds[..|pds| - 1], c, q), Verified(b, pds, c, q), t);
  }

  /** On a clean list, contest c's verified trustees are those who submitted for c. */
  lemma {:induction false} CleanTrustees(b: Board, pds: seq<PartialDecryption>, c: nat, q: nat)
    requires q > 0 && b.WellFormed() && Failures(b, pds, q) == []
    ensures forall t: nat :: t in Trustees(Verified(b, pds, c, q)) <==> Submitted(b, pds, c, t)
  {
    if pds != [] {
      var n := |pds| - 1;
      assert Failures(b, pds[..n], q) == [] && LastOutcome(b, pds, q).Accepted?;
      hide *;
      CleanTrustees(b, pds[..n], c, q);
      forall t: nat ensures t in Trustees(Verified(b, pds, c, q)) <==> Submitted(b, pds, c, t) {
        VerifiedSnoc(b, pds, c, t, q);
        SubmittedSnoc(b, pds, c, t);
      }
    }
  }

  lemma TrusteesSnoc(before: seq<VerifiedShare>, after: seq<VerifiedShare>, t: nat)
    requires after == before || exists s :: after == before + [s]
    ensures t in Trustees(after) <==>
              t in Trustees(before) || (|after| > |before| && after[|before|].trusteeIndex == t)
  {
    if t in Trustees(before) {
      var k :| 0 <= k < |before| && before[k].trusteeIndex == t;
      assert after[k].trusteeIndex == t;
    }
    if t in Trustees(after) {
      var k :| 0 <= k < |after| && after[k].trusteeIndex == t;
      if k < |before| {
        assert before[k].trusteeIndex == t;
      }
    }
  }

  /** Cleanliness and the submitters of a contest do not depend on the order. */
  lemma CleanPermuted(b: Board, pds: seq<PartialDecryption>, pds': seq<PartialDecryption>, q: nat)
    requires q > 0 && b.WellFormed() && multiset(pds) == multiset(pds')
    requires Clean(b, pds, q)
    ensures Clean(b, pds', q)
    ensures forall c, t :: Submitted(b, pds, c, t) <==> Submitted(b, pds', c, t)
  {
    SameMembers(pds, pds');
    forall i | 0 <= i < |pds'| ensures Sound(b, pds'[i], q) {
      assert pds'[i] in pds;
      var k :| 0 <= k < |pds| && pds[k] == pds'[i];
    }
    forall i, j | 0 <= i < j < |pds'| ensures Route(b, pds'[i]) != Route(b, pds'[j]) {
      if Route(b, pds'[i]) == Route(b, pds'[j]) {
        SameRouteSameEntry(b, pds, pds'[i], pds'[j], q);
        TwiceInMultiset(pds', i, j);
        NoRepeat(b, pds, pds'[i], q);
      }
    }
    forall c, t ensures Submitted(b, pds, c, t) <==> Submitted(b, pds', c, t) {
      SubmittedVia(b, pds, pds', c, t);
      SubmittedVia(b, pds', pds, c, t);
    }
  }

  lemma SameMembers<T>(s: seq<T>, s': seq<T>)
    requires multiset(s) == multiset(s')
    ensures forall x :: x in s <==> x in s'
  {
    forall x ensures x in s <==> x in s' {
      assert x in s <==> x in multiset(s);
      assert x in s' <==> x in multiset(s');
    }
  }

  lemma SubmittedVia(b: Board, pds: seq<PartialDecryption>, pds': seq<PartialDecryption>, c: nat, t: nat)
    requires forall x :: x in pds ==> x in pds'
    ensures Submitted(b, pds, c, t) ==> Submitted(b, pds', c, t)
  {
    if Submitted(b, pds, c, t) {
      var i :| 0 <= i < |pds| && Route(b, pds[i]) == Some(Slot(c, t));
      assert pds[i] in pds';
      var k :| 0 <= k < |pds'| && pds'[k] == pds[i];
      assert Route(b, pds'[k]) == Some(Slot(c, t));
    }
  }

  lemma SameRouteSameEntry(b: Board, pds: seq<PartialDecryption>, x: PartialDecryption, y: PartialDecryption, q: nat)
    requires q > 0 && b.WellFormed() && Clean(b, pds, q)
    requires x in pds && y in pds && Route(b, x) == Route(b, y)
    ensures x == y
  {
    var i :| 0 <= i < |pds| && pds[i] == x;
    var j :| 0 <= j < |pds| && pds[j] == y;
    assert i == j;
  }

  lemma TwiceInMultiset<T>(s: seq<T>, i: nat, j: nat)
    requires i < j < |s| && s[i] == s[j]
    ensures multiset(s)[s[i]] >= 2
  {
    assert s == s[..j] + [s[j]] + s[j + 1..];
    assert s[..j][i] == s[i];
  }

  lemma {:induction false} NoRepeat(b: Board, pds: seq<PartialDecryption>, x: PartialDecryption, q: nat)
    requires q > 0 && b.WellFormed() && Clean(b, pds, q)
    ensures multiset(pds)[x] <= 1
  {
    if pds != [] {
      var n := |pds| - 1;
      var front := pds[..n];
      assert pds == front + [pds[n]];
      forall i | 0 <= i < n ensures Sound(b, front[i], q) {
        assert front[i] == pds[i];
      }
      NoRepeat(b, front, x, q);
      assert pds[n] == x ==> x !in front;
    }
  }
}
