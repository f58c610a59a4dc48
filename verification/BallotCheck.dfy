/** Eligibility of one ballot record and the aggregate of a stream of them. */
module BallotCheck {
  import opened Wrappers
  import opened ModArith
  import opened Group
  import opened ElGamal
  import opened Labels
  import opened Counting
  import Decryption

  const WIRE_VERSION: nat := 1

  datatype Election = Election(id: string, contestIds: seq<string>, issuerKey: string, key: Point, binding: string)

  /** None: wrong length, or not a point. */
  datatype WireCiphertext = WireCiphertext(pad: Option<Point>, data: Option<Point>)

  /** What a one-of-{0,1} proof is bound to. */
  datatype SlotContext = SlotContext(electionId: string, contestId: string, nullifier: string)

  datatype SelectionContext = SelectionContext(electionId: string, positionId: string, nullifier: string)

  datatype PresentationContext = PresentationContext(issuerKey: string, electionId: string, positionId: string, binding: string)

  /** `valid` is what the credential was presented for, when it was honestly. */
  datatype Presentation = Presentation(issuerKey: string, nullifier: string, valid: Option<PresentationContext>)

  datatype Ballot = Ballot(
    version: nat, positionId: string, ciphertexts: seq<WireCiphertext>, proofs: seq<Option<SlotContext>>,
    selection: Option<Option<SelectionContext>>, presentation: Option<Presentation>)

  datatype Finding = Shape | CdsProof(contest: nat) | SelectionSum | IssuerBinding | Credential

  datatype Decoded = Decoded(contest: nat, ct: Ciphertext)

  function Nullifier(b: Ballot): string {
    if b.presentation.None? then "" else b.presentation.value.nullifier
  }

  /** What ct decrypts to under the key's discrete logarithm. */
  function Plaintext(ct: Ciphertext, key: Point, q: nat): (m: nat)
    requires q > 0
  {
    (ct.data.log - key.log * ct.pad.log) % q
  }

  lemma PlaintextEncrypts(ct: Ciphertext, key: Point, q: nat)
    requires q > 0 && Element(ct.pad, q) && Element(ct.data, q)
    ensures Encrypts(ct, Plaintext(ct, key, q), key.log, q)
  {
    var v := ct.data.log - key.log * ct.pad.log;
    ModCong(v, q);
    CongSym(v % q, v, q);
    assert ct.data.log - (v % q + key.log * ct.pad.log) == v - v % q;
  }

  // ----- the ideal relations -----------------------------------------------

  /** The one-of-{0,1} proof accepts exactly a 0 or a 1, for its own context. */
  predicate CdsAccepts(proof: SlotContext, ct: Ciphertext, key: Point, context: SlotContext, q: nat)
    requires q > 0
  {
    proof == context && Plaintext(ct, key, q) <= 1
  }

  function SumPads(cts: seq<Ciphertext>, q: nat): Point
    requires q > 0
  {
    if cts == [] then Identity else Add(SumPads(cts[..|cts| - 1], q), cts[|cts| - 1].pad, q)
  }

  function SumData(cts: seq<Ciphertext>, q: nat): Point
    requires q > 0
  {
    if cts == [] then Identity else Add(SumData(cts[..|cts| - 1], q), cts[|cts| - 1].data, q)
  }

  /** The selection proof is a Chaum-Pedersen proof that the summed data minus G
      is to the key what the summed pad is to G. */
  predicate SelectionAccepts(proof: SelectionContext, cts: seq<Ciphertext>, key: Point, context: SelectionContext, q: nat)
    requires q > 0
  {
    proof == context && Decryption.SharesKey(Sub(SumData(cts, q), Base(q), q), SumPads(cts, q), key, q)
  }

  predicate PresentationAccepts(p: Presentation, e: Election, positionId: string) {
    p.issuerKey == e.issuerKey && p.valid == Some(PresentationContext(e.issuerKey, e.id, positionId, e.binding))
  }

  // ----- eligibility, stated once ------------------------------------------

  predicate ShapeOk(b: Ballot, e: Election, bound: bool) {
    var idxs := PositionIndices(e.contestIds, b.positionId);
    && b.version == WIRE_VERSION
    && !(b.positionId == "" && bound && exists c :: c in e.contestIds && '/' in c)
    && idxs != [] && |b.ciphertexts| == |idxs| && |b.proofs| == |idxs|
  }

  predicate SlotDecodes(b: Ballot, j: nat)
    requires j < |b.ciphertexts|
  {
    b.ciphertexts[j].pad.Some? && b.ciphertexts[j].data.Some?
  }

  predicate AllDecode(b: Ballot, n: nat)
    requires n <= |b.ciphertexts|
  {
    forall j: nat :: j < n ==> SlotDecodes(b, j)
  }

  function SlotCiphertext(b: Ballot, j: nat): Ciphertext
    requires j < |b.ciphertexts| && SlotDecodes(b, j)
  {
    Ciphertext(b.ciphertexts[j].pad.value, b.ciphertexts[j].data.value)
  }

  predicate SlotOk(b: Ballot, e: Election, bound: bool, j: nat, q: nat)
    requires q > 0 && ShapeOk(b, e, bound) && j < |b.ciphertexts|
  {
    var contest := PositionIndices(e.contestIds, b.positionId)[j];
    assert contest in PositionIndices(e.contestIds, b.positionId);
    && SlotDecodes(b, j) && b.proofs[j].Some?
    && CdsAccepts(b.proofs[j].value, SlotCiphertext(b, j), e.key,
                  SlotContext(e.id, e.contestIds[contest], Nullifier(b)), q)
  }

  predicate SlotsOk(b: Ballot, e: Election, bound: bool, n: nat, q: nat): (ok: bool)
    requires q > 0 && ShapeOk(b, e, bound) && n <= |b.ciphertexts|
    ensures ok ==> AllDecode(b, n)
  {
    assert forall j: nat :: j < n && SlotOk(b, e, bound, j, q) ==> SlotDecodes(b, j);
    forall j: nat :: j < n ==> SlotOk(b, e, bound, j, q)
  }

  function Ciphertexts(b: Ballot, n: nat): (cts: seq<Ciphertext>)
    requires n <= |b.ciphertexts| && AllDecode(b, n)
    ensures |cts| == n && forall j: nat :: j < n ==> cts[j] == SlotCiphertext(b, j)
  {
    if n == 0 then [] else Ciphertexts(b, n - 1) + [SlotCiphertext(b, n - 1)]
  }

  /** A ballot is counted when its shape, every slot proof, the selection proof
      (of an issuer-bound election) and the credential all pass. */
  predicate Eligible(b: Ballot, e: Election, bound: bool, q: nat)
    requires q > 0
  {
    && ShapeOk(b, e, bound)
    && SlotsOk(b, e, bound, |b.ciphertexts|, q)
    && (bound ==>
          && b.selection.Some? && b.selection.value.Some?
          && SelectionAccepts(b.selection.value.value, Ciphertexts(b, |b.ciphertexts|), e.key,
                              SelectionContext(e.id, b.positionId, Nullifier(b)), q))
    && b.presentation.Some? && PresentationAccepts(b.presentation.value, e, b.positionId)
  }

  // ----- the verifier's loop -----------------------------------------------

  method VerifyBallot(b: Ballot, e: Election, bound: bool, q: nat) returns (r: Option<seq<Decoded>>, findings: seq<Finding>)
    requires q > 0
    ensures r.Some? <==> Eligible(b, e, bound, q)
    ensures r.Some? <==> findings == []
    ensures r.Some? ==> DecodedSlots(b, e, r.value)
  {
    findings := [];
    var idxs := ContestIndicesForPosition(e.contestIds, b.positionId);
    if b.version != WIRE_VERSION {
      return None, [Shape];
    }
    if b.positionId == "" && bound && exists c :: c in e.contestIds && '/' in c {
      return None, [Shape];
    }
    if idxs == [] {
      return None, [Shape];
    }
    if |b.ciphertexts| != |idxs| || |b.proofs| != |idxs| {
      return None, [Shape];
    }
    var slots, slotFindings := VerifySlots(b, e, bound, q);
    findings := slotFindings;
    var selectionOk := true;
    if slots.Some? && bound {
      selectionOk := b.selection.Some? && b.selection.value.Some?
        && SelectionAccepts(b.selection.value.value, Ciphertexts(b, |b.ciphertexts|), e.key,
                            SelectionContext(e.id, b.positionId, Nullifier(b)), q);
      if !selectionOk {
        findings := findings + [SelectionSum];
      }
    }
    if b.presentation.None? {
      return None, findings + [Credential];
    }
    var p := b.presentation.value;
    var issuerOk := p.issuerKey == e.issuerKey;
    if !issuerOk {
      findings := findings + [IssuerBinding];
    }
    var credentialOk := PresentationAccepts(p, e, b.positionId);
    if !credentialOk {
      findings := findings + [Credential];
    }
    r := if slots.Some? && selectionOk && credentialOk && issuerOk then slots else None;
  }

  /** Slot j of the record, under its global contest index. */
  ghost predicate DecodedSlots(b: Ballot, e: Election, slots: seq<Decoded>) {
    var idxs := PositionIndices(e.contestIds, b.positionId);
    && |slots| == |b.ciphertexts| == |idxs| && AllDecode(b, |b.ciphertexts|)
    && forall j: nat :: j < |slots| ==> slots[j] == Decoded(idxs[j], SlotCiphertext(b, j))
  }

  method VerifySlots(b: Ballot, e: Election, bound: bool, q: nat) returns (r: Option<seq<Decoded>>, findings: seq<Finding>)
    requires q > 0 && ShapeOk(b, e, bound)
    ensures r.Some? <==> SlotsOk(b, e, bound, |b.ciphertexts|, q)
    ensures r.Some? <==> findings == []
    ensures r.Some? ==> DecodedSlots(b, e, r.value)
  {
    var idxs := ContestIndicesForPosition(e.contestIds, b.positionId);
    findings := [];
    var slots := [];
    var ok := true;
    var j := 0;
    while j < |idxs|
      invariant 0 <= j <= |idxs|
      invariant ok <==> SlotsOk(b, e, bound, j, q)
      invariant ok <==> findings == []
      invariant ok ==> |slots| == j && AllDecode(b, j)
      invariant ok ==> forall k: nat :: k < j ==> slots[k] == Decoded(idxs[k], SlotCiphertext(b, k))
    {
      var contest := idxs[j];
      assert contest in idxs;
      var wire := b.ciphertexts[j];
      assert SlotsOk(b, e, bound, j + 1, q) <==> SlotsOk(b, e, bound, j, q) && SlotOk(b, e, bound, j, q);
      if wire.pad.None? || wire.data.None? || b.proofs[j].None? {
        findings := findings + [CdsProof(contest)];
        ok := false;
      } else {
        var ct := Ciphertext(wire.pad.value, wire.data.value);
        if CdsAccepts(b.proofs[j].value, ct, e.key, SlotContext(e.id, e.contestIds[contest], Nullifier(b)), q) {
          slots := slots + [Decoded(contest, ct)];
        } else {
          findings := findings + [CdsProof(contest)];
          ok := false;
        }
      }
      j := j + 1;
    }
    r := if ok then Some(slots) else None;
  }

  // ----- what the selection proof means ------------------------------------

  function Plaintexts(cts: seq<Ciphertext>, key: Point, q: nat): (ms: seq<nat>)
    requires q > 0
    ensures |ms| == |cts| && forall j :: 0 <= j < |ms| ==> ms[j] == Plaintext(cts[j], key, q)
  {
    seq(|cts|, j requires 0 <= j < |cts| => Plaintext(cts[j], key, q))
  }

  ghost predicate Elements(cts: seq<Ciphertext>, q: nat) {
    forall j :: 0 <= j < |cts| ==> Element(cts[j].pad, q) && Element(cts[j].data, q)
  }

  lemma {:induction false} SumsEncryptSum(cts: seq<Ciphertext>, key: Point, q: nat)
    requires q > 0 && Elements(cts, q)
    ensures Encrypts(Ciphertext(SumPads(cts, q), SumData(cts, q)), Counting.Sum(Plaintexts(cts, key, q)), key.log, q)
  {
    if cts == [] {
      ZeroEncryptsZero(key.log, q);
    } else {
      var n := |cts| - 1;
      var front, last := cts[..n], cts[n];
      assert Elements(front, q);
      SumsEncryptSum(front, key, q);
      PlaintextEncrypts(last, key, q);
      SumEncrypts(Ciphertext(SumPads(front, q), SumData(front, q)), Counting.Sum(Plaintexts(front, key, q)),
                  last, Plaintext(last, key, q), key.log, q);
      assert Plaintexts(cts, key, q)[..n] == Plaintexts(front, key, q);
    }
  }

  /** The selection proof accepts exactly when the slots' plaintexts sum to 1 modulo q. */
  lemma SelectionMeansOne(cts: seq<Ciphertext>, key: Point, context: SelectionContext, q: nat)
    requires q > 0 && Elements(cts, q)
    ensures SelectionAccepts(context, cts, key, context, q) <==> Cong(Counting.Sum(Plaintexts(cts, key, q)), 1, q)
  {
    SumsEncryptSum(cts, key, q);
    var pad, data, m := SumPads(cts, q), SumData(cts, q), Counting.Sum(Plaintexts(cts, key, q));
    CongIntro(data.log, data.log, 0, q);
    RepresentsBase(q);
    RepresentsSub(data, data.log, Base(q), 1, q);
    OneLess(Sub(data, Base(q), q).log, data.log, m, key.log * pad.log, q);
  }

  lemma OneLess(less: int, data: int, m: int, mask: int, q: nat)
    requires q > 0 && Cong(less, data - 1, q) && Cong(data, m + mask, q)
    ensures Cong(less, mask, q) <==> Cong(m, 1, q)
  {
    CongIntro(1, 1, 0, q);
    hide Cong;
    CongCombine(1, data, m + mask, -1, 1, 1, q);
    CongTrans(less, data - 1, m + mask - 1, q);
    CongIntro(mask, mask, 0, q);
    if Cong(less, mask, q) {
      CongSym(less, m + mask - 1, q);
      CongTrans(m + mask - 1, less, mask, q);
      CongCombine(1, m + mask - 1, mask, -1, mask, mask, q);
      CongIntro(1, 1, 0, q);
      CongAdd(m - 1, 0, 1, 1, q);
    }
    if Cong(m, 1, q) {
      CongAdd(m, 1, mask - 1, mask - 1, q) by {
        CongIntro(mask - 1, mask - 1, 0, q);
      }
      CongTrans(less, m + mask - 1, mask, q);
    }
  }

  // ----- what one record adds ----------------------------------------------

  /** ms spread over the contests the position covers, 0 elsewhere. */
  function Spread(contests: seq<string>, position: string, ms: seq<nat>): (row: seq<nat>)
    requires |ms| == |PositionIndices(contests, position)|
    ensures |row| == |contests|
  {
    if contests == [] then []
    else
      var n := |contests| - 1;
      if InPosition(contests[n], position) then Spread(contests[..n], position, ms[..|ms| - 1]) + [ms[|ms| - 1]]
      else Spread(contests[..n], position, ms) + [0]
  }

  lemma {:induction false} SpreadOutside(contests: seq<string>, position: string, ms: seq<nat>, c: nat)
    requires |ms| == |PositionIndices(contests, position)| && c < |contests| && !InPosition(contests[c], position)
    ensures Spread(contests, position, ms)[c] == 0
  {
    var n := |contests| - 1;
    var inside := InPosition(contests[n], position);
    var front := if inside then ms[..|ms| - 1] else ms;
    assert Spread(contests, position, ms) == Spread(contests[..n], position, front) + [if inside then ms[|ms| - 1] else 0];
    hide Spread, PositionIndices, InPosition;
    if c < n {
      assert contests[..n][c] == contests[c];
      SpreadOutside(contests[..n], position, front, c);
    }
  }

  lemma {:induction false} SpreadInside(contests: seq<string>, position: string, ms: seq<nat>, j: nat)
    requires |ms| == |PositionIndices(contests, position)| && j < |ms|
    ensures var c := PositionIndices(contests, position)[j];
            c < |contests| && Spread(contests, position, ms)[c] == ms[j]
  {
    var n := |contests| - 1;
    var idxs, front := PositionIndices(contests, position), PositionIndices(contests[..n], position);
    assert idxs[j] in idxs;
    if !(InPosition(contests[n], position) && j == |ms| - 1) {
      assert front[j] in front && idxs[j] == front[j];
      SpreadInside(contests[..n], position, if InPosition(contests[n], position) then ms[..|ms| - 1] else ms, j);
    }
  }

  /** The plaintexts of an eligible record's slots. */
  function SlotPlaintexts(b: Ballot, e: Election, q: nat): (ms: seq<nat>)
    requires q > 0 && AllDecode(b, |b.ciphertexts|)
    ensures |ms| == |b.ciphertexts|
  {
    Plaintexts(Ciphertexts(b, |b.ciphertexts|), e.key, q)
  }

  /** What record b adds to each contest: nothing unless it is eligible. */
  function Added(b: Ballot, e: Election, bound: bool, q: nat): (row: seq<nat>)
    requires q > 0
    ensures |row| == |e.contestIds|
  {
    if Eligible(b, e, bound, q) then Spread(e.contestIds, b.positionId, SlotPlaintexts(b, e, q))
    else seq(|e.contestIds|, _ => 0)
  }

  /** The wire points of b lie in the group. */
  ghost predicate InGroup(b: Ballot, q: nat) {
    forall j :: 0 <= j < |b.ciphertexts| ==>
      && (b.ciphertexts[j].pad.Some? ==> Element(b.ciphertexts[j].pad.value, q))
      && (b.ciphertexts[j].data.Some? ==> Element(b.ciphertexts[j].data.value, q))
  }

  lemma {:induction false} BitsBound(ms: seq<nat>)
    requires forall j :: 0 <= j < |ms| ==> ms[j] <= 1
    ensures Counting.Sum(ms) <= |ms|
  {
    if ms != [] {
      BitsBound(ms[..|ms| - 1]);
    }
  }

  lemma {:induction false} SomeOne(ms: seq<nat>) returns (k: nat)
    requires (forall j :: 0 <= j < |ms| ==> ms[j] <= 1) && Counting.Sum(ms) == 1
    ensures k < |ms| && ms[k] == 1
  {
    var n := |ms| - 1;
    if ms[n] == 1 {
      return n;
    }
    k := SomeOne(ms[..n]);
  }

  /** An eligible record of an issuer-bound election holds exactly one 1. */
  lemma EligibleSelectsOne(b: Ballot, e: Election, q: nat)
    requires q > |e.contestIds| && q > 1 && InGroup(b, q) && Eligible(b, e, true, q)
    ensures var ms := SlotPlaintexts(b, e, q); Counting.Sum(ms) == 1 && forall j :: 0 <= j < |ms| ==> ms[j] <= 1
  {
    var n := |b.ciphertexts|;
    var cts := Ciphertexts(b, n);
    var ms := SlotPlaintexts(b, e, q);
    forall j: nat | j < n ensures ms[j] <= 1 && Element(cts[j].pad, q) && Element(cts[j].data, q) {
      assert SlotOk(b, e, true, j, q);
    }
    assert Elements(cts, q);
    SelectionMeansOne(cts, e.key, SelectionContext(e.id, b.positionId, Nullifier(b)), q);
    BitsBound(ms);
    IndicesFit(e.contestIds, b.positionId);
    CongUnique(Counting.Sum(ms), 1, q);
  }

  lemma {:induction false} IndicesFit(contests: seq<string>, position: string)
    ensures |PositionIndices(contests, position)| <= |contests|
  {
    if contests != [] {
      IndicesFit(contests[..|contests| - 1], position);
    }
  }

  // ----- the stream --------------------------------------------------------

  /** Plaintext total of contest c over a stream of records. */
  function Total(bs: seq<Ballot>, e: Election, bound: bool, c: nat, q: nat): nat
    requires q > 0 && c < |e.contestIds|
  {
    if bs == [] then 0
    else Total(bs[..|bs| - 1], e, bound, c, q) + Added(bs[|bs| - 1], e, bound, q)[c]
  }

  /** Eligible records of the stream that vote in `position`. */
  function Voters(bs: seq<Ballot>, e: Election, bound: bool, position: string, q: nat): nat
    requires q > 0
  {
    if bs == [] then 0
    else
      var b := bs[|bs| - 1];
      Voters(bs[..|bs| - 1], e, bound, position, q) + if Eligible(b, e, bound, q) && b.positionId == position then 1 else 0
  }

  datatype Sums = Sums(records: nat, verified: nat, aggregate: seq<Ciphertext>)

  method VerifiedSums(bs: seq<Ballot>, e: Election, bound: bool, q: nat) returns (s: Sums)
    requires q > 0 && forall i :: 0 <= i < |bs| ==> InGroup(bs[i], q)
    ensures s.records == |bs| && s.verified <= |bs|
    ensures |s.aggregate| == |e.contestIds|
    ensures forall c: nat :: c < |s.aggregate| ==> Encrypts(s.aggregate[c], Total(bs, e, bound, c, q), e.key.log, q)
  {
    hide Encrypts, Added, Eligible, InGroup, Total;
    var aggregate := seq(|e.contestIds|, _ => Zero);
    ZeroEncryptsZero(e.key.log, q);
    NothingTotalled(e, bound, q);
    var records, verified := 0, 0;
    while records < |bs|
      invariant 0 <= records <= |bs| && verified <= records && |aggregate| == |e.contestIds|
      invariant forall c: nat :: c < |aggregate| ==>
                  Encrypts(aggregate[c], Total(bs[..records], e, bound, c, q), e.key.log, q)
    {
      var b := bs[records];
      TotalSnoc(bs, e, bound, records, q);
      var slots, _ := VerifyBallot(b, e, bound, q);
      ghost var before := aggregate;
      if slots.Some? {
        verified := verified + 1;
        aggregate := FoldSlots(b, e, bound, slots.value, aggregate, q);
      } else {
        NothingAdded(b, e, bound, aggregate, q);
      }
      forall c: nat | c < |aggregate|
        ensures Encrypts(aggregate[c], Total(bs[..records + 1], e, bound, c, q), e.key.log, q)
      {
        GrowTotal(before[c], aggregate[c], Total(bs[..records], e, bound, c, q), Added(b, e, bound, q)[c], e.key.log, q);
      }
      records := records + 1;
    }
    assert bs[..records] == bs;
    s := Sums(records, verified, aggregate);
  }

  lemma NothingTotalled(e: Election, bound: bool, q: nat)
    requires q > 0
    ensures forall c: nat :: c < |e.contestIds| ==> Total([], e, bound, c, q) == 0
  {
  }

  lemma TotalSnoc(bs: seq<Ballot>, e: Election, bound: bool, k: nat, q: nat)
    requires q > 0 && k < |bs|
    ensures forall c: nat :: c < |e.contestIds| ==>
              Total(bs[..k + 1], e, bound, c, q) == Total(bs[..k], e, bound, c, q) + Added(bs[k], e, bound, q)[c]
  {
    assert bs[..k + 1][..k] == bs[..k];
    hide Added;
  }

  /** after is before with a plaintext of m more. */
  ghost predicate Grew(before: Ciphertext, after: Ciphertext, m: nat, secret: int, q: nat)
    requires q > 0
  {
    forall t: nat :: Encrypts(before, t, secret, q) ==> Encrypts(after, t + m, secret, q)
  }

  lemma GrowTotal(before: Ciphertext, after: Ciphertext, t: nat, m: nat, secret: int, q: nat)
    requires q > 0 && Grew(before, after, m, secret, q) && Encrypts(before, t, secret, q)
    ensures Encrypts(after, t + m, secret, q)
  {
  }

  lemma NothingAdded(b: Ballot, e: Election, bound: bool, aggregate: seq<Ciphertext>, q: nat)
    requires q > 0 && !Eligible(b, e, bound, q) && |aggregate| == |e.contestIds|
    ensures forall c: nat :: c < |aggregate| ==> Grew(aggregate[c], aggregate[c], Added(b, e, bound, q)[c], e.key.log, q)
  {
    hide Eligible, Encrypts;
  }

  /** Folds an eligible record's decoded points into the running sums. */
  method FoldSlots(b: Ballot, e: Election, bound: bool, slots: seq<Decoded>, before: seq<Ciphertext>, q: nat)
    returns (after: seq<Ciphertext>)
    requires q > 0 && InGroup(b, q) && Eligible(b, e, bound, q) && DecodedSlots(b, e, slots) && |before| == |e.contestIds|
    ensures |after| == |before|
    ensures forall c: nat :: c < |after| ==> Grew(before[c], after[c], Added(b, e, bound, q)[c], e.key.log, q)
  {
    ghost var idxs := PositionIndices(e.contestIds, b.positionId);
    SlotsInGroup(b, slots, e, q);
    assert forall j: nat :: j < |slots| ==> slots[j].contest == idxs[j];
    assert forall j: nat :: j < |slots| ==> idxs[j] in idxs;
    after := FoldInto(slots, idxs, before, q);
    ghost var row := Added(b, e, bound, q);
    RowOf(b, e, bound, slots, q);
    hide Eligible, InGroup, Encrypts, Added, Spread, Grew, Element, Plaintext, SlotPlaintexts, DecodedSlots, ElGamal.Sum;
    forall c: nat | c < |after| ensures Grew(before[c], after[c], row[c], e.key.log, q) {
      if c in idxs {
        var k: nat :| k < |idxs| && idxs[k] == c;
        SumGrows(before[c], slots[k].ct, e.key, q);
      } else {
        NoGrowth(before[c], e.key.log, q);
      }
    }
  }

  /** The plaintext of slot k is what the record adds to that slot's contest. */
  lemma RowOf(b: Ballot, e: Election, bound: bool, slots: seq<Decoded>, q: nat)
    requires q > 0 && InGroup(b, q) && Eligible(b, e, bound, q) && DecodedSlots(b, e, slots)
    ensures var idxs := PositionIndices(e.contestIds, b.positionId);
            var row := Added(b, e, bound, q);
            && (forall k: nat :: k < |slots| ==> slots[k].contest < |row| && row[slots[k].contest] == Plaintext(slots[k].ct, e.key, q))
            && forall c: nat :: c < |row| && c !in idxs ==> row[c] == 0
  {
    var idxs := PositionIndices(e.contestIds, b.positionId);
    SlotsInGroup(b, slots, e, q);
    hide Plaintext, InGroup, Element, SlotPlaintexts, Spread;
    forall k: nat | k < |slots|
      ensures slots[k].contest < |e.contestIds| && Added(b, e, bound, q)[slots[k].contest] == Plaintext(slots[k].ct, e.key, q)
    {
      SpreadInside(e.contestIds, b.positionId, SlotPlaintexts(b, e, q), k);
    }
    forall c: nat | c < |e.contestIds| && c !in idxs ensures Added(b, e, bound, q)[c] == 0 {
      SpreadOutside(e.contestIds, b.positionId, SlotPlaintexts(b, e, q), c);
    }
  }

  method FoldInto(slots: seq<Decoded>, ghost idxs: seq<nat>, before: seq<Ciphertext>, q: nat) returns (after: seq<Ciphertext>)
    requires q > 0 && |slots| == |idxs| && forall j: nat :: j < |slots| ==> slots[j].contest == idxs[j] < |before|
    requires forall j, k :: 0 <= j < k < |idxs| ==> idxs[j] < idxs[k]
    ensures |after| == |before|
    ensures forall k: nat :: k < |slots| ==> after[idxs[k]] == ElGamal.Sum(before[idxs[k]], slots[k].ct, q)
    ensures forall c: nat :: c < |before| && c !in idxs ==> after[c] == before[c]
  {
    hide ElGamal.Sum;
    after := before;
    var j := 0;
    while j < |slots|
      invariant 0 <= j <= |slots| && |after| == |before|
      invariant forall k: nat :: k < j ==> after[idxs[k]] == ElGamal.Sum(before[idxs[k]], slots[k].ct, q)
      invariant forall c: nat :: c < |before| && c !in idxs[..j] ==> after[c] == before[c]
    {
      assert idxs[j] !in idxs[..j];
      assert idxs[..j + 1] == idxs[..j] + [idxs[j]];
      var s := slots[j];
      after := after[s.contest := ElGamal.Sum(after[s.contest], s.ct, q)];
      j := j + 1;
    }
    assert idxs[..j] == idxs;
  }

  lemma SlotsInGroup(b: Ballot, slots: seq<Decoded>, e: Election, q: nat)
    requires q > 0 && InGroup(b, q) && DecodedSlots(b, e, slots)
    ensures forall k: nat :: k < |slots| ==>
              && Element(slots[k].ct.pad, q) && Element(slots[k].ct.data, q)
              && SlotPlaintexts(b, e, q)[k] == Plaintext(slots[k].ct, e.key, q)
  {
    forall k: nat | k < |slots|
      ensures Element(slots[k].ct.pad, q) && Element(slots[k].ct.data, q)
           && SlotPlaintexts(b, e, q)[k] == Plaintext(slots[k].ct, e.key, q)
    {
      assert SlotDecodes(b, k);
      assert slots[k].ct == SlotCiphertext(b, k) == Ciphertexts(b, |b.ciphertexts|)[k];
      assert b.ciphertexts[k].pad.Some?;
    }
  }

  lemma SumGrows(before: Ciphertext, ct: Ciphertext, key: Point, q: nat)
    requires q > 0 && Element(ct.pad, q) && Element(ct.data, q)
    ensures Grew(before, ElGamal.Sum(before, ct, q), Plaintext(ct, key, q), key.log, q)
  {
    PlaintextEncrypts(ct, key, q);
    forall t: nat | Encrypts(before, t, key.log, q)
      ensures Encrypts(ElGamal.Sum(before, ct, q), t + Plaintext(ct, key, q), key.log, q)
    {
      SumEncrypts(before, t, ct, Plaintext(ct, key, q), key.log, q);
    }
  }

  lemma NoGrowth(ct: Ciphertext, secret: int, q: nat)
    requires q > 0
    ensures Grew(ct, ct, 0, secret, q)
  {
  }

  lemma {:induction false} SpreadBits(contests: seq<string>, position: string, ms: seq<nat>, c: nat)
    requires |ms| == |PositionIndices(contests, position)| && c < |contests| && forall j :: 0 <= j < |ms| ==> ms[j] <= 1
    ensures Spread(contests, position, ms)[c] <= 1
  {
    var n := |contests| - 1;
    if c < n {
      SpreadBits(contests[..n], position, if InPosition(contests[n], position) then ms[..|ms| - 1] else ms, c);
    }
  }

  /** No contest totals more votes than there are records. */
  lemma {:induction false} TotalAtMostRecords(bs: seq<Ballot>, e: Election, bound: bool, c: nat, q: nat)
    requires q > 0 && c < |e.contestIds|
    ensures Total(bs, e, bound, c, q) <= |bs|
  {
    if bs != [] {
      var b := bs[|bs| - 1];
      TotalAtMostRecords(bs[..|bs| - 1], e, bound, c, q);
      if Eligible(b, e, bound, q) {
        var ms := SlotPlaintexts(b, e, q);
        forall j: nat | j < |ms| ensures ms[j] <= 1 {
          assert SlotOk(b, e, bound, j, q);
        }
        hide Eligible, SlotPlaintexts;
        SpreadBits(e.contestIds, b.positionId, ms, c);
      }
    }
  }

  function Totals(bs: seq<Ballot>, e: Election, bound: bool, q: nat): (row: seq<nat>)
    requires q > 0
    ensures |row| == |e.contestIds| && forall c :: 0 <= c < |row| ==> row[c] == Total(bs, e, bound, c, q)
  {
    seq(|e.contestIds|, c requires 0 <= c < |e.contestIds| => Total(bs, e, bound, c, q))
  }
}
