/** What a verifier rebuilds from a published key-generation transcript, and the
    trustees' signatures over a published tally. */
module Transcript {
  import opened Wrappers
  import opened ModArith
  import opened Group
  import opened Dkg
  import opened Decryption
  import opened Threshold

  /** A commitment is None when its bytes are not a point. */
  datatype DkgTranscript = DkgTranscript(version: nat, threshold: nat, commitments: seq<seq<Option<Point>>>)

  datatype DkgVerification = DkgVerification(jointPublicKey: Point, publics: seq<Point>)

  predicate AllPoints(row: seq<Option<Point>>) {
    forall k :: 0 <= k < |row| ==> row[k].Some?
  }

  function Points(row: seq<Option<Point>>): (points: seq<Point>)
    requires AllPoints(row)
    ensures |points| == |row| && forall k :: 0 <= k < |row| ==> points[k] == row[k].value
  {
    seq(|row|, k requires 0 <= k < |row| => row[k].value)
  }

  predicate WellShaped(t: DkgTranscript, p: Parameters) {
    && t.version == WIRE_VERSION && t.threshold == p.threshold && |t.commitments| == |p.trusteeIds|
    && forall d :: 0 <= d < |t.commitments| ==> |t.commitments[d]| == p.threshold
  }

  predicate Decodes(t: DkgTranscript) {
    forall d :: 0 <= d < |t.commitments| ==> AllPoints(t.commitments[d])
  }

  function Decode(t: DkgTranscript): (rows: seq<seq<Point>>)
    requires Decodes(t)
    ensures |rows| == |t.commitments| && forall d :: 0 <= d < |rows| ==> rows[d] == Points(t.commitments[d])
  {
    seq(|t.commitments|, d requires 0 <= d < |t.commitments| => Points(t.commitments[d]))
  }

  ghost predicate InGroup(t: DkgTranscript, q: nat) {
    forall d, k :: 0 <= d < |t.commitments| && 0 <= k < |t.commitments[d]| && t.commitments[d][k].Some? ==>
      Element(t.commitments[d][k].value, q)
  }

  /** The dealers' polynomials behind a decodable transcript. */
  function Dealers(t: DkgTranscript): seq<Polynomial>
    requires Decodes(t)
  {
    AllLogs(Decode(t))
  }

  /** Trustee i's key, from 0: the joint polynomial's value at i + 1, times G. */
  function TrusteeKeys(dealers: seq<Polynomial>, n: nat, q: nat): (keys: seq<Point>)
    requires q > 0
    ensures |keys| == n && forall i: nat :: i < n ==> keys[i] == Point(JointEval(dealers, i + 1) % q)
  {
    seq(n, i requires 0 <= i => Point(JointEval(dealers, i + 1) % q))
  }

  lemma TrusteeKeysAreKeys(dealers: seq<Polynomial>, n: nat, q: nat)
    requires q > 0
    ensures KeysOf(TrusteeKeys(dealers, n, q), dealers, q)
  {
    forall t: nat | t < n ensures Cong(TrusteeKeys(dealers, n, q)[t].log, JointEval(dealers, t + 1), q) {
      ModCong(JointEval(dealers, t + 1), q);
    }
  }

  /** A transcript that verifies fixes one secret polynomial: its value at 0 is
      behind the joint key, its value at i behind trustee i's key. */
  method VerifyDkgTranscript(p: Parameters, t: DkgTranscript, q: nat) returns (r: Option<DkgVerification>)
    requires q > 0 && p.threshold >= 1 && InGroup(t, q)
    ensures r.Some? <==> WellShaped(t, p) && Decodes(t)
    ensures r.Some? ==> Represents(r.value.jointPublicKey, JointEval(Dealers(t), 0), q)
                        && r.value.publics == TrusteeKeys(Dealers(t), |p.trusteeIds|, q)
                        && forall d :: d in Dealers(t) ==> |d| == p.threshold
  {
    if t.version != WIRE_VERSION || t.threshold != p.threshold || |t.commitments| != |p.trusteeIds| {
      return None;
    }
    var d := 0;
    while d < |t.commitments|
      invariant 0 <= d <= |t.commitments|
      invariant forall k :: 0 <= k < d ==> |t.commitments[k]| == p.threshold
    {
      if |t.commitments[d]| != p.threshold {
        return None;
      }
      d := d + 1;
    }
    if !Decodes(t) {
      return None;
    }
    var rows := Decode(t);
    assert forall c, x :: c in rows && x in c ==> Element(x, q);
    hide Represents;
    var joint := JointPublicKey(rows, q);
    var publics: seq<Point> := [];
    while |publics| < |p.trusteeIds|
      invariant |publics| <= |p.trusteeIds|
      invariant forall i: nat :: i < |publics| ==> publics[i] == Point(JointEval(AllLogs(rows), i + 1) % q)
      decreases |p.trusteeIds| - |publics|
    {
      var key := TrusteeVerificationKey(rows, |publics| + 1, q);
      OnlyPoint(key, JointEval(AllLogs(rows), |publics| + 1), q);
      publics := publics + [key];
    }
    r := Some(DkgVerification(joint, publics));
  }

  lemma OnlyPoint(p: Point, v: int, q: nat)
    requires q > 0 && Represents(p, v, q)
    ensures p == Point(v % q)
  {
    ModCong(v, q);
    CongSym(v % q, v, q);
    CongTrans(p.log, v, v % q, q);
    CongUnique(p.log, v % q, q);
  }

  // ----- signatures over the published totals ------------------------------

  /** A canonical Schnorr signature, known by the key and the message it was made
      for; None when the bytes are not one. */
  datatype SchnorrSignature = SchnorrSignature(key: Point, electionId: string, totals: seq<nat>)

  datatype TrusteeSignature = TrusteeSignature(trusteeId: string, signature: Option<SchnorrSignature>)

  /** signatures[i] is a known trustee's valid signature over these totals. */
  predicate Endorses(s: TrusteeSignature, p: Parameters, electionId: string, totals: seq<nat>, keys: seq<Point>)
    requires |keys| == |p.trusteeIds|
  {
    var at := Position(p.trusteeIds, s.trusteeId);
    at.Some? && s.signature == Some(SchnorrSignature(keys[at.value], electionId, totals))
  }

  /** Every signature endorses the totals, and no trustee signs twice. */
  predicate AllEndorse(signatures: seq<TrusteeSignature>, p: Parameters, electionId: string, totals: seq<nat>, keys: seq<Point>)
    requires |keys| == |p.trusteeIds|
  {
    && (forall i :: 0 <= i < |signatures| ==> Endorses(signatures[i], p, electionId, totals, keys))
    && forall i, j :: 0 <= i < j < |signatures| ==> signatures[i].trusteeId != signatures[j].trusteeId
  }

  predicate SignedTally(signatures: seq<TrusteeSignature>, p: Parameters, electionId: string, totals: seq<nat>, keys: seq<Point>)
    requires |keys| == |p.trusteeIds|
  {
    signatures != [] && |signatures| >= p.threshold && AllEndorse(signatures, p, electionId, totals, keys)
  }

  /** The known trustees among the first signatures. */
  function KnownSigners(signatures: seq<TrusteeSignature>, ids: seq<string>): set<string> {
    set i | 0 <= i < |signatures| && signatures[i].trusteeId in ids :: signatures[i].trusteeId
  }

  lemma AllEndorseSnoc(signatures: seq<TrusteeSignature>, k: nat, p: Parameters, electionId: string, totals: seq<nat>, keys: seq<Point>)
    requires |keys| == |p.trusteeIds| && k < |signatures|
    ensures AllEndorse(signatures[..k + 1], p, electionId, totals, keys)
       <==> AllEndorse(signatures[..k], p, electionId, totals, keys)
            && signatures[k].trusteeId !in KnownSigners(signatures[..k], p.trusteeIds)
            && Endorses(signatures[k], p, electionId, totals, keys)
    ensures KnownSigners(signatures[..k + 1], p.trusteeIds)
         == KnownSigners(signatures[..k], p.trusteeIds)
            + if signatures[k].trusteeId in p.trusteeIds then {signatures[k].trusteeId} else {}
  {
    hide Endorses, Position;
    var a, b := signatures[..k], signatures[..k + 1];
    assert forall i :: 0 <= i < k ==> a[i] == b[i];
    assert b[k] == signatures[k];
    forall id ensures id in KnownSigners(b, p.trusteeIds)
                 <==> id in KnownSigners(a, p.trusteeIds) || (id == b[k].trusteeId && id in p.trusteeIds)
    {
      if id in KnownSigners(a, p.trusteeIds) {
        var i :| 0 <= i < k && a[i].trusteeId == id;
        assert b[i].trusteeId == id;
      }
    }
    if AllEndorse(a, p, electionId, totals, keys) && Endorses(b[k], p, electionId, totals, keys) {
      EndorserKnown(b[k], p, electionId, totals, keys);
    }
    if AllEndorse(b, p, electionId, totals, keys) {
      assert AllEndorse(a, p, electionId, totals, keys);
    }
  }

  lemma EndorserKnown(s: TrusteeSignature, p: Parameters, electionId: string, totals: seq<nat>, keys: seq<Point>)
    requires |keys| == |p.trusteeIds| && Endorses(s, p, electionId, totals, keys)
    ensures s.trusteeId in p.trusteeIds
  {
  }

  method VerifyTallySignatures(signatures: seq<TrusteeSignature>, p: Parameters, electionId: string, totals: seq<nat>, keys: seq<Point>)
    returns (ok: bool)
    requires |keys| == |p.trusteeIds|
    ensures ok <==> SignedTally(signatures, p, electionId, totals, keys)
  {
    hide AllEndorse, KnownSigners;
    if signatures == [] {
      return false;
    }
    var seen: set<string> := {};
    var problems, valid := 0, 0;
    NoSignatures(p, electionId, totals, keys);
    var i := 0;
    while i < |signatures|
      invariant 0 <= i <= |signatures| && valid <= i && (problems == 0 ==> valid == i)
      invariant seen == KnownSigners(signatures[..i], p.trusteeIds)
      invariant problems == 0 <==> AllEndorse(signatures[..i], p, electionId, totals, keys)
    {
      AllEndorseSnoc(signatures, i, p, electionId, totals, keys);
      var s := signatures[i];
      var at := Position(p.trusteeIds, s.trusteeId);
      if at.None? {
        problems := problems + 1;
      } else if s.trusteeId in seen {
        problems := problems + 1;
      } else {
        seen := seen + {s.trusteeId};
        if s.signature == Some(SchnorrSignature(keys[at.value], electionId, totals)) {
          valid := valid + 1;
        } else {
          problems := problems + 1;
        }
      }
      i := i + 1;
    }
    assert signatures[..i] == signatures;
    if valid < p.threshold {
      problems := problems + 1;
    }
    ok := problems == 0;
  }

  lemma NoSignatures(p: Parameters, electionId: string, totals: seq<nat>, keys: seq<Point>)
    requires |keys| == |p.trusteeIds|
    ensures AllEndorse([], p, electionId, totals, keys) && KnownSigners([], p.trusteeIds) == {}
  {
  }
}
