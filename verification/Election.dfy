/** An honest election end to end: encrypt every voter's selections, aggregate,
    decrypt by threshold and publish. */
module Election {
  import opened Wrappers
  import opened ModArith
  import opened Group
  import opened Interpolation
  import opened Dkg
  import opened Decryption
  import opened Threshold
  import opened Tally
  import opened ElGamal
  import opened Labels

  /** 1 when the voter who cast `row` chose contest number c. */
  function Mark(row: seq<nat>, c: nat, candidates: nat): nat
    requires candidates > 0
  {
    if c / candidates < |row| && row[c / candidates] == c % candidates then 1 else 0
  }

  /** How many of the voters chose contest number c. */
  function Votes(picks: seq<seq<nat>>, c: nat, candidates: nat): (n: nat)
    requires candidates > 0
    ensures n <= |picks|
  {
    if picks == [] then 0
    else Votes(picks[..|picks| - 1], c, candidates) + Mark(picks[|picks| - 1], c, candidates)
  }

  /** Every voter picked one candidate in each position. */
  predicate Complete(picks: seq<seq<nat>>, positions: nat, candidates: nat) {
    forall v :: 0 <= v < |picks| ==>
      |picks[v]| == positions && forall p :: 0 <= p < positions ==> picks[v][p] < candidates
  }

  // ----- casting -----------------------------------------------------------

  /** One ballot record: a bit per contest slot in [lo, hi), set at `selected`. */
  method BuildRecord(key: Point, lo: nat, hi: nat, selected: nat, randomness: nat -> int, ghost secret: int, q: nat)
    returns (cts: seq<Ciphertext>)
    requires q > 0 && lo <= hi && Represents(key, secret, q)
    ensures |cts| == hi - lo
    ensures forall k: nat :: k < |cts| ==> Encrypts(cts[k], if lo + k == selected then 1 else 0, secret, q)
  {
    cts := [];
    hide Encrypts, Encrypt;
    var c := lo;
    while c < hi
      invariant lo <= c <= hi && |cts| == c - lo
      invariant forall k: nat :: k < |cts| ==> Encrypts(cts[k], if lo + k == selected then 1 else 0, secret, q)
    {
      var choice := if c == selected then 1 else 0;
      EncryptEncrypts(key, secret, choice, randomness(c), q);
      cts := cts + [Encrypt(key, choice, randomness(c), q)];
      c := c + 1;
    }
  }

  /** One voter's records, one per position, as a vector over all contests. */
  method BuildVoterRecords(key: Point, row: seq<nat>, candidates: nat, randomness: nat -> int, ghost secret: int, q: nat)
    returns (cts: seq<Ciphertext>, selections: seq<(nat, nat)>)
    requires q > 0 && candidates > 0 && Represents(key, secret, q)
    requires forall p :: 0 <= p < |row| ==> row[p] < candidates
    ensures |cts| == |row| * candidates
    ensures forall c: nat :: c < |cts| ==> Encrypts(cts[c], Mark(row, c, candidates), secret, q)
    ensures selections == Selections(row)
  {
    cts := [];
    selections := [];
    hide Encrypts, Mark, Represents;
    var p := 0;
    while p < |row|
      invariant 0 <= p <= |row| && |cts| == p * candidates
      invariant forall c: nat :: c < |cts| ==> Encrypts(cts[c], Mark(row, c, candidates), secret, q)
      invariant selections == Selections(row[..p])
    {
      selections := selections + [(p, row[p])];
      var lo := p * candidates;
      var record := BuildRecord(key, lo, lo + candidates, lo + row[p], randomness, secret, q);
      forall k: nat | k < candidates ensures Encrypts(record[k], Mark(row, lo + k, candidates), secret, q) {
        assert Encrypts(record[k], if lo + k == lo + row[p] then 1 else 0, secret, q);
        MarkAt(row, p, k, candidates);
      }
      cts := cts + record;
      p := p + 1;
    }
    assert row[..p] == row;
  }

  lemma MarkAt(row: seq<nat>, p: nat, k: nat, candidates: nat)
    requires p < |row| && k < candidates
    ensures Mark(row, p * candidates + k, candidates) == if k == row[p] then 1 else 0
  {
    DivModUnique(p * candidates + k, candidates, p, k);
  }

  /** A row of choices as (position, candidate) pairs. */
  function Selections(row: seq<nat>): (r: seq<(nat, nat)>)
    ensures |r| == |row|
  {
    seq(|row|, p requires 0 <= p < |row| => (p, row[p]))
  }

  function Flatten(picks: seq<seq<nat>>): seq<(nat, nat)> {
    if picks == [] then [] else Flatten(picks[..|picks| - 1]) + Selections(picks[|picks| - 1])
  }

  /** Cast every voter's ballot and fold it into the running aggregate. */
  method CastAll(key: Point, picks: seq<seq<nat>>, positions: nat, candidates: nat, randomness: (nat, nat) -> int,
                 ghost secret: int, q: nat)
    returns (aggregate: seq<Ciphertext>, selections: seq<(nat, nat)>)
    requires q > 0 && candidates > 0 && Represents(key, secret, q) && Complete(picks, positions, candidates)
    ensures |aggregate| == positions * candidates
    ensures forall c: nat :: c < |aggregate| ==> Encrypts(aggregate[c], Votes(picks, c, candidates), secret, q)
    ensures selections == Flatten(picks)
  {
    aggregate := seq(positions * candidates, _ => Zero);
    selections := [];
    ZeroEncryptsZero(secret, q);
    hide Encrypts, Mark, Represents;
    var v := 0;
    while v < |picks|
      invariant 0 <= v <= |picks| && |aggregate| == positions * candidates
      invariant forall c: nat :: c < |aggregate| ==> Encrypts(aggregate[c], Votes(picks[..v], c, candidates), secret, q)
      invariant selections == Flatten(picks[..v])
    {
      assert picks[..v + 1][..v] == picks[..v];
      var cts, chosen := BuildVoterRecords(key, picks[v], candidates, (c: nat) => randomness(v, c), secret, q);
      var before := aggregate;
      var c := 0;
      while c < |cts|
        invariant 0 <= c <= |cts| == |aggregate| == |before|
        invariant forall k: nat :: k < c ==> aggregate[k] == Sum(before[k], cts[k], q)
        invariant forall k: nat :: c <= k < |cts| ==> aggregate[k] == before[k]
      {
        aggregate := aggregate[c := Sum(aggregate[c], cts[c], q)];
        c := c + 1;
      }
      forall k: nat | k < |aggregate|
        ensures Encrypts(aggregate[k], Votes(picks[..v + 1], k, candidates), secret, q)
      {
        SumEncrypts(before[k], Votes(picks[..v], k, candidates), cts[k], Mark(picks[v], k, candidates), secret, q);
      }
      selections := selections + chosen;
      v := v + 1;
    }
    assert picks[..v] == picks;
  }

  // ----- the independent ground truth --------------------------------------

  /** How many selections land on contest number c. */
  function Hits(selections: seq<(nat, nat)>, candidates: nat, c: nat): nat {
    if selections == [] then 0
    else
      var (p, k) := selections[|selections| - 1];
      Hits(selections[..|selections| - 1], candidates, c) + if p * candidates + k == c then 1 else 0
  }

  method TallySelections(selections: seq<(nat, nat)>, contestCount: nat, candidates: nat) returns (totals: seq<nat>)
    requires forall s :: s in selections ==> s.0 * candidates + s.1 < contestCount
    ensures |totals| == contestCount
    ensures forall c: nat :: c < contestCount ==> totals[c] == Hits(selections, candidates, c)
  {
    totals := seq(contestCount, _ => 0);
    var i := 0;
    while i < |selections|
      invariant 0 <= i <= |selections| && |totals| == contestCount
      invariant forall c: nat :: c < contestCount ==> totals[c] == Hits(selections[..i], candidates, c)
    {
      assert selections[..i + 1][..i] == selections[..i];
      var (p, selected) := selections[i];
      assert selections[i] in selections;
      var slot := p * candidates + selected;
      totals := totals[slot := totals[slot] + 1];
      i := i + 1;
    }
    assert selections[..i] == selections;
  }

  lemma {:induction false} HitsSplit(a: seq<(nat, nat)>, b: seq<(nat, nat)>, candidates: nat, c: nat)
    ensures Hits(a + b, candidates, c) == Hits(a, candidates, c) + Hits(b, candidates, c)
  {
    if b == [] {
      assert a + b == a;
    } else {
      HitsSplit(a, b[..|b| - 1], candidates, c);
      assert (a + b)[..|a + b| - 1] == a + b[..|b| - 1];
      assert (a + b)[|a + b| - 1] == b[|b| - 1];
    }
  }

  /** One voter's selections hit contest c exactly when the voter marked it. */
  lemma {:induction false} HitsOfRow(row: seq<nat>, n: nat, candidates: nat, c: nat)
    requires candidates > 0 && n <= |row| && forall p :: 0 <= p < |row| ==> row[p] < candidates
    ensures Hits(Selections(row[..n]), candidates, c) == if c / candidates < n then Mark(row, c, candidates) else 0
  {
    if n > 0 {
      HitsOfRow(row, n - 1, candidates, c);
      var s := Selections(row[..n]);
      assert s[..|s| - 1] == Selections(row[..n - 1]) && s[|s| - 1] == (n - 1, row[n - 1]);
      SlotIs(n - 1, row[n - 1], c, candidates);
    }
  }

  lemma SlotIs(p: nat, k: nat, c: nat, candidates: nat)
    requires k < candidates
    ensures p * candidates + k == c <==> c / candidates == p && c % candidates == k
  {
    DivModUnique(p * candidates + k, candidates, p, k);
    QuotRem(c, candidates);
  }

  lemma {:induction false} HitsAreVotes(picks: seq<seq<nat>>, positions: nat, candidates: nat, c: nat)
    requires candidates > 0 && Complete(picks, positions, candidates) && c < positions * candidates
    ensures Hits(Flatten(picks), candidates, c) == Votes(picks, c, candidates)
  {
    if picks != [] {
      var n := |picks| - 1;
      assert Complete(picks[..n], positions, candidates) by {
        assert forall v :: 0 <= v < n ==> picks[..n][v] == picks[v];
      }
      HitsAreVotes(picks[..n], positions, candidates, c);
      HitsSplit(Flatten(picks[..n]), Selections(picks[n]), candidates, c);
      assert picks[n][..positions] == picks[n];
      HitsOfRow(picks[n], positions, candidates, c);
    }
  }

  lemma {:induction false} SelectionsInRange(picks: seq<seq<nat>>, positions: nat, candidates: nat)
    requires Complete(picks, positions, candidates)
    ensures forall s :: s in Flatten(picks) ==> s.0 * candidates + s.1 < positions * candidates
  {
    if picks != [] {
      var n := |picks| - 1;
      assert Complete(picks[..n], positions, candidates) by {
        assert forall v :: 0 <= v < n ==> picks[..n][v] == picks[v];
      }
      SelectionsInRange(picks[..n], positions, candidates);
      forall s | s in Selections(picks[n]) ensures s.0 * candidates + s.1 < positions * candidates {
        SlotBound(s.0, s.1, positions, candidates);
      }
    }
  }

  // ----- the trustees' answers ---------------------------------------------

  /** Trustee t's partial decryption of contest c under its DKG share. */
  function HonestPartial(b: Board, secrets: seq<int>, c: nat, t: nat, q: nat): PartialDecryption
    requires q > 0 && b.WellFormed() && |secrets| == |b.publics| && c < |b.pads| && t < |secrets|
  {
    var trusteeId, contestId := b.params.trusteeIds[t], b.params.contestIds[c];
    PartialDecryption(WIRE_VERSION, trusteeId, contestId, Some(Mul(secrets[t], b.pads[c], q)),
                      Some(CpProof(Context(b.binding, trusteeId, contestId))))
  }

  /** The list is contest-major and every entry is its trustee's honest answer. */
  ghost predicate Honest(b: Board, secrets: seq<int>, pds: seq<PartialDecryption>, q: nat)
    requires q > 0 && b.WellFormed() && |secrets| == |b.publics|
  {
    var n := |secrets|;
    n > 0 && forall i: nat :: i < |pds| ==> i / n < |b.pads| && pds[i] == HonestPartial(b, secrets, i / n, i % n, q)
  }

  method BuildPartialDecryptions(b: Board, secrets: seq<int>, q: nat) returns (out: seq<PartialDecryption>)
    requires q > 0 && b.WellFormed() && |secrets| == |b.publics| > 0
    ensures |out| == |b.pads| * |secrets| && Honest(b, secrets, out, q)
  {
    out := [];
    hide HonestPartial;
    var n := |secrets|;
    ghost var base := 0;  // c * n
    var c := 0;
    while c < |b.params.contestIds|
      invariant 0 <= c <= |b.pads| && |out| == base == c * n
      invariant Honest(b, secrets, out, q)
    {
      var t := 0;
      while t < n
        invariant 0 <= t <= n && |out| == base + t
        invariant Honest(b, secrets, out, q)
      {
        HonestSnoc(b, secrets, out, c, t, q);
        out := out + [HonestPartial(b, secrets, c, t, q)];
        t := t + 1;
      }
      c := c + 1;
      base := base + n;
    }
  }

  lemma HonestSnoc(b: Board, secrets: seq<int>, out: seq<PartialDecryption>, c: nat, t: nat, q: nat)
    requires q > 0 && b.WellFormed() && |secrets| == |b.publics| && c < |b.pads| && t < |secrets|
    requires |out| == c * |secrets| + t && Honest(b, secrets, out, q)
    ensures Honest(b, secrets, out + [HonestPartial(b, secrets, c, t, q)], q)
  {
    hide HonestPartial;
    DivModUnique(c * |secrets| + t, |secrets|, c, t);
  }

  lemma HonestRoute(b: Board, secrets: seq<int>, c: nat, t: nat, q: nat)
    requires q > 0 && b.WellFormed() && |secrets| == |b.publics| && c < |b.pads| && t < |secrets|
    requires NoDuplicates(b.params.contestIds) && NoDuplicates(b.params.trusteeIds)
    ensures Route(b, HonestPartial(b, secrets, c, t, q)) == Some(Decryption.Slot(c, t))
  {
  }

  lemma ShareMatchesKey(s: int, pad: Point, q: nat)
    requires q > 0
    ensures SharesKey(Mul(s, pad, q), pad, Mul(s, Base(q), q), q)
  {
    CongIntro(s, s, 0, q);
    CongIntro(pad.log, pad.log, 0, q);
    RepresentsBase(q);
    hide Cong;
    var share, pub := Mul(s, pad, q), Mul(s, Base(q), q);
    RepresentsMul(s, s, pad, pad.log, q);
    RepresentsMul(s, s, Base(q), 1, q);
    assert s * 1 == s;
    CongMul(pub.log, s, pad.log, pad.log, q);
    CongSym(pub.log * pad.log, s * pad.log, q);
    CongTrans(share.log, s * pad.log, pub.log * pad.log, q);
  }

  ghost predicate KeyedBy(publics: seq<Point>, secrets: seq<int>, q: nat)
    requires q > 0
  {
    |publics| == |secrets| && forall t :: 0 <= t < |secrets| ==> publics[t] == Mul(secrets[t], Base(q), q)
  }

  lemma HonestSound(b: Board, secrets: seq<int>, c: nat, t: nat, q: nat)
    requires q > 0 && b.WellFormed() && KeyedBy(b.publics, secrets, q) && c < |b.pads| && t < |secrets|
    requires NoDuplicates(b.params.contestIds) && NoDuplicates(b.params.trusteeIds)
    ensures Sound(b, HonestPartial(b, secrets, c, t, q), q)
  {
    HonestRoute(b, secrets, c, t, q);
    ShareMatchesKey(secrets[t], b.pads[c], q);
    hide SharesKey, Mul;
  }

  /** Honest answers pass every check, and every trustee answered every contest. */
  lemma HonestIsClean(b: Board, secrets: seq<int>, pds: seq<PartialDecryption>, q: nat)
    requires q > 0 && b.WellFormed() && KeyedBy(b.publics, secrets, q)
    requires NoDuplicates(b.params.contestIds) && NoDuplicates(b.params.trusteeIds)
    requires |pds| == |b.pads| * |secrets| && Honest(b, secrets, pds, q)
    ensures Clean(b, pds, q)
    ensures forall c: nat, t: nat :: c < |b.pads| && t < |secrets| ==> Submitted(b, pds, c, t)
  {
    hide HonestPartial, Sound, Route, NoDuplicates, Clean, Submitted, Mul;
    var n := |secrets|;
    forall i: nat | i < |pds| ensures Sound(b, pds[i], q) && Route(b, pds[i]) == Some(Decryption.Slot(i / n, i % n)) {
      QuotRem(i, n);
      assert pds[i] == HonestPartial(b, secrets, i / n, i % n, q);
      HonestSound(b, secrets, i / n, i % n, q);
      HonestRoute(b, secrets, i / n, i % n, q);
    }
    hide *;
    RoutesGiveClean(b, n, pds, q);
  }

  lemma RoutesGiveClean(b: Board, n: nat, pds: seq<PartialDecryption>, q: nat)
    requires q > 0 && b.WellFormed() && n > 0 && |pds| == |b.pads| * n
    requires forall i: nat :: i < |pds| ==> Sound(b, pds[i], q) && Route(b, pds[i]) == Some(Decryption.Slot(i / n, i % n))
    ensures Clean(b, pds, q)
    ensures forall c: nat, t: nat :: c < |b.pads| && t < n ==> Submitted(b, pds, c, t)
  {
    hide Sound, Route;
    forall i: nat, j: nat | i < j < |pds| ensures Route(b, pds[i]) != Route(b, pds[j]) {
      QuotRem(i, n);
      QuotRem(j, n);
    }
    forall c: nat, t: nat | c < |b.pads| && t < n ensures Submitted(b, pds, c, t) {
      SlotBound(c, t, |b.pads|, n);
      DivModUnique(c * n + t, n, c, t);
      assert Route(b, pds[c * n + t]) == Some(Decryption.Slot(c, t));
    }
  }

  // ----- publishing --------------------------------------------------------

  datatype TallyError = Undecrypted(error: DecryptError) | DiffersFromGroundTruth

  method BuildTally(b: Board, pds: seq<PartialDecryption>, groundTruth: seq<nat>, max: nat, q: nat)
    returns (r: Result<seq<nat>, TallyError>)
    requires Prime(q) && b.WellFormed() && |b.publics| < q && max < q
    ensures r.Ok? <==> Totals(b, pds, max, q) == Some(groundTruth)
    ensures r.Ok? ==> r.value == groundTruth
    ensures Totals(b, pds, max, q).Some? && r.Err? ==> r.error.DiffersFromGroundTruth?
  {
    hide Totals, Prime;
    var totals := DecryptTotalsBound(b, pds, max, q);
    if totals.Err? {
      return Err(Undecrypted(totals.error));
    }
    if totals.value != groundTruth {
      return Err(DiffersFromGroundTruth);
    }
    r := Ok(totals.value);
  }

  lemma {:induction false} AllTrustees(n: nat, s: set<nat>)
    requires forall t: nat :: t < n ==> t in s
    ensures |s| >= n
  {
    if n > 0 {
      AllTrustees(n - 1, s - {n - 1});
    }
  }

  /** The aggregate of contest c encrypts votes[c]. */
  ghost predicate Holds(b: Board, secret: int, votes: seq<nat>, max: nat, q: nat)
    requires q > 0 && b.WellFormed()
  {
    |votes| == |b.data| && forall c: nat :: c < |votes| ==>
      votes[c] <= max && Cong(b.data[c].log, votes[c] + secret * b.pads[c].log, q)
  }

  /** Every trustee answered every contest, and cleanly. */
  ghost predicate Answered(b: Board, pds: seq<PartialDecryption>, q: nat)
    requires q > 0 && b.WellFormed()
  {
    Clean(b, pds, q) && forall c: nat, t: nat :: c < |b.pads| && t < |b.publics| ==> Submitted(b, pds, c, t)
  }

  lemma AnsweredVerified(b: Board, pds: seq<PartialDecryption>, c: nat, q: nat)
    requires q > 0 && b.WellFormed() && Answered(b, pds, q) && c < |b.pads| && b.params.threshold <= |b.publics|
    ensures Failures(b, pds, q) == [] && |Verified(b, pds, c, q)| >= b.params.threshold
  {
    NoFailuresIffClean(b, pds, q);
    hide Clean, Failures, Verified, Submitted;
    CleanTrustees(b, pds, c, q);
    AllTrustees(|b.publics|, Trustees(Verified(b, pds, c, q)));
    EnoughMeansSlice(b, pds, c, q);
  }

  lemma HonestPlain(b: Board, dealers: seq<Polynomial>, pds: seq<PartialDecryption>, votes: seq<nat>, max: nat, c: nat, q: nat)
    requires q > 0 && Prime(q) && b.WellFormed() && |b.publics| < q && max < q && KeysOf(b.publics, dealers, q)
    requires forall d :: d in dealers ==> |d| <= b.params.threshold
    requires Answered(b, pds, q) && b.params.threshold <= |b.publics|
    requires Holds(b, JointEval(dealers, 0), votes, max, q) && c < |b.data|
    ensures Plain(b, pds, c, q) == votes[c]
  {
    hide Cong, JointEval, Prime, KeysOf, Answered, Verified, Plain;
    assert |b.pads| == |b.data|;
    assert votes[c] <= max && Cong(b.data[c].log, votes[c] + JointEval(dealers, 0) * b.pads[c].log, q);
    hide *;
    AnsweredVerified(b, pds, c, q);
    PlainMeaning(b, pds, c, dealers, q);
    UniquePlaintext(b.data[c].log, JointEval(dealers, 0) * b.pads[c].log, votes[c], Plain(b, pds, c, q), q);
  }

  /** What threshold decryption makes of complete answers to an honest aggregate. */
  lemma HonestTotals(b: Board, dealers: seq<Polynomial>, pds: seq<PartialDecryption>, votes: seq<nat>, max: nat, q: nat)
    requires q > 0 && Prime(q) && b.WellFormed() && |b.publics| < q && max < q && KeysOf(b.publics, dealers, q)
    requires forall d :: d in dealers ==> |d| <= b.params.threshold
    requires Answered(b, pds, q) && b.params.threshold <= |b.publics|
    requires Holds(b, JointEval(dealers, 0), votes, max, q)
    ensures Totals(b, pds, max, q) == Some(votes)
  {
    hide Clean, Failures, Verified, Plain, Submitted, Prime, KeysOf, Cong, Totals, JointEval;
    NoFailuresIffClean(b, pds, q);
    forall c: nat | c < |b.data| ensures Plain(b, pds, c, q) == votes[c] {
      HonestPlain(b, dealers, pds, votes, max, c, q);
    }
    TotalsWhen(b, pds, votes, max, q);
  }

  lemma TotalsWhen(b: Board, pds: seq<PartialDecryption>, votes: seq<nat>, max: nat, q: nat)
    requires q > 0 && b.WellFormed() && Failures(b, pds, q) == [] && |votes| == |b.data|
    requires forall c: nat :: c < |votes| ==> Plain(b, pds, c, q) == votes[c] && votes[c] <= max
    ensures Totals(b, pds, max, q) == Some(votes)
  {
    hide Failures, Plain;
    assert forall c :: 0 <= c < |b.data| ==> Plain(b, pds, c, q) == votes[c];
    var t := Totals(b, pds, max, q);
    assert t.Some?;
    assert t.value == votes;
  }

  // ----- the whole run -----------------------------------------------------

  datatype GenParams = GenParams(positions: nat, candidates: nat, threshold: nat, trustees: nat)

  datatype Published = Published(totals: seq<nat>, groundTruth: seq<nat>)

  /** What every recipient receives when nothing is tampered with. */
  function Delivered(dealers: seq<Polynomial>, q: nat): (received: seq<seq<int>>)
    requires q > 0
    ensures Matrix(received, |dealers|)
  {
    seq(|dealers|, i => seq(|dealers|, j requires 0 <= j < |dealers| => Eval(dealers[j], i + 1) % q))
  }

  lemma NobodyAccused(dealers: seq<Polynomial>, accused: set<nat>, q: nat)
    requires q > 0 && AccusedExactly(accused, dealers, Delivered(dealers, q), q)
    ensures accused == {}
  {
    forall i: nat, j: nat | i < |dealers| && j < |dealers|
      ensures !BadShare(dealers, Delivered(dealers, q), i, j, q)
    {
      ModCong(Eval(dealers[j], i + 1), q);
    }
  }

  lemma {:induction false} NoneAccusedAllActive(dealers: seq<Polynomial>)
    ensures Active(dealers, {}) == dealers
  {
    if dealers != [] {
      NoneAccusedAllActive(dealers[..|dealers| - 1]);
    }
  }

  method Publics(secrets: seq<int>, q: nat) returns (publics: seq<Point>)
    requires q > 0
    ensures KeyedBy(publics, secrets, q)
  {
    publics := [];
    var t := 0;
    while t < |secrets|
      invariant 0 <= t <= |secrets| && KeyedBy(publics, secrets[..t], q)
    {
      publics := publics + [Mul(secrets[t], Base(q), q)];
      t := t + 1;
    }
    assert secrets[..t] == secrets;
  }

  lemma KeysFollow(publics: seq<Point>, secrets: seq<int>, dealers: seq<Polynomial>, q: nat)
    requires q > 0 && KeyedBy(publics, secrets, q)
    requires forall i: nat :: i < |secrets| ==> Cong(secrets[i], JointEval(dealers, i + 1), q)
    ensures KeysOf(publics, dealers, q)
  {
    hide Cong, JointEval, Mul;
    forall t | 0 <= t < |publics| ensures Cong(publics[t].log, JointEval(dealers, t + 1), q) {
      RepresentsBase(q);
      RepresentsMul(secrets[t], JointEval(dealers, t + 1), Base(q), 1, q);
    }
  }

  /** The ceremony when every share arrives as dealt: nobody is accused. */
  method HonestCeremony(threshold: nat, trustees: nat, dealers: seq<Polynomial>, q: nat)
    returns (key: Point, secrets: seq<int>)
    requires q > 1 && 1 <= threshold <= trustees
    requires |dealers| == trustees && forall d :: d in dealers ==> |d| == threshold && Canonical(d, q)
    ensures Represents(key, JointEval(dealers, 0), q) && |secrets| == trustees
    ensures forall i: nat :: i < |secrets| ==> Cong(secrets[i], JointEval(dealers, i + 1), q)
  {
    hide Cong, BadShare, Delivered, JointEval, Represents, Eval;
    var output, accused := RunInMemory(threshold, trustees, dealers, Delivered(dealers, q), q);
    NobodyAccused(dealers, accused, q);
    NoneAccusedAllActive(dealers);
    key, secrets := output.value.publicKey, output.value.shares;
  }

  function Pads(cts: seq<Ciphertext>): (r: seq<Point>)
    ensures |r| == |cts| && forall c :: 0 <= c < |r| ==> r[c] == cts[c].pad
  {
    seq(|cts|, c requires 0 <= c < |cts| => cts[c].pad)
  }

  function Data(cts: seq<Ciphertext>): (r: seq<Point>)
    ensures |r| == |cts| && forall c :: 0 <= c < |r| ==> r[c] == cts[c].data
  {
    seq(|cts|, c requires 0 <= c < |cts| => cts[c].data)
  }

  lemma AggregateHolds(b: Board, aggregate: seq<Ciphertext>, secret: int, votes: seq<nat>, max: nat, q: nat)
    requires q > 0 && b.WellFormed() && b.pads == Pads(aggregate) && b.data == Data(aggregate)
    requires |votes| == |aggregate| && forall c: nat :: c < |votes| ==>
               votes[c] <= max && Encrypts(aggregate[c], votes[c], secret, q)
    ensures Holds(b, secret, votes, max, q)
  {
    hide Cong;
  }

  method AnswerAndPublish(b: Board, secrets: seq<int>, dealers: seq<Polynomial>, votes: seq<nat>, max: nat, q: nat)
    returns (r: Result<seq<nat>, TallyError>)
    requires q > 0 && Prime(q) && b.WellFormed() && 0 < |b.publics| < q && max < q
    requires KeyedBy(b.publics, secrets, q) && KeysOf(b.publics, dealers, q)
    requires NoDuplicates(b.params.contestIds) && NoDuplicates(b.params.trusteeIds)
    requires b.params.threshold <= |b.publics| && forall d :: d in dealers ==> |d| <= b.params.threshold
    requires Holds(b, JointEval(dealers, 0), votes, max, q)
    ensures r == Ok(votes)
  {
    var pds := BuildPartialDecryptions(b, secrets, q);
    HonestIsClean(b, secrets, pds, q);
    assert Answered(b, pds, q);
    hide Clean, Submitted, Honest, KeyedBy, KeysOf, Holds, Prime, Totals, Answered;
    HonestTotals(b, dealers, pds, votes, max, q);
    r := BuildTally(b, pds, votes, max, q);
  }

  method GroundTruth(picks: seq<seq<nat>>, selections: seq<(nat, nat)>, positions: nat, candidates: nat)
    returns (totals: seq<nat>)
    requires candidates > 0 && Complete(picks, positions, candidates) && selections == Flatten(picks)
    ensures |totals| == positions * candidates
    ensures forall c: nat :: c < |totals| ==> totals[c] == Votes(picks, c, candidates)
  {
    SelectionsInRange(picks, positions, candidates);
    totals := TallySelections(selections, positions * candidates, candidates);
    forall c: nat | c < |totals| ensures totals[c] == Votes(picks, c, candidates) {
      HitsAreVotes(picks, positions, candidates, c);
    }
  }

  /** Key generation, casting, threshold decryption and publication, with nothing
      tampered with. Whatever the voters picked, the published totals exist and
      are the number of voters who chose each contest. */
  method MultiPositionFixture(params: GenParams, dealers: seq<Polynomial>, picks: seq<seq<nat>>, binding: string,
                              randomness: (nat, nat) -> int, q: nat)
    returns (r: Result<seq<nat>, TallyError>)
    requires q > 1 && Prime(q) && params.positions >= 1 && params.candidates >= 1
    requires 1 <= params.threshold <= params.trustees < q
    requires |dealers| == params.trustees && forall d :: d in dealers ==> |d| == params.threshold && Canonical(d, q)
    requires Complete(picks, params.positions, params.candidates) && |picks| * params.positions < q
    ensures r.Ok? && |r.value| == params.positions * params.candidates
    ensures forall c: nat :: c < |r.value| ==> r.value[c] == Votes(picks, c, params.candidates)
  {
    hide *;
    var positions, candidates := params.positions, params.candidates;
    var trusteeIds := BuildTrusteeIds(params.trustees);
    var contestIds := BuildContestIds(positions, candidates);
    var key, secrets := HonestCeremony(params.threshold, params.trustees, dealers, q);
    var aggregate, selections := CastAll(key, picks, positions, candidates, randomness, JointEval(dealers, 0), q);
    var groundTruth := GroundTruth(picks, selections, positions, candidates);
    var publics := Publics(secrets, q);
    var b := Board(Parameters(contestIds, trusteeIds, params.threshold), Pads(aggregate), Data(aggregate), publics, binding);
    KeysFollow(publics, secrets, dealers, q);
    BoardShape(b, params.trustees, secrets, q);
    AggregateHolds(b, aggregate, JointEval(dealers, 0), groundTruth, |picks| * positions, q);
    r := AnswerAndPublish(b, secrets, dealers, groundTruth, |picks| * positions, q);
  }

  lemma BoardShape(b: Board, trustees: nat, secrets: seq<int>, q: nat)
    requires q > 0 && |b.pads| == |b.data| == |b.params.contestIds| && |b.params.trusteeIds| == trustees == |secrets|
    requires KeyedBy(b.publics, secrets, q)
    ensures b.WellFormed() && |b.publics| == trustees
  {
  }

}
