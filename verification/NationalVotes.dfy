/** From the eligible records of every precinct's ballot stream to the published
    national total. */
module NationalVotes {
  import opened Wrappers
  import opened ModArith
  import opened ElGamal
  import opened Counting
  import opened BallotCheck
  import opened PositionVotes
  import Canvass
  import Transcript
  import Tally

  /** A precinct's election, and the records on its ledger. */
  datatype Precinct = Precinct(election: Election, ballots: seq<Ballot>)

  function Total(p: Precinct, c: nat, q: nat): nat
    requires q > 0 && c < |p.election.contestIds|
  {
    BallotCheck.Total(p.ballots, p.election, true, c, q)
  }

  /** These are the sums of the precinct's verified records. */
  ghost predicate SumsOf(sums: Canvass.LedgerSums, p: Precinct, q: nat)
    requires q > 0
  {
    && sums.records == |p.ballots| && |sums.contests| == |p.election.contestIds|
    && forall c: nat :: c < |sums.contests| ==> SumOf(sums.contests[c], Total(p, c, q), p.election.key.log, q)
  }

  ghost predicate SumOf(sum: Canvass.ContestSum, m: nat, secret: int, q: nat)
    requires q > 0
  {
    sum.c1.Canonical? && sum.c2.Canonical? && Encrypts(Ciphertext(sum.c1.point, sum.c2.point), m, secret, q)
  }

  /** The recomputation of one precinct's ledger. */
  method RecomputeLedger(p: Precinct, digest: string, q: nat) returns (sums: Canvass.LedgerSums)
    requires q > 0 && AllInGroup(p.ballots, q)
    ensures SumsOf(sums, p, q) && sums.digest == digest
    ensures forall c :: 0 <= c < |sums.contests| ==> sums.contests[c].contestId == p.election.contestIds[c]
  {
    var s := VerifiedSums(p.ballots, p.election, true, q);
    hide Encrypts, BallotCheck.Total;
    var contests: seq<Canvass.ContestSum> := [];
    while |contests| < |s.aggregate|
      invariant |contests| <= |s.aggregate|
      invariant forall c: nat :: c < |contests| ==>
                  contests[c].contestId == p.election.contestIds[c] && SumOf(contests[c], Total(p, c, q), p.election.key.log, q)
      decreases |s.aggregate| - |contests|
    {
      var sum := s.aggregate[|contests|];
      contests := contests + [Canvass.ContestSum(p.election.contestIds[|contests|], Canvass.Canonical(sum.pad), Canvass.Canonical(sum.data))];
    }
    sums := Canvass.LedgerSums(s.records, digest, contests);
  }

  // ----- what the precincts hold together ----------------------------------

  /** The precinct runs the national contests under the national key, and its
      ledger sums were recomputed from its records. */
  ghost predicate RunsFor(p: Precinct, ledger: Canvass.PrecinctLedger, contests: seq<string>, secret: int, q: nat)
    requires q > 0
  {
    && p.election.contestIds == contests && Cong(p.election.key.log, secret, q) && AllInGroup(p.ballots, q)
    && ledger.sums.Some? && SumsOf(ledger.sums.value, p, q)
  }

  ghost predicate AllRunFor(ps: seq<Precinct>, ledgers: seq<Canvass.PrecinctLedger>, contests: seq<string>, secret: int, q: nat)
    requires q > 0
  {
    |ps| == |ledgers| && forall k :: 0 <= k < |ps| ==> RunsFor(ps[k], ledgers[k], contests, secret, q)
  }

  /** Votes for contest c, precinct by precinct. */
  function Votes(ps: seq<Precinct>, n: nat, c: nat, q: nat): (ms: seq<nat>)
    requires q > 0 && c < n && forall k :: 0 <= k < |ps| ==> |ps[k].election.contestIds| == n
    ensures |ms| == |ps| && forall k :: 0 <= k < |ms| ==> ms[k] == Total(ps[k], c, q)
  {
    seq(|ps|, k requires 0 <= k < |ps| => Total(ps[k], c, q))
  }

  /** Eligible records of all the streams whose id leads with `position`. */
  function NationalCast(ps: seq<Precinct>, position: string, q: nat): nat
    requires q > 0
  {
    if ps == [] then 0
    else
      var p := ps[|ps| - 1];
      NationalCast(ps[..|ps| - 1], position, q) + Cast(p.ballots, p.election, position, q)
  }

  lemma SameKey(sum: Canvass.ContestSum, m: nat, a: int, b: int, q: nat)
    requires q > 0 && Cong(a, b, q) && SumOf(sum, m, a, q)
    ensures SumOf(sum, m, b, q)
  {
    var pad, data := sum.c1.point, sum.c2.point;
    CongScale(pad.log, a, b, q);
    CongIntro(m, m, 0, q);
    CongAdd(m, m, pad.log * a, pad.log * b, q);
    CongTrans(data.log, m + a * pad.log, m + b * pad.log, q);
  }

  lemma LedgersHoldVotes(ps: seq<Precinct>, ledgers: seq<Canvass.PrecinctLedger>, contests: seq<string>, c: nat, secret: int, q: nat)
    requires q > 0 && AllRunFor(ps, ledgers, contests, secret, q) && c < |contests|
    ensures forall k :: 0 <= k < |ps| ==> |ps[k].election.contestIds| == |contests|
    ensures Canvass.PrecinctVotes(ledgers, c, secret, Votes(ps, |contests|, c, q), q)
  {
    forall k | 0 <= k < |ps| ensures |ps[k].election.contestIds| == |contests| {
      assert RunsFor(ps[k], ledgers[k], contests, secret, q);
    }
    hide Encrypts, Cong, BallotCheck.Total;
    var ms := Votes(ps, |contests|, c, q);
    forall k | 0 <= k < |ledgers|
      ensures c < |Canvass.LedgerRow(ledgers[k])| && ms[k] <= Canvass.LedgerRecords(ledgers[k])
           && SumOf(Canvass.LedgerRow(ledgers[k])[c], ms[k], secret, q)
    {
      assert RunsFor(ps[k], ledgers[k], contests, secret, q);
      var p, sum := ps[k], ledgers[k].sums.value.contests[c];
      TotalAtMostRecords(p.ballots, p.election, true, c, q);
      SameKey(sum, Total(p, c, q), p.election.key.log, secret, q);
    }
  }

  /** One contest's national votes, contest by contest. */
  ghost predicate NationalRow(row: seq<nat>, ps: seq<Precinct>, n: nat, q: nat)
    requires q > 0
  {
    && |row| == n && (forall k :: 0 <= k < |ps| ==> |ps[k].election.contestIds| == n)
    && forall c: nat :: c < n ==> row[c] == Counting.Sum(Votes(ps, n, c, q))
  }

  /** Summed over a position's contests, the precincts' votes are their eligible records. */
  lemma {:induction false} RowIsCast(row: seq<nat>, ps: seq<Precinct>, contests: seq<string>, position: string, q: nat)
    requires q > |contests| && q > 1 && PerPosition(contests) && NationalRow(row, ps, |contests|, q)
    requires forall k :: 0 <= k < |ps| ==> ps[k].election.contestIds == contests && AllInGroup(ps[k].ballots, q)
    ensures PositionSum(contests, position, row, |contests|) == NationalCast(ps, position, q)
    decreases |ps|
  {
    hide AllInGroup, PositionSum, Cast, BallotCheck.Total, PerPosition;
    var n := |contests|;
    if ps == [] {
      forall c | 0 <= c < n ensures row[c] == 0 {
        assert Votes(ps, n, c, q) == [];
      }
      PositionSumZero(contests, position, row, n);
    } else {
      var m := |ps| - 1;
      var p := ps[m];
      var last := BallotCheck.Totals(p.ballots, p.election, true, q);
      var before := RowOf(ps[..m], n, q);
      forall c: nat | c < n ensures row[c] == before[c] + last[c] {
        assert Votes(ps, n, c, q)[..m] == Votes(ps[..m], n, c, q);
      }
      RowIsCast(before, ps[..m], contests, position, q);
      OneVotePerEligibleRecord(p.ballots, p.election, position, q);
      PositionSumAdds(contests, position, before, last, row, n);
    }
  }

  lemma RowOf(ps: seq<Precinct>, n: nat, q: nat) returns (row: seq<nat>)
    requires q > 0 && forall k :: 0 <= k < |ps| ==> |ps[k].election.contestIds| == n
    ensures NationalRow(row, ps, n, q)
  {
    hide BallotCheck.Total, Counting.Sum;
    row := seq(n, c requires 0 <= c < n => Counting.Sum(Votes(ps, n, c, q)));
  }

  /** After a passing canvass over recomputed ledgers: the published totals of a
      position's contests sum to the eligible records of all precinct streams
      whose id leads with that position. */
  lemma PublishedPositionIsTheRecords(
    h: Canvass.Header, registry: seq<Canvass.RegistryEntry>, files: seq<Option<Canvass.Return>>,
    ledgers: seq<Canvass.PrecinctLedger>, aggregate: seq<Canvass.ContestSum>, ps: seq<Precinct>, position: string, q: nat)
    requires q > |h.params.contestIds| && Canvass.Sane(h, ledgers, q) && |ledgers| == |registry|
    requires Canvass.Verdict(h, registry, files, ledgers, aggregate, q).Pass()
    requires h.dkg.Some? && Transcript.Decodes(h.dkg.value)
    requires AllRunFor(ps, ledgers, h.params.contestIds, Canvass.Secret(h), q) && PerPosition(h.params.contestIds)
    ensures h.tally.Some? && |h.tally.value.totals| == |h.params.contestIds|
    ensures PositionSum(h.params.contestIds, position, h.tally.value.totals, |h.params.contestIds|) == NationalCast(ps, position, q)
  {
    var contests := h.params.contestIds;
    var n := |contests|;
    TotalsPublished(h, registry, files, ledgers, aggregate, q);
    var totals := h.tally.value.totals;
    hide *;
    forall c: nat | c < n
      ensures (forall k :: 0 <= k < |ps| ==> |ps[k].election.contestIds| == n) && totals[c] == Counting.Sum(Votes(ps, n, c, q))
    {
      LedgersHoldVotes(ps, ledgers, contests, c, Canvass.Secret(h), q);
      Canvass.PublishedTotalIsTheSumOfVotes(h, registry, files, ledgers, aggregate, c, Votes(ps, n, c, q), q);
    }
    SameContests(ps, ledgers, contests, Canvass.Secret(h), q);
    IsRow(totals, ps, n, q);
    RowIsCast(totals, ps, contests, position, q);
  }

  lemma SameContests(ps: seq<Precinct>, ledgers: seq<Canvass.PrecinctLedger>, contests: seq<string>, secret: int, q: nat)
    requires q > 0 && AllRunFor(ps, ledgers, contests, secret, q)
    ensures forall k :: 0 <= k < |ps| ==> ps[k].election.contestIds == contests && AllInGroup(ps[k].ballots, q)
  {
    hide SumsOf, AllInGroup, Cong;
    forall k | 0 <= k < |ps| ensures ps[k].election.contestIds == contests && AllInGroup(ps[k].ballots, q) {
      assert RunsFor(ps[k], ledgers[k], contests, secret, q);
    }
  }

  lemma IsRow(row: seq<nat>, ps: seq<Precinct>, n: nat, q: nat)
    requires q > 0 && |row| == n && (forall k :: 0 <= k < |ps| ==> |ps[k].election.contestIds| == n)
    requires forall c: nat :: c < n ==> row[c] == Counting.Sum(Votes(ps, n, c, q))
    ensures NationalRow(row, ps, n, q)
  {
  }

  lemma TotalsPublished(h: Canvass.Header, registry: seq<Canvass.RegistryEntry>, files: seq<Option<Canvass.Return>>,
                        ledgers: seq<Canvass.PrecinctLedger>, aggregate: seq<Canvass.ContestSum>, q: nat)
    requires q > 0 && |ledgers| == |registry| && Canvass.Verdict(h, registry, files, ledgers, aggregate, q).Pass()
    ensures h.tally.Some? && |h.tally.value.totals| == |h.params.contestIds|
  {
    hide Canvass.Verdict, Tally.Totals, Canvass.Product, Canvass.NationalAccurate;
    Canvass.PassIsAccurate(h, registry, files, ledgers, aggregate, q);
    Canvass.AccurateMeans(h, ledgers, q);
  }
}
