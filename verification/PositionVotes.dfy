/** Where the votes of a stream land: one for each eligible record, in the
    position its id leads with. */
module PositionVotes {
  import opened Wrappers
  import opened ModArith
  import opened Group
  import opened ElGamal
  import opened Labels
  import opened Counting
  import opened BallotCheck

  /** Every contest belongs to a position: "position/...". */
  predicate PerPosition(contests: seq<string>) {
    forall c :: 0 <= c < |contests| ==> '/' in contests[c]
  }

  /** Sum of row over the first n contests that belong to `position`. */
  function PositionSum(contests: seq<string>, position: string, row: seq<nat>, n: nat): nat
    requires n <= |contests| == |row|
  {
    if n == 0 then 0
    else PositionSum(contests, position, row, n - 1) + if PositionOf(contests[n - 1]) == position then row[n - 1] else 0
  }

  lemma {:induction false} PositionSumAdds(contests: seq<string>, position: string, a: seq<nat>, b: seq<nat>, r: seq<nat>, n: nat)
    requires n <= |contests| == |a| == |b| == |r| && forall c :: 0 <= c < |r| ==> r[c] == a[c] + b[c]
    ensures PositionSum(contests, position, r, n) == PositionSum(contests, position, a, n) + PositionSum(contests, position, b, n)
  {
    if n > 0 {
      PositionSumAdds(contests, position, a, b, r, n - 1);
    }
  }

  lemma {:induction false} PositionSumZero(contests: seq<string>, position: string, row: seq<nat>, n: nat)
    requires n <= |contests| == |row| && forall c :: 0 <= c < |row| ==> row[c] == 0
    ensures PositionSum(contests, position, row, n) == 0
  {
    if n > 0 {
      PositionSumZero(contests, position, row, n - 1);
    }
  }

  lemma {:induction false} PositionSumFront(contests: seq<string>, position: string, row: seq<nat>, m: nat, n: nat)
    requires n <= m <= |contests| == |row|
    ensures PositionSum(contests[..m], position, row[..m], n) == PositionSum(contests, position, row, n)
  {
    if n > 0 {
      PositionSumFront(contests, position, row, m, n - 1);
    }
  }

  /** A record's values land in the position its id leads with, and only there. */
  lemma {:induction false} SpreadLands(contests: seq<string>, cast: string, ms: seq<nat>, position: string)
    requires cast != "" && |ms| == |PositionIndices(contests, cast)|
    ensures PositionSum(contests, position, Spread(contests, cast, ms), |contests|)
         == if PositionOf(cast) == position then Counting.Sum(ms) else 0
  {
    if contests != [] {
      var n := |contests| - 1;
      var inside := InPosition(contests[n], cast);
      var front := if inside then ms[..|ms| - 1] else ms;
      var row := Spread(contests, cast, ms);
      assert row[..n] == Spread(contests[..n], cast, front) && row[n] == if inside then ms[|ms| - 1] else 0;
      assert PositionSum(contests, position, row, n + 1)
          == PositionSum(contests, position, row, n) + if PositionOf(contests[n]) == position then row[n] else 0;
      assert inside ==> Counting.Sum(ms) == Counting.Sum(front) + ms[|ms| - 1];
      assert |front| == |PositionIndices(contests[..n], cast)|;
      if inside {
        PrefixKeepsPosition(contests[n], cast);
      }
      hide *;
      SpreadLands(contests[..n], cast, front, position);
      PositionSumFront(contests, position, row, n, n);
    } else {
      assert ms == [];
    }
  }

  /** An eligible record of an issuer-bound election names a contest of the list,
      down to some slash. */
  lemma EligibleNamesPosition(b: Ballot, e: Election, q: nat)
    requires q > 0 && PerPosition(e.contestIds) && Eligible(b, e, true, q)
    ensures b.positionId != ""
    ensures exists c :: 0 <= c < |e.contestIds| && b.positionId + "/" <= e.contestIds[c]
    ensures QualifiedIn(e.contestIds, PositionOf(b.positionId)) ==> '/' !in b.positionId
  {
    var idxs := PositionIndices(e.contestIds, b.positionId);
    var c := idxs[0];
    assert c in idxs;
    var contest := e.contestIds[c];
    assert contest in e.contestIds && '/' in contest;
    PrefixKeepsPosition(contest, b.positionId);
    var p := b.positionId;
    if QualifiedIn(e.contestIds, PositionOf(p)) {
      assert Qualified(contest) && contest[|p|] == '/';
      forall i | 0 <= i < |p| ensures p[i] != '/' {
        assert contest[i] == p[i];
      }
    }
  }

  lemma AddedLands(b: Ballot, e: Election, position: string, q: nat)
    requires q > |e.contestIds| && q > 1 && PerPosition(e.contestIds) && InGroup(b, q)
    ensures PositionSum(e.contestIds, position, Added(b, e, true, q), |e.contestIds|)
         == if Eligible(b, e, true, q) && PositionOf(b.positionId) == position then 1 else 0
  {
    if Eligible(b, e, true, q) {
      EligibleNamesPosition(b, e, q);
      EligibleSelectsOne(b, e, q);
      hide Eligible, SlotPlaintexts, Counting.Sum;
      SpreadLands(e.contestIds, b.positionId, SlotPlaintexts(b, e, q), position);
    } else {
      PositionSumZero(e.contestIds, position, Added(b, e, true, q), |e.contestIds|);
    }
  }

  /** Eligible records of the stream whose id leads with `position`. */
  function Cast(bs: seq<Ballot>, e: Election, position: string, q: nat): nat
    requires q > 0
  {
    if bs == [] then 0
    else
      var b := bs[|bs| - 1];
      Cast(bs[..|bs| - 1], e, position, q) + if Eligible(b, e, true, q) && PositionOf(b.positionId) == position then 1 else 0
  }

  ghost predicate AllInGroup(bs: seq<Ballot>, q: nat) {
    forall i :: 0 <= i < |bs| ==> InGroup(bs[i], q)
  }

  /** The stream's votes in the contests of `position`. */
  function VotesIn(bs: seq<Ballot>, e: Election, position: string, q: nat): nat
    requires q > 0
  {
    PositionSum(e.contestIds, position, Totals(bs, e, true, q), |e.contestIds|)
  }

  /** For every stream: a position's contests hold one vote for each eligible
      record whose id leads with it, and nothing else. */
  lemma {:induction false} OneVotePerEligibleRecord(bs: seq<Ballot>, e: Election, position: string, q: nat)
    requires q > |e.contestIds| && q > 1 && PerPosition(e.contestIds) && AllInGroup(bs, q)
    ensures VotesIn(bs, e, position, q) == Cast(bs, e, position, q)
  {
    hide Eligible, Added, InGroup;
    if bs == [] {
      PositionSumZero(e.contestIds, position, Totals(bs, e, true, q), |e.contestIds|);
    } else {
      var n := |bs| - 1;
      assert forall i :: 0 <= i < n ==> bs[..n][i] == bs[i];
      OneVotePerEligibleRecord(bs[..n], e, position, q);
      AddedLands(bs[n], e, position, q);
      PositionSumAdds(e.contestIds, position, Totals(bs[..n], e, true, q), Added(bs[n], e, true, q),
                      Totals(bs, e, true, q), |e.contestIds|);
    }
  }

  // ----- records that name a longer id -------------------------------------

  /** An eligible record inside `position` that names something else. */
  predicate Stray(b: Ballot, e: Election, position: string, q: nat)
    requires q > 0
  {
    Eligible(b, e, true, q) && PositionOf(b.positionId) == position && b.positionId != position
  }

  lemma {:induction false} CastCounts(bs: seq<Ballot>, e: Election, position: string, q: nat)
    requires q > 0 && '/' !in position
    ensures Voters(bs, e, true, position, q) <= Cast(bs, e, position, q)
    ensures Voters(bs, e, true, position, q) == Cast(bs, e, position, q)
       <==> forall i :: 0 <= i < |bs| ==> !Stray(bs[i], e, position, q)
  {
    if bs != [] {
      var n := |bs| - 1;
      CastCounts(bs[..n], e, position, q);
      PositionOfPlain(position);
      hide Eligible, PositionOf;
      assert forall i :: 0 <= i < n ==> bs[..n][i] == bs[i];
      assert (forall i :: 0 <= i < |bs| ==> !Stray(bs[i], e, position, q))
        <==> (forall i :: 0 <= i < n ==> !Stray(bs[..n][i], e, position, q)) && !Stray(bs[n], e, position, q);
    }
  }

  /** So a position holds one vote per eligible record naming it exactly when no
      eligible record of the stream names a longer id inside it. */
  lemma VotersExactly(bs: seq<Ballot>, e: Election, position: string, q: nat)
    requires q > |e.contestIds| && q > 1 && PerPosition(e.contestIds) && AllInGroup(bs, q) && '/' !in position
    ensures VotesIn(bs, e, position, q) == Voters(bs, e, true, position, q)
       <==> forall i :: 0 <= i < |bs| ==> !Stray(bs[i], e, position, q)
  {
    OneVotePerEligibleRecord(bs, e, position, q);
    CastCounts(bs, e, position, q);
  }

  // ----- when the contest list allows it -----------------------------------

  /** "position/candidate" with neither part holding a slash. */
  predicate Qualified(contest: string) {
    '/' in contest && forall i, j :: 0 <= i < |contest| && 0 <= j < |contest| && contest[i] == '/' && contest[j] == '/' ==> i == j
  }

  /** The candidates of `position` hold no slash. */
  predicate QualifiedIn(contests: seq<string>, position: string) {
    forall c :: 0 <= c < |contests| && PositionOf(contests[c]) == position ==> Qualified(contests[c])
  }

  /** What a voter's client sends for the first contest below `positionId`. */
  function HonestBallot(e: Election, positionId: string, q: nat): Ballot
    requires q > 1
  {
    var idxs := PositionIndices(e.contestIds, positionId);
    Ballot(WIRE_VERSION, positionId,
           seq(|idxs|, j => WireCiphertext(Some(Identity), Some(if j == 0 then Base(q) else Identity))),
           seq(|idxs|, j requires 0 <= j < |idxs| => Some(ContextOf(e, idxs[j]))),
           Some(Some(SelectionContext(e.id, positionId, ""))),
           Some(Presentation(e.issuerKey, "", Some(PresentationContext(e.issuerKey, e.id, positionId, e.binding)))))
  }

  function ContextOf(e: Election, contest: nat): SlotContext {
    SlotContext(e.id, if contest < |e.contestIds| then e.contestIds[contest] else "", "")
  }

  lemma HonestIsEligible(e: Election, positionId: string, q: nat)
    requires q > 1 && positionId != "" && PositionIndices(e.contestIds, positionId) != []
    ensures InGroup(HonestBallot(e, positionId, q), q) && Eligible(HonestBallot(e, positionId, q), e, true, q)
  {
    var b := HonestBallot(e, positionId, q);
    var idxs := PositionIndices(e.contestIds, positionId);
    var n := |idxs|;
    DivModUnique(1, q, 0, 1);
    DivModUnique(0, q, 0, 0);
    forall j: nat | j < n ensures SlotOk(b, e, true, j, q) {
      assert idxs[j] in idxs;
      assert SlotCiphertext(b, j) == Ciphertext(Identity, if j == 0 then Base(q) else Identity);
    }
    HonestSum(Ciphertexts(b, n), e.key, q);
    SelectionMeansOne(Ciphertexts(b, n), e.key, SelectionContext(e.id, positionId, ""), q);
  }

  lemma HonestSum(cts: seq<Ciphertext>, key: Point, q: nat)
    requires q > 1 && cts != []
    requires forall j: nat :: j < |cts| ==> cts[j] == Ciphertext(Identity, if j == 0 then Base(q) else Identity)
    ensures Elements(cts, q) && Cong(Counting.Sum(Plaintexts(cts, key, q)), 1, q)
  {
    DivModUnique(1, q, 0, 1);
    DivModUnique(0, q, 0, 0);
    var ms := Plaintexts(cts, key, q);
    forall j | 0 <= j < |ms| ensures ms[j] == if j == 0 then 1 else 0 {
      assert cts[j].data.log - key.log * 0 == if j == 0 then 1 else 0;
    }
    SumZeros(ms[0 := 0]);
    SumUpdate(ms, 0, 0);
    CongIntro(1, 1, 0, q);
  }

  /** A slash in a candidate's name is a longer id to name. */
  lemma SlashGivesStray(e: Election, c: nat, q: nat) returns (id: string)
    requires q > 1 && c < |e.contestIds| && '/' in e.contestIds[c] && !Qualified(e.contestIds[c])
    ensures Stray(HonestBallot(e, id, q), e, PositionOf(e.contestIds[c]), q) && InGroup(HonestBallot(e, id, q), q)
  {
    var contest := e.contestIds[c];
    var i, j :| 0 <= i < j < |contest| && contest[i] == '/' && contest[j] == '/';
    id := contest[..j];
    assert contest[..j + 1] == id + "/";
    PrefixKeepsPosition(contest, id);
    PositionOfPlain(id);
    assert id[i] == '/';
    assert c in PositionIndices(e.contestIds, id);
    HonestIsEligible(e, id, q);
  }

  /** For a contest list: every stream gives `position` one vote per eligible
      record naming it exactly when no candidate of the position holds a slash. */
  lemma VotersWhenQualified(e: Election, position: string, q: nat)
    requires q > |e.contestIds| && q > 1 && PerPosition(e.contestIds) && '/' !in position
    ensures (forall bs: seq<Ballot> :: AllInGroup(bs, q) ==> VotesIn(bs, e, position, q) == Voters(bs, e, true, position, q))
       <==> QualifiedIn(e.contestIds, position)
  {
    hide Eligible, InGroup, VotesIn, Voters, Qualified, PositionOf;
    if QualifiedIn(e.contestIds, position) {
      forall bs: seq<Ballot> | AllInGroup(bs, q) ensures VotesIn(bs, e, position, q) == Voters(bs, e, true, position, q) {
        forall i | 0 <= i < |bs| ensures !Stray(bs[i], e, position, q) {
          NoStray(bs[i], e, position, q);
        }
        VotersExactly(bs, e, position, q);
      }
    } else {
      var c: nat :| c < |e.contestIds| && PositionOf(e.contestIds[c]) == position && !Qualified(e.contestIds[c]);
      var id := SlashGivesStray(e, c, q);
      var bs := [HonestBallot(e, id, q)];
      assert Stray(bs[0], e, position, q) && AllInGroup(bs, q);
      VotersExactly(bs, e, position, q);
    }
  }

  lemma NoStray(b: Ballot, e: Election, position: string, q: nat)
    requires q > 0 && PerPosition(e.contestIds) && QualifiedIn(e.contestIds, position)
    ensures !Stray(b, e, position, q)
  {
    if Stray(b, e, position, q) {
      EligibleNamesPosition(b, e, q);
      PositionOfPlain(b.positionId);
    }
  }
}
