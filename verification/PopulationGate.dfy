/** The gate a generated population must pass before it reaches the network. */
module PopulationGate {
  import opened Wrappers
  import opened Labels
  import opened Counting

  datatype Ballot = Ballot(ciphertexts: nat, proofs: nat, positionId: string, nullifier: Option<string>)

  datatype Fixture = Fixture(ballots: seq<Ballot>, voterIds: seq<string>, groundTruth: seq<nat>)

  datatype Violation =
    | BallotCount | VoterIdCount | GroundTruthCount | BallotShape(i: nat) | UnknownPosition(i: nat) | NoNullifier(i: nat)
    | Replay(i: nat) | RepeatedVoter(i: nat) | PositionCount(p: nat) | PositionTruth(p: nat) | VoterOccurrences | VoterCount

  /** The position a name belongs to, among the first n. */
  function LabelIndex(name: string, n: nat): (r: Option<nat>)
    ensures r.Some? ==> r.value < n && PositionId(r.value) == name
    ensures r.None? ==> forall p: nat :: p < n ==> PositionId(p) != name
  {
    if n == 0 then None else if PositionId(n - 1) == name then Some(n - 1) else LabelIndex(name, n - 1)
  }

  predicate InPlace(f: Fixture, i: nat, p: nat)
    requires i < |f.ballots|
  {
    f.ballots[i].positionId == PositionId(p)
  }

  /** Ballots among the first n that are in position p. */
  function InPosition(f: Fixture, n: nat, p: nat): nat
    requires n <= |f.ballots|
  {
    if n == 0 then 0 else InPosition(f, n - 1, p) + if InPlace(f, n - 1, p) then 1 else 0
  }

  /** Ballots among the first n cast by voter id. */
  function CastBy(f: Fixture, n: nat, id: string): nat
    requires n <= |f.ballots| == |f.voterIds|
  {
    if n == 0 then 0 else CastBy(f, n - 1, id) + if f.voterIds[n - 1] == id then 1 else 0
  }

  /** Ballots among the first n cast by voter id in position p. */
  function CastIn(f: Fixture, n: nat, id: string, p: nat): nat
    requires n <= |f.ballots| == |f.voterIds|
  {
    if n == 0 then 0
    else CastIn(f, n - 1, id, p) + if f.voterIds[n - 1] == id && InPlace(f, n - 1, p) then 1 else 0
  }

  /** CastIn summed over the first `positions` positions. */
  function CastAcross(f: Fixture, n: nat, id: string, positions: nat): nat
    requires n <= |f.ballots| == |f.voterIds|
  {
    if positions == 0 then 0 else CastAcross(f, n, id, positions - 1) + CastIn(f, n, id, positions - 1)
  }

  predicate WellFormed(f: Fixture, i: nat, positions: nat, candidates: nat)
    requires i < |f.ballots|
  {
    && f.ballots[i].ciphertexts == candidates && f.ballots[i].proofs == candidates
    && LabelIndex(f.ballots[i].positionId, positions).Some? && f.ballots[i].nullifier.Some?
  }

  /** The first n ballots are well formed, replay no nullifier, and no voter is
      twice in a position. */
  ghost predicate CleanUpTo(f: Fixture, n: nat, positions: nat, candidates: nat)
    requires n <= |f.ballots| == |f.voterIds|
  {
    && (forall i: nat :: i < n ==> WellFormed(f, i, positions, candidates))
    && (forall i: nat, j: nat :: i < j < n ==> f.ballots[i].nullifier != f.ballots[j].nullifier)
    && forall i: nat, j: nat :: i < j < n ==>
         !(f.voterIds[i] == f.voterIds[j] && f.ballots[i].positionId == f.ballots[j].positionId)
  }

  function Voters(f: Fixture): set<string> {
    set i | 0 <= i < |f.voterIds| :: f.voterIds[i]
  }

  /** What the gate checks. */
  ghost predicate Passes(f: Fixture, voters: nat, positions: nat, candidates: nat) {
    && |f.ballots| == voters * positions && |f.voterIds| == |f.ballots| && |f.groundTruth| == positions * candidates
    && CleanUpTo(f, |f.ballots|, positions, candidates)
    && (forall p: nat :: p < positions ==> PositionOk(f, p, voters, candidates))
    && (forall id :: id in Voters(f) ==> CastBy(f, |f.ballots|, id) == positions)
    && |Voters(f)| == voters
  }

  /** Position p holds `voters` ballots, and its ground truth as many votes. */
  predicate PositionOk(f: Fixture, p: nat, voters: nat, candidates: nat) {
    InPosition(f, |f.ballots|, p) == voters && PositionTruthOk(f, p, voters, candidates)
  }

  predicate PositionTruthOk(f: Fixture, p: nat, voters: nat, candidates: nat) {
    p * candidates + candidates <= |f.groundTruth| && Sum(f.groundTruth[p * candidates..p * candidates + candidates]) == voters
  }

  // ----- the pigeonhole ----------------------------------------------------

  lemma {:induction false} NeverTwice(f: Fixture, n: nat, id: string, p: nat)
    requires n <= |f.ballots| == |f.voterIds|
    requires forall i: nat, j: nat :: i < j < n ==>
               !(f.voterIds[i] == f.voterIds[j] && f.ballots[i].positionId == f.ballots[j].positionId)
    ensures CastIn(f, n, id, p) <= 1
    ensures CastIn(f, n, id, p) == 1 <==> exists i: nat :: i < n && f.voterIds[i] == id && InPlace(f, i, p)
  {
    if n > 0 {
      NeverTwice(f, n - 1, id, p);
    }
  }

  /** Each position is named once. */
  lemma LabelStep(name: string, positions: nat)
    ensures LabelIndex(name, positions + 1).Some? <==> LabelIndex(name, positions).Some? || name == PositionId(positions)
    ensures LabelIndex(name, positions).Some? ==> name != PositionId(positions)
  {
    var at := LabelIndex(name, positions);
    if at.Some? && name == PositionId(positions) {
      PositionIdInjective(at.value, positions);
    }
  }

  lemma CastStep(f: Fixture, n: nat, id: string, p: nat)
    requires n < |f.ballots| == |f.voterIds|
    ensures CastBy(f, n + 1, id) == CastBy(f, n, id) + if f.voterIds[n] == id then 1 else 0
    ensures CastIn(f, n + 1, id, p)
         == CastIn(f, n, id, p) + if f.voterIds[n] == id && f.ballots[n].positionId == PositionId(p) then 1 else 0
  {
    hide PositionId;
  }

  lemma AcrossUnfold(f: Fixture, n: nat, id: string, positions: nat)
    requires n <= |f.ballots| == |f.voterIds|
    ensures CastAcross(f, n, id, positions + 1) == CastAcross(f, n, id, positions) + CastIn(f, n, id, positions)
    ensures CastAcross(f, n, id, 0) == 0
  {
    hide CastIn;
  }

  lemma {:induction false} AcrossStep(f: Fixture, n: nat, id: string, positions: nat)
    requires n < |f.ballots| == |f.voterIds|
    ensures CastAcross(f, n + 1, id, positions)
         == CastAcross(f, n, id, positions)
            + if f.voterIds[n] == id && LabelIndex(f.ballots[n].positionId, positions).Some? then 1 else 0
  {
    hide CastAcross, CastIn, PositionId, LabelIndex;
    if positions > 0 {
      var p := positions - 1;
      AcrossStep(f, n, id, p);
      AcrossUnfold(f, n, id, p);
      AcrossUnfold(f, n + 1, id, p);
      CastStep(f, n, id, p);
      LabelStep(f.ballots[n].positionId, p);
    } else {
      AcrossUnfold(f, n, id, 0);
      AcrossUnfold(f, n + 1, id, 0);
    }
  }

  lemma {:induction false} AcrossIsAll(f: Fixture, n: nat, id: string, positions: nat)
    requires n <= |f.ballots| == |f.voterIds|
    requires forall i: nat :: i < n ==> LabelIndex(f.ballots[i].positionId, positions).Some?
    ensures CastAcross(f, n, id, positions) == CastBy(f, n, id)
  {
    hide LabelIndex, PositionId, CastAcross, CastIn;
    if n == 0 {
      NothingAcross(f, id, positions);
    } else {
      AcrossIsAll(f, n - 1, id, positions);
      AcrossStep(f, n - 1, id, positions);
      CastStep(f, n - 1, id, 0);
      assert LabelIndex(f.ballots[n - 1].positionId, positions).Some?;
    }
  }

  lemma {:induction false} NothingAcross(f: Fixture, id: string, positions: nat)
    requires |f.ballots| == |f.voterIds|
    ensures CastAcross(f, 0, id, positions) == 0
  {
    if positions > 0 {
      NothingAcross(f, id, positions - 1);
    }
  }

  /** `positions` counts of at most 1 that add up to `positions` are all 1. */
  lemma {:induction false} AllOnes(f: Fixture, n: nat, id: string, positions: nat, p: nat)
    requires n <= |f.ballots| == |f.voterIds| && p < positions
    requires forall k: nat :: k < positions ==> CastIn(f, n, id, k) <= 1
    requires CastAcross(f, n, id, positions) == positions
    ensures CastIn(f, n, id, p) == 1
  {
    AtMost(f, n, id, positions - 1);
    if p < positions - 1 {
      AllOnes(f, n, id, positions - 1, p);
    }
  }

  lemma {:induction false} AtMost(f: Fixture, n: nat, id: string, positions: nat)
    requires n <= |f.ballots| == |f.voterIds| && forall k: nat :: k < positions ==> CastIn(f, n, id, k) <= 1
    ensures CastAcross(f, n, id, positions) <= positions
  {
    if positions > 0 {
      AtMost(f, n, id, positions - 1);
    }
  }

  /** A population that passes is a perfect grid: every one of its voters has
      exactly one ballot in every position. */
  lemma PassingIsAGrid(f: Fixture, voters: nat, positions: nat, candidates: nat, id: string, p: nat)
    requires Passes(f, voters, positions, candidates) && id in Voters(f) && p < positions
    ensures exists i: nat :: i < |f.ballots| && f.voterIds[i] == id && InPlace(f, i, p)
    ensures forall i: nat, j: nat ::
              i < |f.ballots| && j < |f.ballots| && f.voterIds[i] == id == f.voterIds[j] && InPlace(f, i, p) && InPlace(f, j, p)
              ==> i == j
  {
    var n := |f.ballots|;
    forall i: nat | i < n ensures LabelIndex(f.ballots[i].positionId, positions).Some? {
      assert WellFormed(f, i, positions, candidates);
    }
    forall k: nat | k < positions ensures CastIn(f, n, id, k) <= 1 {
      NeverTwice(f, n, id, k);
    }
    AcrossIsAll(f, n, id, positions);
    AllOnes(f, n, id, positions, p);
    NeverTwice(f, n, id, p);
  }

  // ----- the gate ----------------------------------------------------------

  /** What the loop keeps after the first n ballots. */
  ghost predicate Tallied(f: Fixture, n: nat, positions: nat, candidates: nat, nullifiers: set<string>, perPosition: seq<nat>,
                          ids: seq<set<string>>, occurrences: map<string, nat>)
    requires n <= |f.ballots| == |f.voterIds|
  {
    && CleanUpTo(f, n, positions, candidates)
    && |perPosition| == |ids| == positions
    && (forall x :: x in nullifiers <==> exists i: nat :: i < n && f.ballots[i].nullifier == Some(x))
    && (forall p: nat :: p < positions ==> perPosition[p] == InPosition(f, n, p))
    && (forall p: nat, id :: p < positions ==> (id in ids[p] <==> exists i: nat :: i < n && f.voterIds[i] == id && InPlace(f, i, p)))
    && (forall id :: id in occurrences <==> id in f.voterIds[..n])
    && forall id :: id in occurrences ==> occurrences[id] == CastBy(f, n, id)
  }

  method ValidatePopulation(f: Fixture, voters: nat, positions: nat, candidates: nat) returns (violation: Option<Violation>)
    ensures violation.None? <==> Passes(f, voters, positions, candidates)
  {
    hide CleanUpTo, Tallied, PositionTruthOk, WellFormed;
    if |f.ballots| != voters * positions {
      return Some(BallotCount);
    }
    if |f.voterIds| != |f.ballots| {
      return Some(VoterIdCount);
    }
    if |f.groundTruth| != positions * candidates {
      return Some(GroundTruthCount);
    }
    var n := |f.ballots|;
    var nullifiers: set<string> := {};
    var perPosition: seq<nat> := seq(positions, _ => 0);
    var ids: seq<set<string>> := seq(positions, _ => {});
    var occurrences: map<string, nat> := map[];
    NothingTallied(f, positions, candidates, perPosition, ids);
    var i := 0;
    while i < n
      invariant 0 <= i <= n && Tallied(f, i, positions, candidates, nullifiers, perPosition, ids, occurrences)
    {
      violation, nullifiers, perPosition, ids, occurrences :=
        ReadBallot(f, i, positions, candidates, nullifiers, perPosition, ids, occurrences);
      if violation.Some? {
        NotCleanLater(f, i + 1, n, positions, candidates);
        return;
      }
      i := i + 1;
    }
    TalliedIsClean(f, n, positions, candidates, nullifiers, perPosition, ids, occurrences);
    violation := CheckPositions(f, voters, positions, candidates, perPosition);
    if violation.None? {
      violation := CheckVoters(f, voters, positions, candidates, nullifiers, perPosition, ids, occurrences);
    }
  }

  lemma TalliedIsClean(f: Fixture, n: nat, positions: nat, candidates: nat, nullifiers: set<string>, perPosition: seq<nat>,
                       ids: seq<set<string>>, occurrences: map<string, nat>)
    requires n <= |f.ballots| == |f.voterIds|
    requires Tallied(f, n, positions, candidates, nullifiers, perPosition, ids, occurrences)
    ensures CleanUpTo(f, n, positions, candidates)
    ensures |perPosition| == positions && forall p: nat :: p < positions ==> perPosition[p] == InPosition(f, n, p)
  {
  }

  method CheckPositions(f: Fixture, voters: nat, positions: nat, candidates: nat, perPosition: seq<nat>)
    returns (violation: Option<Violation>)
    requires |f.groundTruth| == positions * candidates && |perPosition| == positions
    requires forall p: nat :: p < positions ==> perPosition[p] == InPosition(f, |f.ballots|, p)
    ensures violation.None? <==> forall p: nat :: p < positions ==> PositionOk(f, p, voters, candidates)
  {
    hide InPosition, PositionOk, Sum, PositionTruthOk;
    var p := 0;
    while p < positions
      invariant 0 <= p <= positions
      invariant forall k: nat :: k < p ==> PositionOk(f, k, voters, candidates)
    {
      assert perPosition[p] == InPosition(f, |f.ballots|, p);
      PositionMeans(f, p, voters, positions, candidates);
      if perPosition[p] != voters {
        return Some(PositionCount(p));
      }
      var lo := p * candidates;
      if Sum(f.groundTruth[lo..lo + candidates]) != voters {
        return Some(PositionTruth(p));
      }
      p := p + 1;
    }
    violation := None;
  }

  lemma PositionMeans(f: Fixture, p: nat, voters: nat, positions: nat, candidates: nat)
    requires p < positions && |f.groundTruth| == positions * candidates
    ensures p * candidates + candidates <= |f.groundTruth|
    ensures PositionOk(f, p, voters, candidates)
       <==> InPosition(f, |f.ballots|, p) == voters && Sum(f.groundTruth[p * candidates..p * candidates + candidates]) == voters
  {
    hide InPosition, Sum;
    SliceFits(p, positions, candidates);
  }

  lemma SliceFits(p: nat, positions: nat, candidates: nat)
    requires p < positions
    ensures p * candidates + candidates <= positions * candidates
  {
    if candidates > 0 {
      SlotBound(p, candidates - 1, positions, candidates);
    }
  }

  method CheckVoters(f: Fixture, voters: nat, positions: nat, candidates: nat, ghost nullifiers: set<string>,
                     ghost perPosition: seq<nat>, ghost ids: seq<set<string>>, occurrences: map<string, nat>)
    returns (violation: Option<Violation>)
    requires |f.ballots| == |f.voterIds|
    requires Tallied(f, |f.ballots|, positions, candidates, nullifiers, perPosition, ids, occurrences)
    ensures violation.None? <==>
              (forall id :: id in Voters(f) ==> CastBy(f, |f.ballots|, id) == positions) && |Voters(f)| == voters
  {
    assert f.voterIds[..|f.ballots|] == f.voterIds;
    assert occurrences.Keys == Voters(f);
    assert forall id :: id in occurrences ==> occurrences[id] == CastBy(f, |f.ballots|, id);
    hide Tallied, CastBy, Voters;
    var left := occurrences.Keys;
    while left != {}
      invariant left <= occurrences.Keys
      invariant forall id :: id in occurrences.Keys - left ==> occurrences[id] == positions
      decreases |left|
    {
      var id :| id in left;
      if occurrences[id] != positions {
        return Some(VoterOccurrences);
      }
      left := left - {id};
    }
    if |occurrences| != voters {
      assert |occurrences| == |occurrences.Keys|;
      return Some(VoterCount);
    }
    violation := None;
  }

  lemma NothingTallied(f: Fixture, positions: nat, candidates: nat, perPosition: seq<nat>, ids: seq<set<string>>)
    requires |f.ballots| == |f.voterIds| && |perPosition| == |ids| == positions
    requires forall p: nat :: p < positions ==> perPosition[p] == 0 && ids[p] == {}
    ensures Tallied(f, 0, positions, candidates, {}, perPosition, ids, map[])
  {
  }

  lemma NotCleanLater(f: Fixture, m: nat, n: nat, positions: nat, candidates: nat)
    requires m <= n <= |f.ballots| == |f.voterIds| && !CleanUpTo(f, m, positions, candidates)
    ensures !CleanUpTo(f, n, positions, candidates)
  {
  }

  /** Ballot i: a violation exactly when it spoils the clean prefix. */
  method ReadBallot(f: Fixture, i: nat, positions: nat, candidates: nat, nullifiersBefore: set<string>, countsBefore: seq<nat>,
                    idsBefore: seq<set<string>>, occurrencesBefore: map<string, nat>)
    returns (violation: Option<Violation>, nullifiers: set<string>, perPosition: seq<nat>, ids: seq<set<string>>,
             occurrences: map<string, nat>)
    requires i < |f.ballots| == |f.voterIds|
    requires Tallied(f, i, positions, candidates, nullifiersBefore, countsBefore, idsBefore, occurrencesBefore)
    ensures violation.Some? <==> !CleanUpTo(f, i + 1, positions, candidates)
    ensures violation.None? ==> Tallied(f, i + 1, positions, candidates, nullifiers, perPosition, ids, occurrences)
  {
    hide Tallied, CleanUpTo, PositionId;
    nullifiers, perPosition, ids, occurrences := nullifiersBefore, countsBefore, idsBefore, occurrencesBefore;
    var b := f.ballots[i];
    BallotSpoils(f, i, positions, candidates, nullifiersBefore, countsBefore, idsBefore, occurrencesBefore);
    if b.ciphertexts != candidates || b.proofs != candidates {
      return Some(BallotShape(i)), nullifiers, perPosition, ids, occurrences;
    }
    var at := LabelIndex(b.positionId, positions);
    if at.None? {
      return Some(UnknownPosition(i)), nullifiers, perPosition, ids, occurrences;
    }
    var position := at.value;
    perPosition := perPosition[position := perPosition[position] + 1];
    if b.nullifier.None? {
      return Some(NoNullifier(i)), nullifiers, perPosition, ids, occurrences;
    }
    if b.nullifier.value in nullifiers {
      return Some(Replay(i)), nullifiers, perPosition, ids, occurrences;
    }
    nullifiers := nullifiers + {b.nullifier.value};
    var voter := f.voterIds[i];
    occurrences := occurrences[voter := (if voter in occurrences then occurrences[voter] else 0) + 1];
    if voter in ids[position] {
      return Some(RepeatedVoter(i)), nullifiers, perPosition, ids, occurrences;
    }
    ids := ids[position := ids[position] + {voter}];
    violation := None;
    assert InPlace(f, i, position);
    BallotTallied(f, i, positions, candidates, position, nullifiersBefore, countsBefore, idsBefore, occurrencesBefore,
                  nullifiers, perPosition, ids, occurrences);
    TalliedIsClean(f, i + 1, positions, candidates, nullifiers, perPosition, ids, occurrences);
  }

  /** The ways in which ballot i spoils a clean prefix. */
  lemma BallotSpoils(f: Fixture, i: nat, positions: nat, candidates: nat, nullifiers: set<string>, perPosition: seq<nat>,
                     ids: seq<set<string>>, occurrences: map<string, nat>)
    requires i < |f.ballots| == |f.voterIds|
    requires Tallied(f, i, positions, candidates, nullifiers, perPosition, ids, occurrences)
    ensures |perPosition| == |ids| == positions
    ensures !WellFormed(f, i, positions, candidates) ==> !CleanUpTo(f, i + 1, positions, candidates)
    ensures f.ballots[i].nullifier.Some? && f.ballots[i].nullifier.value in nullifiers ==>
              !CleanUpTo(f, i + 1, positions, candidates)
    ensures var at := LabelIndex(f.ballots[i].positionId, positions);
            at.Some? && f.voterIds[i] in ids[at.value] ==> !CleanUpTo(f, i + 1, positions, candidates)
  {
    hide WellFormed, PositionId, InPosition, CastBy;
    var at := LabelIndex(f.ballots[i].positionId, positions);
    if at.Some? && f.voterIds[i] in ids[at.value] {
      var j: nat :| j < i && f.voterIds[j] == f.voterIds[i] && InPlace(f, j, at.value);
      assert f.ballots[j].positionId == f.ballots[i].positionId;
    }
  }

  lemma BallotTallied(f: Fixture, i: nat, positions: nat, candidates: nat, position: nat,
                      n0: set<string>, c0: seq<nat>, s0: seq<set<string>>, o0: map<string, nat>,
                      n1: set<string>, c1: seq<nat>, s1: seq<set<string>>, o1: map<string, nat>)
    requires i < |f.ballots| == |f.voterIds| && Tallied(f, i, positions, candidates, n0, c0, s0, o0)
    requires WellFormed(f, i, positions, candidates) && position < positions && InPlace(f, i, position)
    requires f.ballots[i].nullifier.value !in n0 && n1 == n0 + {f.ballots[i].nullifier.value}
    requires f.voterIds[i] !in s0[position] && s1 == s0[position := s0[position] + {f.voterIds[i]}]
    requires c1 == c0[position := c0[position] + 1]
    requires o1 == o0[f.voterIds[i] := (if f.voterIds[i] in o0 then o0[f.voterIds[i]] else 0) + 1]
    ensures Tallied(f, i + 1, positions, candidates, n1, c1, s1, o1)
  {
    hide CleanUpTo, InPosition, CastBy, InPlace, WellFormed, LabelIndex, PositionId;
    assert f.ballots[i].nullifier.Some? by {
      Nullified(f, i, positions, candidates);
    }
    BallotClean(f, i, positions, candidates, position, n0, s0);
    BallotCounted(f, i, positions, position, c0, c1);
    BallotSeen(f, i, positions, position, s0, s1);
    BallotOwned(f, i, o0, o1);
  }

  lemma BallotClean(f: Fixture, i: nat, positions: nat, candidates: nat, position: nat, nullifiers: set<string>, ids: seq<set<string>>)
    requires i < |f.ballots| == |f.voterIds| && CleanUpTo(f, i, positions, candidates)
    requires WellFormed(f, i, positions, candidates) && position < |ids| && InPlace(f, i, position)
    requires forall x :: x in nullifiers <==> exists k: nat :: k < i && f.ballots[k].nullifier == Some(x)
    requires forall id :: id in ids[position] <==> exists k: nat :: k < i && f.voterIds[k] == id && InPlace(f, k, position)
    requires f.ballots[i].nullifier.value !in nullifiers && f.voterIds[i] !in ids[position]
    ensures CleanUpTo(f, i + 1, positions, candidates)
  {
    hide WellFormed;
    assert f.ballots[i].nullifier.Some? by {
      Nullified(f, i, positions, candidates);
    }
    forall k: nat | k < i
      ensures f.ballots[k].nullifier != f.ballots[i].nullifier
           && !(f.voterIds[k] == f.voterIds[i] && f.ballots[k].positionId == f.ballots[i].positionId)
    {
      if f.ballots[k].positionId == f.ballots[i].positionId {
        assert InPlace(f, k, position);
      }
    }
  }

  lemma Nullified(f: Fixture, i: nat, positions: nat, candidates: nat)
    requires i < |f.ballots| && WellFormed(f, i, positions, candidates)
    ensures f.ballots[i].nullifier.Some?
  {
  }

  lemma BallotCounted(f: Fixture, i: nat, positions: nat, position: nat, counts: seq<nat>, after: seq<nat>)
    requires i < |f.ballots| && position < positions == |counts| && InPlace(f, i, position)
    requires forall p: nat :: p < positions ==> counts[p] == InPosition(f, i, p)
    requires after == counts[position := counts[position] + 1]
    ensures forall p: nat :: p < positions ==> after[p] == InPosition(f, i + 1, p)
  {
    forall p: nat | p < positions && p != position ensures !InPlace(f, i, p) {
      if InPlace(f, i, p) {
        PositionIdInjective(p, position);
      }
    }
  }

  lemma BallotSeen(f: Fixture, i: nat, positions: nat, position: nat, ids: seq<set<string>>, after: seq<set<string>>)
    requires i < |f.ballots| == |f.voterIds| && position < positions == |ids| && InPlace(f, i, position)
    requires forall p: nat, id :: p < positions ==>
               (id in ids[p] <==> exists k: nat :: k < i && f.voterIds[k] == id && InPlace(f, k, p))
    requires after == ids[position := ids[position] + {f.voterIds[i]}]
    ensures forall p: nat, id :: p < positions ==>
              (id in after[p] <==> exists k: nat :: k < i + 1 && f.voterIds[k] == id && InPlace(f, k, p))
  {
    forall p: nat | p < positions && p != position ensures !InPlace(f, i, p) {
      if InPlace(f, i, p) {
        PositionIdInjective(p, position);
      }
    }
    hide InPlace;
  }

  lemma BallotOwned(f: Fixture, i: nat, before: map<string, nat>, after: map<string, nat>)
    requires i < |f.ballots| == |f.voterIds|
    requires forall id :: id in before <==> id in f.voterIds[..i]
    requires forall id :: id in before ==> before[id] == CastBy(f, i, id)
    requires var voter := f.voterIds[i]; after == before[voter := (if voter in before then before[voter] else 0) + 1]
    ensures forall id :: id in after <==> id in f.voterIds[..i + 1]
    ensures forall id :: id in after ==> after[id] == CastBy(f, i + 1, id)
  {
    hide CastBy;
    assert f.voterIds[..i + 1] == f.voterIds[..i] + [f.voterIds[i]];
    NeverCast(f, i, f.voterIds[i]);
    forall id | id in after ensures after[id] == CastBy(f, i + 1, id) {
      CastByStep(f, i, id);
    }
  }

  lemma CastByStep(f: Fixture, n: nat, id: string)
    requires n < |f.ballots| == |f.voterIds|
    ensures CastBy(f, n + 1, id) == CastBy(f, n, id) + if f.voterIds[n] == id then 1 else 0
  {
  }

  lemma {:induction false} NeverCast(f: Fixture, n: nat, id: string)
    requires n <= |f.ballots| == |f.voterIds|
    ensures id !in f.voterIds[..n] ==> CastBy(f, n, id) == 0
  {
    if n > 0 && id !in f.voterIds[..n] {
      assert f.voterIds[..n] == f.voterIds[..n - 1] + [f.voterIds[n - 1]];
      NeverCast(f, n - 1, id);
    }
  }
}
