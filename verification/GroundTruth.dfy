/** The ground-truth tables, written per voter range without any cryptography,
    and their agreement with what an election of the same plan publishes. */
module GroundTruth {
  import opened Wrappers
  import opened ModArith
  import opened Counting
  import opened Apportionment
  import opened Population
  import opened Dkg
  import opened Election
  import opened Labels

  /** The plan can answer every voter. */
  predicate Usable(plan: SelectionPlan) {
    plan.candidates >= 1 && plan.voters >= 1
    && (plan.profile.RealisticProfile? && plan.candidates > 1 ==> |plan.cum| > 0)
  }

  /** One voter's choices, position by position. */
  function Row(plan: SelectionPlan, v: nat, positions: nat): (row: seq<nat>)
    requires Usable(plan)
    ensures |row| == positions && forall p :: 0 <= p < positions ==> row[p] == Select(plan, v, p) < plan.candidates
  {
    seq(positions, p requires 0 <= p => Select(plan, v, p))
  }

  /** The rows of voters lo..hi. */
  function Rows(plan: SelectionPlan, lo: nat, hi: nat, positions: nat): (rows: seq<seq<nat>>)
    requires Usable(plan) && lo <= hi
    ensures |rows| == hi - lo && forall i :: 0 <= i < hi - lo ==> rows[i] == Row(plan, lo + i, positions)
  {
    seq(hi - lo, i requires 0 <= i => Row(plan, lo + i, positions))
  }

  datatype TableError = EmptyDimensions | BadRange

  datatype Table = Table(rows: seq<seq<nat>>, counts: seq<nat>)

  /** Rows and per-contest counts of the voters in [from, to). */
  method WriteGroundTruthRange(plan: SelectionPlan, positions: nat, from: nat, to: nat) returns (r: Result<Table, TableError>)
    requires plan.profile.RealisticProfile? && plan.candidates > 1 ==> |plan.cum| == positions
    ensures r.Ok? <==> plan.voters >= 1 && positions >= 1 && plan.candidates >= 1 && from < to <= plan.voters
    ensures r.Ok? ==> r.value.rows == Rows(plan, from, to, positions)
    ensures r.Ok? ==> |r.value.counts| == positions * plan.candidates
    ensures r.Ok? ==> forall c: nat :: c < |r.value.counts| ==>
              r.value.counts[c] == Votes(r.value.rows, c, plan.candidates)
  {
    if plan.voters < 1 || positions < 1 || plan.candidates < 1 {
      return Err(EmptyDimensions);
    }
    if from >= to || to > plan.voters {
      return Err(BadRange);
    }
    hide Select, Mark;
    var candidates := plan.candidates;
    var counts: seq<nat> := seq(positions * candidates, _ => 0);
    var rows: seq<seq<nat>> := [];
    var v := from;
    while v < to
      invariant from <= v <= to && |counts| == positions * candidates
      invariant rows == Rows(plan, from, v, positions)
      invariant forall c: nat :: c < |counts| ==> counts[c] == Votes(rows, c, candidates)
    {
      var row := Row(plan, v, positions);
      counts := CountRow(row, counts, candidates);
      assert (rows + [row])[..|rows|] == rows;
      rows := rows + [row];
      v := v + 1;
    }
    r := Ok(Table(rows, counts));
  }

  /** Adds one voter's choices to the counts. */
  method CountRow(row: seq<nat>, before: seq<nat>, candidates: nat) returns (counts: seq<nat>)
    requires candidates > 0 && |before| == |row| * candidates
    requires forall p :: 0 <= p < |row| ==> row[p] < candidates
    ensures |counts| == |before|
    ensures forall c: nat :: c < |before| ==> counts[c] == before[c] + Mark(row, c, candidates)
  {
    counts := before;
    var p := 0;
    while p < |row|
      invariant 0 <= p <= |row| && |counts| == |before|
      invariant forall c: nat :: c < |before| ==>
                  counts[c] == before[c] + Counted(row, p, c, candidates)
    {
      SlotBound(p, row[p], |row|, candidates);
      var slot := p * candidates + row[p];
      forall c: nat | c < |before|
        ensures Counted(row, p + 1, c, candidates) == Counted(row, p, c, candidates) + if c == slot then 1 else 0
      {
        CountedStep(row, p, c, candidates);
      }
      counts := counts[slot := counts[slot] + 1];
      p := p + 1;
    }
    assert forall c: nat :: c < |before| ==> Counted(row, |row|, c, candidates) == Mark(row, c, candidates);
  }

  function Counted(row: seq<nat>, p: nat, c: nat, candidates: nat): nat
    requires candidates > 0
  {
    if c / candidates < p then Mark(row, c, candidates) else 0
  }

  lemma CountedStep(row: seq<nat>, p: nat, c: nat, candidates: nat)
    requires candidates > 0 && p < |row| && row[p] < candidates
    ensures Counted(row, p + 1, c, candidates) == Counted(row, p, c, candidates)
                                                + if c == p * candidates + row[p] then 1 else 0
  {
    SlotIs(p, row[p], c, candidates);
  }

  // ----- counts of rows are counts of voters -------------------------------

  lemma {:induction false} VotesAreCounts(plan: SelectionPlan, lo: nat, hi: nat, positions: nat, p: nat, k: nat, picks: nat -> bool)
    requires Usable(plan) && lo <= hi && p < positions && k < plan.candidates
    requires forall v: nat :: picks(v) <==> Select(plan, v, p) == k
    ensures Votes(Rows(plan, lo, hi, positions), p * plan.candidates + k, plan.candidates) == Count(lo, hi, picks)
  {
    hide Select;
    if lo < hi {
      var rows := Rows(plan, lo, hi, positions);
      VotesAreCounts(plan, lo, hi - 1, positions, p, k, picks);
      assert rows[..|rows| - 1] == Rows(plan, lo, hi - 1, positions);
      MarkAt(Row(plan, hi - 1, positions), p, k, plan.candidates);
    }
  }

  // ----- precincts ---------------------------------------------------------

  /** Where the last range ends; `start` without any. */
  function End(start: nat, cuts: seq<nat>): nat {
    if cuts == [] then start else cuts[|cuts| - 1]
  }

  /** Consecutive, non-empty voter ranges from `start` on, each ending at a cut. */
  predicate Consecutive(start: nat, cuts: seq<nat>) {
    cuts == [] || (Consecutive(start, cuts[..|cuts| - 1]) && End(start, cuts[..|cuts| - 1]) < cuts[|cuts| - 1])
  }

  /** Sum over the precincts of the count each one reports for contest c. */
  function ReportedCount(plan: SelectionPlan, start: nat, cuts: seq<nat>, positions: nat, c: nat): nat
    requires Usable(plan) && Consecutive(start, cuts)
  {
    if cuts == [] then 0
    else
      var n := |cuts| - 1;
      ReportedCount(plan, start, cuts[..n], positions, c)
      + Votes(Rows(plan, End(start, cuts[..n]), cuts[n], positions), c, plan.candidates)
  }

  lemma {:induction false} PrecinctsAddUp(plan: SelectionPlan, start: nat, cuts: seq<nat>, positions: nat, p: nat, k: nat, picks: nat -> bool)
    requires Usable(plan) && Consecutive(start, cuts) && p < positions && k < plan.candidates
    requires forall v: nat :: picks(v) <==> Select(plan, v, p) == k
    ensures start <= End(start, cuts)
    ensures ReportedCount(plan, start, cuts, positions, p * plan.candidates + k) == Count(start, End(start, cuts), picks)
  {
    hide Select, Votes;
    if cuts != [] {
      var n := |cuts| - 1;
      var lo := End(start, cuts[..n]);
      PrecinctsAddUp(plan, start, cuts[..n], positions, p, k, picks);
      CountSplit(start, lo, cuts[n], picks);
      VotesAreCounts(plan, lo, cuts[n], positions, p, k, picks);
    }
  }

  /** However the electorate is cut into precincts, the reported counts of each
      candidate add up to that candidate's quota. */
  lemma PrecinctsReportQuotas(plan: SelectionPlan, cuts: seq<nat>, positions: nat, p: nat, k: nat)
    requires PlanFor(plan, RealisticProfile, plan.voters, positions, plan.candidates)
    requires plan.voters >= 1 && plan.candidates >= 2 && p < positions && k < plan.candidates
    requires Consecutive(0, cuts) && End(0, cuts) == plan.voters
    ensures Usable(plan)
    ensures ReportedCount(plan, 0, cuts, positions, p * plan.candidates + k) == Quotas(plan.voters, plan.candidates, p)[k]
  {
    var picks: nat -> bool := (v: nat) => Select(plan, v, p) == k;
    PrecinctsAddUp(plan, 0, cuts, positions, p, k, picks);
    QuotaFilled(plan, positions, p, k, picks);
  }

  // ----- the tables and the cryptography agree -----------------------------

  lemma RowsComplete(plan: SelectionPlan, positions: nat)
    requires Usable(plan)
    ensures Complete(Rows(plan, 0, plan.voters, positions), positions, plan.candidates)
  {
  }

  /** An election generated under the realistic profile publishes exactly the quotas. */
  method RealisticElection(params: GenParams, voters: nat, dealers: seq<Polynomial>, binding: string,
                           randomness: (nat, nat) -> int, q: nat)
    returns (totals: seq<nat>)
    requires q > 1 && Prime(q) && voters >= 1 && params.positions >= 1 && params.candidates >= 2
    requires 1 <= params.threshold <= params.trustees < q && voters * params.positions < q
    requires |dealers| == params.trustees && forall d :: d in dealers ==> |d| == params.threshold && Canonical(d, q)
    ensures |totals| == params.positions * params.candidates
    ensures forall p: nat, k: nat :: p < params.positions && k < params.candidates ==>
              Slot(p, k, params.candidates) < |totals|
              && totals[Slot(p, k, params.candidates)] == Quotas(voters, params.candidates, p)[k]
  {
    hide Prime, Complete, Quotas, Select, Votes, Canonical;
    var plan := NewPlan(RealisticProfile, voters, params.positions, params.candidates);
    var rows := Rows(plan, 0, voters, params.positions);
    RowsComplete(plan, params.positions);
    var r := MultiPositionFixture(params, dealers, rows, binding, randomness, q);
    totals := r.value;
    forall p: nat, k: nat | p < params.positions && k < params.candidates
      ensures Slot(p, k, params.candidates) < |totals|
           && totals[Slot(p, k, params.candidates)] == Quotas(voters, params.candidates, p)[k]
    {
      SlotBound(p, k, params.positions, params.candidates);
      var picks: nat -> bool := (v: nat) => Select(plan, v, p) == k;
      VotesAreCounts(plan, 0, voters, params.positions, p, k, picks);
      QuotaFilled(plan, params.positions, p, k, picks);
    }
  }
}
