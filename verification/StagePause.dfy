/** An attack stage's decision queue, and the ballot window it splits in two. */
module StagePause {
  import opened Wrappers
  import opened ResumeWindow

  const CAPACITY: nat := 8

  datatype Decision = RunOne(scenario: string) | RunAll | Skip

  datatype Reason = Cancelled | TimedOut | AllRun | Skipped

  /** Where pauseForAttacks stands. Mounting works through `todo`; with `end` it
      then leaves the stage, without it goes back to waiting. */
  datatype Position = Waiting | Mounting(todo: seq<string>, end: Option<Reason>) | Left(reason: Reason)

  /** accepted and applied: history of the decisions DecidePause took and the
      stage carried out. */
  datatype State = State(queue: seq<Decision>, closed: bool, cancelled: bool, ran: set<string>, position: Position,
                         accepted: seq<Decision>, applied: seq<Decision>)

  const INITIAL := State([], false, false, {}, Waiting, [], [])

  datatype Step = Decide(decision: Decision) | Cancel | SeeCancel | TimerFires | Take | MountNext | FinishMounting

  /** The scenarios not mounted yet, in catalogue order. */
  function Rest(scenarios: seq<string>, ran: set<string>): (rest: seq<string>)
    ensures forall s :: s in rest <==> s in scenarios && s !in ran
  {
    if scenarios == [] then []
    else
      var n := |scenarios| - 1;
      assert forall s :: s in scenarios <==> s in scenarios[..n] || s == scenarios[n];
      Rest(scenarios[..n], ran) + if scenarios[n] in ran then [] else [scenarios[n]]
  }

  /** DecidePause: refused when unknown, once the stage is closed, or when the
      queue is full; a decision that ends the stage closes it. */
  function PerformDecide(scenarios: seq<string>, s: State, d: Decision): State {
    if d.RunOne? && d.scenario !in scenarios then s
    else if s.closed || |s.queue| >= CAPACITY then s
    else s.(queue := s.queue + [d], accepted := s.accepted + [d], closed := !d.RunOne?)
  }

  function PerformTake(scenarios: seq<string>, s: State): State
    requires s.queue != []
  {
    var d := s.queue[0];
    var after := s.(queue := s.queue[1..], applied := s.applied + [d]);
    match d
    case RunAll => after.(position := Mounting(Rest(scenarios, s.ran), Some(AllRun)))
    case Skip => after.(position := Left(Skipped))
    case RunOne(id) => after.(position := Mounting([id], None))
  }

  /** closeIfIdle: a decision accepted before the wait ran out goes first. */
  function PerformTimer(scenarios: seq<string>, s: State): State {
    if s.queue != [] then s
    else s.(closed := true, position := Mounting(Rest(scenarios, s.ran), Some(TimedOut)))
  }

  /** A cancelled phase mounts nothing more of the rest; a single run goes ahead. */
  function PerformMount(s: State): State
    requires s.position.Mounting? && s.position.todo != []
  {
    var p := s.position;
    var id := p.todo[0];
    var after := s.(position := p.(todo := p.todo[1..]));
    if p.end.Some? && s.cancelled then after else after.(ran := s.ran + {id})
  }

  predicate Enabled(s: State, step: Step) {
    match step
    case Decide(_) => true
    case Cancel => true
    case SeeCancel => s.position.Waiting? && s.cancelled
    case TimerFires => s.position.Waiting?
    case Take => s.position.Waiting? && s.queue != []
    case MountNext => s.position.Mounting? && s.position.todo != []
    case FinishMounting => s.position.Mounting? && s.position.todo == []
  }

  function Perform(scenarios: seq<string>, s: State, step: Step): State {
    if !Enabled(s, step) then s
    else
      match step
      case Decide(d) => PerformDecide(scenarios, s, d)
      case Cancel => s.(cancelled := true)
      case SeeCancel => s.(closed := true, position := Left(Cancelled))
      case TimerFires => PerformTimer(scenarios, s)
      case Take => PerformTake(scenarios, s)
      case MountNext => PerformMount(s)
      case FinishMounting => s.(position := if s.position.end.Some? then Left(s.position.end.value) else Waiting)
  }

  function Run(scenarios: seq<string>, steps: seq<Step>): State {
    if steps == [] then INITIAL else Perform(scenarios, Run(scenarios, steps[..|steps| - 1]), steps[|steps| - 1])
  }

  // ----- invariant ---------------------------------------------------------

  /** Only the last accepted decision can end the stage, and it has closed it. */
  ghost predicate EndsLast(s: State) {
    forall k :: 0 <= k < |s.accepted| && !s.accepted[k].RunOne? ==> k == |s.accepted| - 1 && s.closed
  }

  /** The decision that closed the stage waits at the end of the queue. */
  predicate EndQueued(s: State) {
    s.queue != [] && !s.queue[|s.queue| - 1].RunOne?
  }

  ghost predicate Invariant(scenarios: seq<string>, s: State) {
    && s.accepted == s.applied + s.queue && |s.queue| <= CAPACITY && EndsLast(s)
    && match s.position
       case Waiting => s.closed ==> EndQueued(s)
       case Mounting(todo, end) =>
         && (end.Some? ==> s.closed && s.queue == [])
         && (end.None? && s.closed ==> EndQueued(s))
         && (end.Some? && !s.cancelled ==> forall id :: id in scenarios ==> id in s.ran || id in todo)
       case Left(reason) =>
         && s.closed && (!reason.Cancelled? ==> s.queue == [])
         && ((reason.AllRun? || reason.TimedOut?) && !s.cancelled ==> forall id :: id in scenarios ==> id in s.ran)
  }

  lemma StepTake(scenarios: seq<string>, s: State)
    requires Invariant(scenarios, s) && s.position.Waiting? && s.queue != []
    ensures Invariant(scenarios, PerformTake(scenarios, s))
  {
    var d := s.queue[0];
    assert s.applied + [d] + s.queue[1..] == s.accepted;
    assert s.accepted[|s.applied|] == d;
    if !d.RunOne? {
      assert |s.applied| == |s.accepted| - 1;
    }
  }

  lemma StepKeeps(scenarios: seq<string>, s: State, step: Step)
    requires Invariant(scenarios, s)
    ensures Invariant(scenarios, Perform(scenarios, s, step))
  {
    if Enabled(s, step) {
      match step
      case Decide(d) =>
      case Take => StepTake(scenarios, s);
      case MountNext =>
      case Cancel =>
      case SeeCancel =>
      case TimerFires =>
      case FinishMounting =>
    }
  }

  lemma {:induction false} RunKeeps(scenarios: seq<string>, steps: seq<Step>)
    ensures Invariant(scenarios, Run(scenarios, steps))
  {
    if steps != [] {
      RunKeeps(scenarios, steps[..|steps| - 1]);
      StepKeeps(scenarios, Run(scenarios, steps[..|steps| - 1]), steps[|steps| - 1]);
    }
  }

  /** Unless the phase was cancelled: every decision that was accepted has been
      applied, in order, by the time the stage continues, and a stage that ended
      by run-all or by the timeout has mounted every attack. */
  lemma AcceptedMeansApplied(scenarios: seq<string>, steps: seq<Step>)
    requires Run(scenarios, steps).position.Left? && !Run(scenarios, steps).position.reason.Cancelled?
    ensures Run(scenarios, steps).applied == Run(scenarios, steps).accepted
    ensures Run(scenarios, steps).position.reason != Skipped && !Run(scenarios, steps).cancelled ==>
              forall id :: id in scenarios ==> id in Run(scenarios, steps).ran
  {
    RunKeeps(scenarios, steps);
    var s := Run(scenarios, steps);
    assert s.applied + [] == s.applied;
  }

  /** Once the stage has been left, whatever the reason, nothing more is accepted. */
  lemma NothingAcceptedAfterwards(scenarios: seq<string>, steps: seq<Step>, d: Decision)
    requires Run(scenarios, steps).position.Left?
    ensures Run(scenarios, steps + [Decide(d)]) == Run(scenarios, steps)
  {
    RunKeeps(scenarios, steps);
    assert (steps + [Decide(d)])[..|steps|] == steps;
  }

  // ----- the window the ballots stage splits -------------------------------

  /** Ballots dispatched before the pause: a share of n, truncated, but at least
      one and not all of them; 0 when the window does not pause. */
  function PauseIndex(planned: bool, share: real, n: nat): (at: nat)
    ensures at == 0 <==> !planned || n < 2
    ensures at > 0 ==> 1 <= at <= n - 1
  {
    if !planned || n < 2 then 0
    else
      var half := if share == 0.0 then 0.5 else share;
      var product := half * n as real;
      // Go's conversion truncates toward zero.
      var cut := if product >= 0.0 then product.Floor else -((-product).Floor);
      var at := if cut < 1 then 1 else cut;
      if at > n - 1 then n - 1 else at
  }

  /** The two halves as the one window they measure. */
  method JoinWindows(n: nat, at: nat, a: RunResult, b: RunResult) returns (r: RunResult)
    requires at <= n && Ran(a, at)
    requires Ran(b, n - at) || b == RunResult(0, 0, 0, true, -1, [])
    requires a.stopped ==> b.lastIndex == -1
    ensures Ran(r, n) && r.stopped == (a.stopped || b.stopped)
    ensures r.submitted == a.submitted + b.submitted && r.committed == a.committed + b.committed && r.dropped == a.dropped + b.dropped
    ensures forall k :: 0 <= k < at ==> r.ok[k] == a.ok[k]
    ensures forall k :: 0 <= k < |b.ok| ==> r.ok[at + k] == b.ok[k]
  {
    hide Trues;
    var ok := new bool[n](_ => false);
    var k := 0;
    while k < |a.ok|
      invariant 0 <= k <= |a.ok|
      invariant forall j :: 0 <= j < n ==> ok[j] == if j < k then a.ok[j] else false
    {
      ok[k] := a.ok[k];
      k := k + 1;
    }
    k := 0;
    while k < |b.ok|
      invariant 0 <= k <= |b.ok|
      invariant forall j :: 0 <= j < n ==> ok[j] == if j < at then a.ok[j] else if j < at + k then b.ok[j - at] else false
    {
      ok[at + k] := b.ok[k];
      k := k + 1;
    }
    var lastIndex := if b.lastIndex >= 0 then at + b.lastIndex else a.lastIndex;
    r := RunResult(a.submitted + b.submitted, a.committed + b.committed, a.dropped + b.dropped, a.stopped || b.stopped,
                   lastIndex, ok[..]);
    JoinedRan(n, at, a, b, r);
  }

  lemma JoinedRan(n: nat, at: nat, a: RunResult, b: RunResult, r: RunResult)
    requires at <= n && Ran(a, at)
    requires Ran(b, n - at) || b == RunResult(0, 0, 0, true, -1, [])
    requires a.stopped ==> b.lastIndex == -1
    requires |r.ok| == n && r.stopped == (a.stopped || b.stopped)
    requires r.submitted == a.submitted + b.submitted && r.committed == a.committed + b.committed && r.dropped == a.dropped + b.dropped
    requires r.lastIndex == if b.lastIndex >= 0 then at + b.lastIndex else a.lastIndex
    requires forall k :: 0 <= k < at ==> r.ok[k] == a.ok[k]
    requires forall k :: 0 <= k < |b.ok| ==> r.ok[at + k] == b.ok[k]
    ensures Ran(r, n)
  {
    if b.submitted > 0 {
      assert Ran(b, n - at) && a.submitted == at && r.submitted == at + b.submitted;
      var sent := r.ok[..r.submitted];
      TruesSplit(sent, at);
      forall j | 0 <= j < b.submitted ensures sent[at..][j] == b.ok[..b.submitted][j] {
        assert r.ok[at + j] == b.ok[j];
      }
      assert sent[..at] == a.ok[..at] && sent[at..] == b.ok[..b.submitted];
    } else {
      assert r.ok[..r.submitted] == a.ok[..a.submitted];
    }
  }

  lemma {:induction false} TruesSplit(s: seq<bool>, k: nat)
    requires k <= |s|
    ensures Trues(s) == Trues(s[..k]) + Trues(s[k..])
  {
    if k == |s| {
      assert s[..k] == s;
    } else {
      var n := |s| - 1;
      TruesSplit(s[..n], k);
      assert s[..n][..k] == s[..k] && s[..n][k..] == s[k..][..n - k];
    }
  }
}
