/** Phases, jobs and peer faults that share one network, step by step under the
    server's lock. */
module Exclusion {
  import opened Wrappers

  datatype Kind = Reset | OtherJob

  /** Who holds the server's lock, and what it has checked so far. */
  datatype Lock =
    | Free
    | ClaimBusy(run: nat)
    | ClaimJob(run: nat)
    | ClaimFault(run: nat)
    | AloneBusy(run: nat)
    | AloneJob(run: nat)
    | JobScanned(kind: Kind)

  /** `dispatched` of the worker that decided the fault. */
  datatype Worker = Quiet | Gating | Refused | Firing | Marking | Counting | Stopping | Spawned

  /** `restore`: hold the peer down, start it, probe it, clear the mark, close done. */
  datatype Restorer = Unborn | Down | Starting | Probing | Clearing | Closing | Over

  datatype Waiter = Before | Blocked | Returned

  /** closes and decisions count how often done was closed and the fault decided;
      restarted says the peer's restart was carried out. */
  datatype Fault = Fault(triggered: bool, fired: bool, started: bool, restarted: bool, closes: nat, decisions: nat,
                         worker: Worker, restorer: Restorer, waiter: Waiter)

  const ARMED := Fault(false, false, false, false, 0, 0, Quiet, Unborn, Before)

  /** What runs under a claimed run: arming a fault, a phase without one, or the
      ballot window of a faulted phase. */
  datatype Phase = Off | Arming | Plain | Faulted(f: Fault)

  datatype State = State(lock: Lock, busy: set<nat>, job: Option<Kind>, faulting: set<nat>, peersDown: int, down: set<nat>,
                         phases: nat -> Phase)

  const INITIAL := State(Free, {}, None, {}, 0, {}, _ => Off)

  datatype Step =
    | Claim(run: nat)
    | ClaimReadsJob
    | ClaimReadsFault
    | ClaimTakes(faulted: bool)
    | ClaimAlone(run: nat)
    | AloneReadsJob
    | AloneTakes
    | Finish(run: nat)
    | ScanForJob(kind: Kind)
    | StartJob
    | EndJob
    | Dispatched(run: nat)
    | Gate(run: nat, refuses: bool)
    | WorkerStep(run: nat)
    | RestorerStep(run: nat)
    | Wait(run: nat)
    | WaitReturns(run: nat)

  function SetPhase(s: State, r: nat, p: Phase): State {
    s.(phases := (x: nat) => if x == r then p else s.phases(x))
  }

  function SetFault(s: State, r: nat, f: Fault): State {
    SetPhase(s, r, Faulted(f))
  }

  /** A phase may end once its fault, if any, is over. */
  predicate MayFinish(p: Phase) {
    p.Arming? || p.Plain? || (p.Faulted? && p.f.waiter.Returned?)
  }

  predicate Enabled(s: State, step: Step) {
    match step
    case Claim(_) => s.lock.Free?
    case ClaimReadsJob => s.lock.ClaimBusy?
    case ClaimReadsFault => s.lock.ClaimJob?
    case ClaimTakes(_) => s.lock.ClaimFault?
    case ClaimAlone(_) => s.lock.Free?
    case AloneReadsJob => s.lock.AloneBusy?
    case AloneTakes => s.lock.AloneJob?
    case Finish(r) => s.lock.Free? && MayFinish(s.phases(r))
    case ScanForJob(_) => s.lock.Free?
    case StartJob => s.lock.JobScanned?
    case EndJob => s.job.Some?
    case Dispatched(r) => s.phases(r).Faulted? && !s.phases(r).f.triggered && s.phases(r).f.waiter.Before?
    case Gate(r, _) => s.phases(r).Faulted? && s.phases(r).f.worker.Gating?
    case WorkerStep(r) => s.phases(r).Faulted? && InWorker(s.phases(r).f.worker)
    case RestorerStep(r) => s.phases(r).Faulted? && !s.phases(r).f.restorer.Unborn? && !s.phases(r).f.restorer.Over?
    case Wait(r) =>
      && s.phases(r).Faulted? && s.phases(r).f.waiter.Before?
      && (s.phases(r).f.worker.Quiet? || s.phases(r).f.worker.Refused? || s.phases(r).f.worker.Spawned?)
    case WaitReturns(r) => s.phases(r).Faulted? && s.phases(r).f.waiter.Blocked? && s.phases(r).f.closes >= 1
  }

  predicate InWorker(w: Worker) {
    w.Firing? || w.Marking? || w.Counting? || w.Stopping?
  }

  function PerformWorker(s: State, r: nat): State
    requires s.phases(r).Faulted? && InWorker(s.phases(r).f.worker)
  {
    var f := s.phases(r).f;
    match f.worker
    case Firing => SetFault(s, r, f.(fired := true, worker := Marking))
    case Marking => SetFault(s.(faulting := s.faulting + {r}), r, f.(worker := Counting))
    case Counting => SetFault(s.(peersDown := s.peersDown + 1, down := s.down + {r}), r, f.(worker := Stopping))
    case _ => SetFault(s, r, f.(worker := Spawned, restorer := Down))
  }

  function PerformRestorer(s: State, r: nat): State
    requires s.phases(r).Faulted?
  {
    var f := s.phases(r).f;
    match f.restorer
    case Down => SetFault(s, r, f.(started := true, restorer := if f.started then Probing else Starting))
    case Starting =>
      SetFault(s.(peersDown := s.peersDown - 1, down := s.down - {r}), r, f.(restarted := true, restorer := Probing))
    case Probing => SetFault(s, r, f.(restorer := Clearing))
    case Clearing => SetFault(s.(faulting := s.faulting - {r}), r, f.(restorer := Closing))
    case Closing => SetFault(s, r, f.(closes := f.closes + 1, restorer := Over))
    case _ => s
  }

  /** An unfired fault is settled by the window's end. */
  function PerformWait(s: State, r: nat): State
    requires s.phases(r).Faulted?
  {
    var f := s.phases(r).f;
    SetFault(s, r, if f.triggered then f.(waiter := Blocked)
                   else f.(triggered := true, decisions := f.decisions + 1, closes := f.closes + 1, waiter := Blocked))
  }

  function Perform(s: State, step: Step): State {
    if !Enabled(s, step) then s
    else
      match step
      case Claim(r) => if r in s.busy then s else s.(lock := ClaimBusy(r))
      case ClaimReadsJob => s.(lock := if s.job == Some(Reset) then Free else ClaimJob(s.lock.run))
      case ClaimReadsFault => s.(lock := if s.faulting != {} then Free else ClaimFault(s.lock.run))
      case ClaimTakes(faulted) =>
        SetPhase(s.(lock := Free, busy := s.busy + {s.lock.run}), s.lock.run, if faulted then Faulted(ARMED) else Plain)
      case ClaimAlone(r) => if r in s.busy then s else s.(lock := AloneBusy(r))
      case AloneReadsJob => s.(lock := if s.job.Some? || s.busy != {} then Free else AloneJob(s.lock.run))
      case AloneTakes => SetPhase(s.(lock := Free, busy := s.busy + {s.lock.run}), s.lock.run, Arming)
      case Finish(r) => SetPhase(s.(busy := s.busy - {r}), r, Off)
      case ScanForJob(kind) => if s.busy != {} then s else s.(lock := JobScanned(kind))
      case StartJob => s.(lock := Free, job := if s.job.None? then Some(s.lock.kind) else s.job)
      case EndJob => s.(job := None)
      case Dispatched(r) =>
        var f := s.phases(r).f;
        SetFault(s, r, f.(triggered := true, decisions := f.decisions + 1, worker := Gating))
      case Gate(r, refuses) =>
        var f := s.phases(r).f;
        SetFault(s, r, if refuses then f.(closes := f.closes + 1, worker := Refused) else f.(worker := Firing))
      case WorkerStep(r) => PerformWorker(s, r)
      case RestorerStep(r) => PerformRestorer(s, r)
      case Wait(r) => PerformWait(s, r)
      case WaitReturns(r) => SetFault(s, r, s.phases(r).f.(waiter := Returned))
  }

  function Run(steps: seq<Step>): State {
    if steps == [] then INITIAL else Perform(Run(steps[..|steps| - 1]), steps[|steps| - 1])
  }

  // ----- invariant ---------------------------------------------------------

  /** Marked as faulting: between the worker's mark and the restorer's clearing. */
  predicate Marked(f: Fault) {
    f.worker.Counting? || f.worker.Stopping?
    || (f.worker.Spawned? && (f.restorer.Down? || f.restorer.Starting? || f.restorer.Probing? || f.restorer.Clearing?))
  }

  /** The peer is counted as down: between the stop and the restart. */
  predicate PeerDown(f: Fault) {
    f.worker.Stopping? || (f.worker.Spawned? && (f.restorer.Down? || f.restorer.Starting?))
  }

  /** One fault's own bookkeeping. */
  predicate FaultOk(f: Fault) {
    && f.decisions == (if f.triggered then 1 else 0)
    && (f.worker.Spawned? <==> !f.restorer.Unborn?)
    && (f.fired <==> f.worker.Marking? || f.worker.Counting? || f.worker.Stopping? || f.worker.Spawned?)
    && (f.started <==> !f.restorer.Unborn? && !f.restorer.Down?)
    && (f.restarted <==> f.restorer.Probing? || f.restorer.Clearing? || f.restorer.Closing? || f.restorer.Over?)
    && (!f.worker.Quiet? ==> f.triggered)
    && f.closes == (if f.worker.Refused? || f.restorer.Over? || (f.triggered && f.worker.Quiet?) then 1 else 0)
    && (f.triggered && f.worker.Quiet? ==> !f.waiter.Before?)
    && (!f.waiter.Before? ==> f.triggered && (f.worker.Quiet? || f.worker.Refused? || f.worker.Spawned?))
    && (f.waiter.Returned? ==> f.closes == 1)
  }

  ghost predicate RunOk(s: State, r: nat) {
    && (r in s.busy <==> !s.phases(r).Off?)
    && (s.phases(r).Faulted? ==> FaultOk(s.phases(r).f))
    && (r in s.faulting <==> s.phases(r).Faulted? && Marked(s.phases(r).f))
    && (r in s.down <==> s.phases(r).Faulted? && PeerDown(s.phases(r).f))
  }

  /** A job that resets the network starts and runs with no run claimed. */
  ghost predicate Invariant(s: State) {
    && (forall r: nat :: RunOk(s, r))
    && s.peersDown == |s.down|
    && (s.job == Some(Reset) ==> s.busy == {})
    && (s.lock.JobScanned? ==> s.busy == {})
    && (s.lock.ClaimBusy? || s.lock.ClaimJob? || s.lock.ClaimFault? || s.lock.AloneBusy? || s.lock.AloneJob? ==> s.lock.run !in s.busy)
    && (s.lock.ClaimJob? || s.lock.ClaimFault? || s.lock.AloneJob? ==> s.job != Some(Reset))
  }

  // ----- steps of one fault ------------------------------------------------

  /** A step of run r's fault that leaves its marks alone. */
  lemma QuietFaultStep(s: State, r: nat, g: Fault)
    requires Invariant(s) && s.phases(r).Faulted? && FaultOk(g)
    requires Marked(g) == Marked(s.phases(r).f) && PeerDown(g) == PeerDown(s.phases(r).f)
    ensures Invariant(SetFault(s, r, g))
  {
    hide FaultOk, Marked, PeerDown;
    var after := SetFault(s, r, g);
    forall x: nat ensures RunOk(after, x) {
      assert RunOk(s, x);
    }
  }

  lemma WorkerKeeps(s: State, r: nat)
    requires Invariant(s) && s.phases(r).Faulted? && InWorker(s.phases(r).f.worker)
    ensures Invariant(PerformWorker(s, r))
  {
    var f := s.phases(r).f;
    assert RunOk(s, r);
    match f.worker
    case Firing => QuietFaultStep(s, r, f.(fired := true, worker := Marking));
    case Marking => MarkKeeps(s, r, f.(worker := Counting));
    case Counting => CountKeeps(s, r, f.(worker := Stopping));
    case _ => QuietFaultStep(s, r, f.(worker := Spawned, restorer := Down));
  }

  lemma MarkKeeps(s: State, r: nat, g: Fault)
    requires Invariant(s) && s.phases(r).Faulted? && FaultOk(g) && Marked(g) && PeerDown(g) == PeerDown(s.phases(r).f)
    ensures Invariant(SetFault(s.(faulting := s.faulting + {r}), r, g))
  {
    hide FaultOk, Marked, PeerDown;
    var after := SetFault(s.(faulting := s.faulting + {r}), r, g);
    forall x: nat ensures RunOk(after, x) {
      assert RunOk(s, x);
    }
  }

  lemma CountKeeps(s: State, r: nat, g: Fault)
    requires Invariant(s) && s.phases(r).Faulted? && FaultOk(g) && Marked(g) == Marked(s.phases(r).f)
    requires PeerDown(g) && !PeerDown(s.phases(r).f)
    ensures Invariant(SetFault(s.(peersDown := s.peersDown + 1, down := s.down + {r}), r, g))
  {
    hide FaultOk, Marked, PeerDown;
    assert RunOk(s, r);
    var after := SetFault(s.(peersDown := s.peersDown + 1, down := s.down + {r}), r, g);
    forall x: nat ensures RunOk(after, x) {
      assert RunOk(s, x);
    }
  }

  lemma RestorerKeeps(s: State, r: nat)
    requires Invariant(s) && s.phases(r).Faulted? && !s.phases(r).f.restorer.Unborn? && !s.phases(r).f.restorer.Over?
    ensures Invariant(PerformRestorer(s, r))
  {
    var f := s.phases(r).f;
    assert RunOk(s, r);
    match f.restorer
    case Down => QuietFaultStep(s, r, f.(started := true, restorer := Starting));
    case Starting => RestartKeeps(s, r, f.(restarted := true, restorer := Probing));
    case Probing => QuietFaultStep(s, r, f.(restorer := Clearing));
    case Clearing => ClearKeeps(s, r, f.(restorer := Closing));
    case Closing => QuietFaultStep(s, r, f.(closes := f.closes + 1, restorer := Over));
    case Unborn =>
    case Over =>
  }

  lemma RestartKeeps(s: State, r: nat, g: Fault)
    requires Invariant(s) && s.phases(r).Faulted? && FaultOk(g) && Marked(g) == Marked(s.phases(r).f)
    requires !PeerDown(g) && PeerDown(s.phases(r).f)
    ensures Invariant(SetFault(s.(peersDown := s.peersDown - 1, down := s.down - {r}), r, g))
  {
    hide FaultOk, Marked, PeerDown;
    assert RunOk(s, r);
    var after := SetFault(s.(peersDown := s.peersDown - 1, down := s.down - {r}), r, g);
    forall x: nat ensures RunOk(after, x) {
      assert RunOk(s, x);
    }
  }

  lemma ClearKeeps(s: State, r: nat, g: Fault)
    requires Invariant(s) && s.phases(r).Faulted? && FaultOk(g) && !Marked(g) && PeerDown(g) == PeerDown(s.phases(r).f)
    ensures Invariant(SetFault(s.(faulting := s.faulting - {r}), r, g))
  {
    hide FaultOk, Marked, PeerDown;
    var after := SetFault(s.(faulting := s.faulting - {r}), r, g);
    forall x: nat ensures RunOk(after, x) {
      assert RunOk(s, x);
    }
  }

  // ----- claims ------------------------------------------------------------

  /** A free run takes the lock's place among the busy ones. */
  lemma TakeKeeps(s: State, r: nat, p: Phase)
    requires Invariant(s) && r !in s.busy && !p.Off? && (p.Faulted? ==> p.f == ARMED) && s.job != Some(Reset) && !s.lock.JobScanned?
    ensures Invariant(SetPhase(s.(lock := Free, busy := s.busy + {r}), r, p))
  {
    var after := SetPhase(s.(lock := Free, busy := s.busy + {r}), r, p);
    assert RunOk(s, r);
    forall x: nat ensures RunOk(after, x) {
      assert RunOk(s, x);
      hide FaultOk, Marked, PeerDown;
      if x != r {
        assert after.phases(x) == s.phases(x);
      }
    }
  }

  lemma FinishKeeps(s: State, r: nat)
    requires Invariant(s) && s.lock.Free? && MayFinish(s.phases(r))
    ensures Invariant(SetPhase(s.(busy := s.busy - {r}), r, Off))
  {
    var after := SetPhase(s.(busy := s.busy - {r}), r, Off);
    assert RunOk(s, r);
    assert !(s.phases(r).Faulted? && (Marked(s.phases(r).f) || PeerDown(s.phases(r).f)));
    hide FaultOk, Marked, PeerDown, MayFinish;
    forall x: nat ensures RunOk(after, x) {
      assert RunOk(s, x);
    }
  }

  lemma LockKeeps(s: State, lock: Lock, job: Option<Kind>)
    requires Invariant(s)
    requires job == Some(Reset) || lock.JobScanned? ==> s.busy == {}
    requires lock.ClaimBusy? || lock.ClaimJob? || lock.ClaimFault? || lock.AloneBusy? || lock.AloneJob? ==> lock.run !in s.busy
    requires lock.ClaimJob? || lock.ClaimFault? || lock.AloneJob? ==> job != Some(Reset)
    ensures Invariant(s.(lock := lock, job := job))
  {
    hide FaultOk, Marked, PeerDown;
    var after := s.(lock := lock, job := job);
    forall x: nat ensures RunOk(after, x) {
      assert RunOk(s, x);
    }
  }

  lemma StepKeeps(s: State, step: Step)
    requires Invariant(s)
    ensures Invariant(Perform(s, step))
  {
    if Enabled(s, step) {
      match step
      case Claim(r) => LockKeeps(s, if r in s.busy then s.lock else ClaimBusy(r), s.job);
      case ClaimReadsJob => LockKeeps(s, if s.job == Some(Reset) then Free else ClaimJob(s.lock.run), s.job);
      case ClaimReadsFault => LockKeeps(s, if s.faulting != {} then Free else ClaimFault(s.lock.run), s.job);
      case ClaimTakes(faulted) => TakeKeeps(s, s.lock.run, if faulted then Faulted(ARMED) else Plain);
      case ClaimAlone(r) => LockKeeps(s, if r in s.busy then s.lock else AloneBusy(r), s.job);
      case AloneReadsJob => LockKeeps(s, if s.job.Some? || s.busy != {} then Free else AloneJob(s.lock.run), s.job);
      case AloneTakes => TakeKeeps(s, s.lock.run, Arming);
      case Finish(r) => FinishKeeps(s, r);
      case ScanForJob(kind) => LockKeeps(s, if s.busy != {} then s.lock else JobScanned(kind), s.job);
      case StartJob => LockKeeps(s, Free, if s.job.None? then Some(s.lock.kind) else s.job);
      case EndJob => LockKeeps(s, s.lock, None);
      case Dispatched(r) => FaultStepKeeps(s, step, r);
      case Gate(r, _) => FaultStepKeeps(s, step, r);
      case WorkerStep(r) => WorkerKeeps(s, r);
      case RestorerStep(r) => RestorerKeeps(s, r);
      case Wait(r) => FaultStepKeeps(s, step, r);
      case WaitReturns(r) => FaultStepKeeps(s, step, r);
    }
  }

  lemma FaultStepKeeps(s: State, step: Step, r: nat)
    requires Invariant(s) && Enabled(s, step)
    requires step == Dispatched(r) || (step.Gate? && step.run == r) || step == Wait(r) || step == WaitReturns(r)
    ensures Invariant(Perform(s, step))
  {
    assert RunOk(s, r);
    var f := s.phases(r).f;
    match step
    case Dispatched(_) => QuietFaultStep(s, r, f.(triggered := true, decisions := f.decisions + 1, worker := Gating));
    case Gate(_, refuses) =>
      QuietFaultStep(s, r, if refuses then f.(closes := f.closes + 1, worker := Refused) else f.(worker := Firing));
    case Wait(_) =>
      QuietFaultStep(s, r, if f.triggered then f.(waiter := Blocked)
                           else f.(triggered := true, decisions := f.decisions + 1, closes := f.closes + 1, waiter := Blocked));
    case _ => QuietFaultStep(s, r, f.(waiter := Returned));
  }

  lemma {:induction false} RunKeeps(steps: seq<Step>)
    ensures Invariant(Run(steps))
  {
    if steps != [] {
      RunKeeps(steps[..|steps| - 1]);
      StepKeeps(Run(steps[..|steps| - 1]), steps[|steps| - 1]);
    } else {
      assert |INITIAL.down| == 0;
    }
  }

  /** While a network reset holds the job slot, no phase runs, no fault is active
      and no peer is down. */
  lemma ResetIsAlone(steps: seq<Step>)
    requires Run(steps).job == Some(Reset)
    ensures var s := Run(steps); s.busy == {} && s.faulting == {} && s.peersDown == 0
  {
    RunKeeps(steps);
    var s := Run(steps);
    forall r: nat ensures r !in s.faulting && r !in s.down {
      assert RunOk(s, r);
    }
    assert s.down == {};
  }

  /** Every fault is decided at most once and closes done at most once; when its
      wait has returned it was decided, and if it fired the peer was started again
      and the mark is gone. */
  lemma FaultIsSettled(steps: seq<Step>, r: nat)
    requires Run(steps).phases(r).Faulted?
    ensures var f := Run(steps).phases(r).f;
            && f.decisions <= 1 && f.closes <= 1
            && (f.waiter.Returned? ==>
                  && f.decisions == 1 && f.closes == 1 && (f.fired ==> f.restarted)
                  && r !in Run(steps).faulting && r !in Run(steps).down)
  {
    RunKeeps(steps);
    assert RunOk(Run(steps), r);
  }

  /** An active fault always belongs to a run whose phase is still claimed, and the
      down count is the number of peers stopped and not yet started. */
  lemma FaultsAreClaimed(steps: seq<Step>)
    ensures Run(steps).faulting <= Run(steps).busy && Run(steps).peersDown == |Run(steps).down| && Run(steps).down <= Run(steps).faulting
  {
    RunKeeps(steps);
    var s := Run(steps);
    forall r: nat ensures (r in s.faulting ==> r in s.busy) && (r in s.down ==> r in s.faulting) {
      assert RunOk(s, r);
    }
  }
}
