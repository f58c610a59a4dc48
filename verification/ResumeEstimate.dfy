/** The plan's estimate of what is left, against the ballots the chain lacks. */
module ResumeEstimate {
  import opened Wrappers
  import opened Resume
  import opened BallotProtocol
  import opened CloseRetry

  // ----- counting what the chain lacks -------------------------------------

  /** |Missing(n, chain)|. */
  function Lacking(n: nat, chain: set<nat>): nat {
    if n == 0 then 0 else Lacking(n - 1, chain) + if n - 1 in chain then 0 else 1
  }

  lemma {:induction false} LackingIsMissing(n: nat, chain: set<nat>)
    ensures |Missing(n, chain)| == Lacking(n, chain)
  {
    if n > 0 {
      LackingIsMissing(n - 1, chain);
      MissingSnoc(n, chain);
      hide Missing;
    }
  }

  lemma MissingSnoc(n: nat, chain: set<nat>)
    requires n > 0
    ensures Missing(n, chain) == Missing(n - 1, chain) + if n - 1 in chain then [] else [n - 1]
  {
  }

  lemma {:induction false} LackingLand(n: nat, chain: set<nat>, i: nat)
    ensures Lacking(n, chain + {i}) == Lacking(n, chain) - if i < n && i !in chain then 1 else 0
  {
    if n > 0 {
      LackingLand(n - 1, chain, i);
    }
  }

  lemma {:induction false} LackingShrinks(n: nat, chain: set<nat>, later: set<nat>)
    requires chain <= later
    ensures Lacking(n, later) <= Lacking(n, chain)
  {
    if n > 0 {
      LackingShrinks(n - 1, chain, later);
    }
  }

  lemma {:induction false} NothingLacking(n: nat, chain: set<nat>)
    ensures Lacking(n, chain) == 0 <==> AllLanded(n, chain)
  {
    if n > 0 {
      NothingLacking(n - 1, chain);
      assert AllLanded(n, chain) <==> AllLanded(n - 1, chain) && n - 1 in chain;
    }
  }

  lemma {:induction false} AllLacking(n: nat)
    ensures Lacking(n, {}) == n
  {
    if n > 0 {
      AllLacking(n - 1);
    }
  }

  /** How many of the pending ballots the chain holds. */
  function Landed(pending: seq<nat>, chain: set<nat>): (k: nat)
    ensures k <= |pending|
  {
    if pending == [] then 0
    else Landed(pending[..|pending| - 1], chain) + if pending[|pending| - 1] in chain then 1 else 0
  }

  lemma LandedSnoc(pending: seq<nat>, i: nat, chain: set<nat>)
    ensures Landed(pending + [i], chain) == Landed(pending, chain) + if i in chain then 1 else 0
  {
    assert (pending + [i])[..|pending|] == pending;
  }

  lemma {:induction false} LackingSplits(n: nat, base: set<nat>, chain: set<nat>)
    requires base <= chain
    ensures Lacking(n, chain) + Landed(Missing(n, base), chain) == Lacking(n, base)
  {
    if n == 0 {
      assert Missing(0, base) == [];
    } else {
      LackingSplits(n - 1, base, chain);
      MissingSnoc(n, base);
      var front := Missing(n - 1, base);
      LandedSnoc(front, n - 1, chain);
      hide Missing, Landed;
      assert front + [] == front;
    }
  }

  // ----- what the journal's sizes bound ------------------------------------

  /** The start of some window reached the journal. */
  predicate Started(j: Journal) {
    j != [] && (j[|j| - 1].WindowStart? || Started(j[..|j| - 1]))
  }

  /** Ballots the window under way got a commit answer for. */
  function Answers(s: State): nat {
    AnswersIn(s.phase)
  }

  function AnswersIn(p: Phase): nat {
    match p
    case Running(_, w) => |w.ok|
    case Draining(_, w, _) => |w.ok|
    case _ => 0
  }

  /** The recorded window sizes cover m missing ballots besides the k answered for. */
  ghost predicate Covers(j: Journal, m: nat, k: nat) {
    Started(j) ==>
      && m + k <= WindowSize(j)
      && (InterruptedCommitted(j).Some? ==> m + InterruptedCommitted(j).value <= WindowSize(j))
  }

  lemma CoversLess(j: Journal, m: nat, k: nat, m': nat, k': nat)
    requires Covers(j, m, k) && m' <= m && m' + k' <= m + k
    ensures Covers(j, m', k')
  {
  }

  lemma CoversStamp(j: Journal, e: Event, kept: seq<bool>, i: nat, m: nat, k: nat)
    requires Covers(j, m, k)
    requires e.WindowStart? ==> k == 0 && m <= e.n
    requires e.Interrupted? ==> e.committed == k
    ensures Covers(j + [e], m, k) && Covers(Stamp(j, e, kept, i), m, k)
  {
    var after := j + [e];
    assert after[..|j|] == j;
  }

  /** A step keeps the bound. */
  ghost predicate KeepsCover(c: Config, s: State, t: State) {
    Covers(s.journal, Lacking(c.n, s.chain), Answers(s)) ==> Covers(t.journal, Lacking(c.n, t.chain), Answers(t))
  }

  lemma StepCovers(c: Config, s: State, step: Step)
    requires Invariant(c, s)
    ensures KeepsCover(c, s, Perform(c, s, step))
  {
    hide *;
    if !Enabled(c, s, step) {
      NoStep(c, s, step);
    } else {
      match step
      case OpenWindow(kept) => OpenCovers(c, s, kept);
      case Reply(slot, answer) => ReplyCovers(c, s, slot, answer);
      case Report(done) => ReportCovers(c, s, done);
      case Land(i) => LandCovers(c, s, i);
      case EndFirst(_, _, _) => EndCovers(c, s, step);
      case StartResume(_, _) => StartResumeCovers(c, s, step);
      case EndResume(_, _, _) => EndCovers(c, s, step);
      case _ => QuietCovers(c, s, step);
    }
  }

  lemma NoStep(c: Config, s: State, step: Step)
    requires !Enabled(c, s, step)
    ensures KeepsCover(c, s, Perform(c, s, step))
  {
    hide Enabled, Lacking, Covers;
  }

  lemma ReportCovers(c: Config, s: State, done: nat)
    requires Enabled(c, s, Report(done))
    ensures KeepsCover(c, s, Perform(c, s, Report(done)))
  {
    hide Lacking, Covers;
    var m, k := Lacking(c.n, s.chain), Answers(s);
    if Covers(s.journal, m, k) {
      CoversStamp(s.journal, Progress(done), [], 0, m, k);
    }
  }

  lemma LandCovers(c: Config, s: State, i: nat)
    requires Enabled(c, s, Land(i))
    ensures KeepsCover(c, s, Perform(c, s, Land(i)))
  {
    LackingLand(c.n, s.chain, i);
    hide Lacking;
  }

  /** The other steps touch neither the journal nor the chain. */
  lemma QuietCovers(c: Config, s: State, step: Step)
    requires !step.OpenWindow? && !step.Reply? && !step.Report? && !step.Land?
    requires !step.EndFirst? && !step.StartResume? && !step.EndResume?
    ensures KeepsCover(c, s, Perform(c, s, step))
  {
    hide Lacking, Covers, PerformEndFirst, PerformStartResume, PerformEndResume, PerformReply;
    match step
    case Dispatch =>
    case StopDispatch =>
    case FinishDispatch =>
    case Cancel =>
    case SendClose(_, _) =>
    case StartSetup(_) =>
    case Crash =>
      LessAnswered(c, s);
    case _ =>
  }

  lemma LessAnswered(c: Config, s: State)
    ensures KeepsCover(c, s, PerformCrash(s))
  {
    hide Lacking;
  }

  lemma OpenCovers(c: Config, s: State, kept: seq<bool>)
    requires Enabled(c, s, OpenWindow(kept))
    ensures KeepsCover(c, s, Perform(c, s, OpenWindow(kept)))
  {
    var m := Lacking(c.n, s.chain);
    LackingShrinks(c.n, {}, s.chain);
    AllLacking(c.n);
    hide Covers, Lacking, Missing, Stamp;
    if Covers(s.journal, m, 0) {
      CoversStamp(s.journal, WindowStart(c.n), kept, 0, m, 0);
      CoversStamp(Stamp(s.journal, WindowStart(c.n), kept, 0), SegmentStart(0), kept, 1, m, 0);
    }
  }

  lemma ReplyCovers(c: Config, s: State, slot: nat, answer: Answer)
    requires Invariant(c, s) && Enabled(c, s, Reply(slot, answer))
    ensures KeepsCover(c, s, Perform(c, s, Reply(slot, answer)))
  {
    PendingBelow(c, s, slot);
    hide Covers, Missing, Invariant, Lacking, PerformReply;
    if Covers(s.journal, Lacking(c.n, s.chain), |s.phase.w.ok|) {
      AnswerCovers(c, s, slot, answer);
    }
  }

  lemma AnswerCovers(c: Config, s: State, slot: nat, answer: Answer)
    requires InWindow(s) && slot < |s.phase.w.pending| && s.phase.w.pending[slot] < c.n
    requires answer.Committed? ==> s.phase.w.pending[slot] !in s.chain
    requires Covers(s.journal, Lacking(c.n, s.chain), |s.phase.w.ok|)
    ensures var t := PerformReply(s, slot, answer); Covers(t.journal, Lacking(c.n, t.chain), Answers(t))
  {
    var w, m := s.phase.w, Lacking(c.n, s.chain);
    LackingLand(c.n, s.chain, w.pending[slot]);
    ReplyFields(s, slot, answer);
    hide *;
    CoversLess(s.journal, m, |w.ok|, Lacking(c.n, PerformReply(s, slot, answer).chain), Answers(PerformReply(s, slot, answer)));
  }

  lemma ReplyFields(s: State, slot: nat, answer: Answer)
    requires InWindow(s) && slot < |s.phase.w.pending|
    ensures var t := PerformReply(s, slot, answer);
            && t.journal == s.journal && t.chain == (if answer.Committed? then s.chain + {s.phase.w.pending[slot]} else s.chain)
            && Answers(t) <= |s.phase.w.ok| + if answer.Committed? then 1 else 0
  {
    MoreAnswers(s.phase, s.phase.w, slot, answer.Committed?);
    hide Answered, WithWindow, AnswersIn;
  }

  lemma MoreAnswers(p: Phase, w: Window, slot: nat, ok: bool)
    requires p.Running? || p.Draining?
    ensures AnswersIn(WithWindow(p, Answered(w, slot, ok))) <= |w.ok| + if ok then 1 else 0
  {
  }

  lemma PendingBelow(c: Config, s: State, slot: nat)
    requires Invariant(c, s) && InWindow(s) && slot < |s.phase.w.pending|
    ensures s.phase.w.pending[slot] < c.n
  {
    PlannedFrom(c, s);
    MissingMeans(c.n, s.phase.w.base);
    hide Missing, Invariant;
    assert s.phase.w.pending[slot] in s.phase.w.pending;
  }

  lemma EndStampsCover(j: Journal, end: Event, segment: nat, kept: seq<bool>, m: nat, k: nat)
    requires Covers(j, m, k) && (end == Interrupted(k) || end.WindowEnd?)
    ensures Covers(Stamp(Stamp(j, end, kept, 0), SegmentEnd(segment, k), kept, 1), m, 0)
  {
    CoversStamp(j, end, kept, 0, m, k);
    CoversStamp(Stamp(j, end, kept, 0), SegmentEnd(segment, k), kept, 1, m, k);
    hide Stamp;
    CoversLess(Stamp(Stamp(j, end, kept, 0), SegmentEnd(segment, k), kept, 1), m, k, m, 0);
  }

  lemma EndCovers(c: Config, s: State, step: Step)
    requires Enabled(c, s, step) && (step.EndFirst? || step.EndResume?)
    ensures KeepsCover(c, s, Perform(c, s, step))
  {
    hide Covers, Lacking, Stamp, Dropped;
    var w, m, n := s.phase.w, Lacking(c.n, s.chain), s.phase.segment;
    if Covers(s.journal, m, |w.ok|) {
      EndStampsCover(s.journal, Interrupted(|w.ok|), n, step.kept, m, |w.ok|);
      if step.EndFirst? {
        EndStampsCover(s.journal, WindowEnd(|w.failed|), n, step.kept, m, |w.ok|);
      } else {
        EndStampsCover(s.journal, WindowEnd(|Dropped(w, step.reread)|), n, step.kept, m, |w.ok|);
      }
    }
  }

  lemma StartResumeCovers(c: Config, s: State, step: Step)
    requires step.StartResume? && Enabled(c, s, step)
    ensures KeepsCover(c, s, Perform(c, s, step))
  {
    hide Covers, Lacking, PerformStartResume;
    if Covers(s.journal, Lacking(c.n, s.chain), 0) {
      ResumeStampsCover(c, s, step.seen, step.kept);
    }
  }

  lemma ResumeStampsCover(c: Config, s: State, seen: set<nat>, kept: seq<bool>)
    requires s.phase.Idle? && seen <= s.chain && Covers(s.journal, Lacking(c.n, s.chain), 0)
    ensures var t := PerformStartResume(c, s, seen, kept);
            t.chain == s.chain && Answers(t) == 0 && Covers(t.journal, Lacking(c.n, s.chain), 0)
  {
    var m, n := Lacking(c.n, s.chain), |Missing(c.n, seen)|;
    LackingShrinks(c.n, seen, s.chain);
    LackingIsMissing(c.n, seen);
    ResumeStamps(c, s, seen, kept);
    hide *;
    StartStampsCover(s.journal, NextSegment(s.journal), n, kept, m);
  }

  lemma ResumeStamps(c: Config, s: State, seen: set<nat>, kept: seq<bool>)
    requires s.phase.Idle?
    ensures var t := PerformStartResume(c, s, seen, kept);
            var j := if InterruptedAt in s.journal then s.journal else Stamp(s.journal, InterruptedAt, kept, 0);
            && t.chain == s.chain && Answers(t) == 0
            && (t.journal == s.journal
                || t.journal == Stamp(Stamp(j, SegmentStart(NextSegment(s.journal)), kept, 1), WindowStart(|Missing(c.n, seen)|), kept, 2))
  {
    hide Stamp, Open, CloseOnly, NextSegment, Missing;
    assert AnswersIn(Running(NextSegment(s.journal), OpenedWindow(c.n, seen))) == 0 == AnswersIn(s.phase) == AnswersIn(Closing(false));
    hide AnswersIn;
    if CloseOnly(s.journal, s.closeRecorded) {
    } else if Open(s.journal) {
    }
  }

  lemma StartStampsCover(j: Journal, segment: nat, n: nat, kept: seq<bool>, m: nat)
    requires Covers(j, m, 0) && m <= n
    ensures var marked := if InterruptedAt in j then j else Stamp(j, InterruptedAt, kept, 0);
            Covers(Stamp(Stamp(marked, SegmentStart(segment), kept, 1), WindowStart(n), kept, 2), m, 0)
  {
    hide Covers, Stamp;
    var marked := if InterruptedAt in j then j else Stamp(j, InterruptedAt, kept, 0);
    CoversStamp(j, InterruptedAt, kept, 0, m, 0);
    CoversStamp(marked, SegmentStart(segment), kept, 1, m, 0);
    CoversStamp(Stamp(marked, SegmentStart(segment), kept, 1), WindowStart(n), kept, 2, m, 0);
  }

  lemma {:induction false} RunCovers(c: Config, steps: seq<Step>)
    ensures var s := Run(c, steps); Covers(s.journal, Lacking(c.n, s.chain), Answers(s))
  {
    if steps != [] {
      var front := steps[..|steps| - 1];
      RunCovers(c, front);
      RunKeeps(c, front);
      hide Covers, Invariant, Perform, Lacking;
      StepCovers(c, Run(c, front), steps[|steps| - 1]);
    }
  }

  // ----- when the estimate is an upper bound -------------------------------

  /** In every run whose last recorded window stamped an interruption, the
      estimate bounds the missing ballots exactly when some window's start
      reached the journal, or nothing is missing. */
  lemma EstimateAfterInterruption(c: Config, steps: seq<Step>)
    requires InterruptedCommitted(Run(c, steps).journal).Some?
    ensures var s := Run(c, steps);
            Remaining(s.journal) >= |Missing(c.n, s.chain)| <==> Started(s.journal) || AllLanded(c.n, s.chain)
  {
    var s := Run(c, steps);
    RunCovers(c, steps);
    LackingIsMissing(c.n, s.chain);
    NothingLacking(c.n, s.chain);
    hide Run, Missing, Lacking, AllLanded;
    if !Started(s.journal) {
      NeverStarted(s.journal);
    }
  }

  lemma {:induction false} NeverStarted(j: Journal)
    requires !Started(j)
    ensures WindowSize(j) == 0
  {
    if j != [] {
      NeverStarted(j[..|j| - 1]);
    }
  }

  /** When the console is killed inside a window whose start is recorded, then
      with whatever lands later the estimate is an upper bound exactly while the
      last checkpoint counts no more ballots than landed from that window. */
  lemma EstimateAfterKill(c: Config, steps: seq<Step>, later: set<nat>)
    requires var s := Run(c, steps);
             && InWindow(s) && InterruptedCommitted(s.journal).None? && WindowSize(s.journal) == |s.phase.w.pending|
             && s.chain <= later
    ensures var s := Run(c, steps);
            Remaining(Perform(c, s, Crash).journal) >= |Missing(c.n, later)|
            <==> LastDone(s.journal) <= Landed(s.phase.w.pending, later) || AllLanded(c.n, later)
  {
    var s := Run(c, steps);
    RunKeeps(c, steps);
    var w := s.phase.w;
    PlannedFrom(c, s);
    LackingSplits(c.n, w.base, later);
    LackingIsMissing(c.n, w.base);
    LackingIsMissing(c.n, later);
    NothingLacking(c.n, later);
    CrashKeepsJournal(c, s);
    hide Run, Invariant, Missing, Landed, Lacking, AllLanded, Perform, LastDone, WindowSize, InterruptedCommitted;
  }

  lemma PlannedFrom(c: Config, s: State)
    requires Invariant(c, s) && InWindow(s)
    ensures s.phase.w.base <= s.chain && s.phase.w.pending == Missing(c.n, s.phase.w.base)
  {
    hide Missing, AllLanded, ClaimsLanded, JournalFits;
  }

  lemma CrashFields(s: State)
    ensures var t := PerformCrash(s); t.journal == s.journal && t.chain == s.chain && t.phase.Idle?
  {
    if InWindow(s) {
      hide InWindow;
    } else {
      hide InWindow;
    }
  }

  lemma CrashKeepsJournal(c: Config, s: State)
    ensures Perform(c, s, Crash).journal == s.journal && Perform(c, s, Crash).chain == s.chain
    ensures Perform(c, s, Crash).phase.Idle?
  {
    CrashFields(s);
    hide PerformEndFirst, PerformStartResume, PerformEndResume, PerformReply, PerformStartSetup, PerformSendClose, PerformCrash;
  }

  // ----- runs where it is not ----------------------------------------------

  /** Killed: no window is under way and the last one stamped no end. */
  ghost predicate Underestimates(c: Config, s: State) {
    && s.phase.Idle? && Open(s.journal) && Started(s.journal) && InterruptedCommitted(s.journal).None?
    && Remaining(s.journal) < |Missing(c.n, s.chain)|
  }

  /** A checkpoint counts what was dispatched, not what landed: every election with
      a ballot has a run whose own checkpoint is ahead of the chain. The only
      ballot sent is refused, and the console dies before the window's end. */
  lemma CheckpointAheadOfChain(c: Config)
    requires c.n >= 1
    ensures exists steps :: Underestimates(c, Run(c, steps))
  {
    var steps, s := WindowOpened(c);
    AllLacking(c.n);
    LackingIsMissing(c.n, {});
    OneRefused(c, s);
    var stop := StopAfter(c);
    hide *;
    steps, s := Take(c, steps, s, Dispatch);
    steps, s := Take(c, steps, s, Reply(0, Refused));
    steps, s := Take(c, steps, s, Cancel);
    steps, s := Take(c, steps, s, stop);
    steps, s := Take(c, steps, s, Report(1));
    steps, s := Take(c, steps, s, Crash);
  }

  /** How dispatching ends after one ballot. */
  function StopAfter(c: Config): Step {
    if c.n == 1 then FinishDispatch else StopDispatch
  }

  lemma OneRefused(c: Config, s: State)
    requires c.n >= 1 && |Missing(c.n, {})| == c.n && s.phase == Running(0, OpenedWindow(c.n, {})) && s.chain == {}
    requires s.journal == [WindowStart(c.n), SegmentStart(0)]
    ensures var t := Perform(c, Perform(c, Perform(c, s, Dispatch), Reply(0, Refused)), Cancel);
            Underestimates(c, Perform(c, Perform(c, Perform(c, t, StopAfter(c)), Report(1)), Crash))
  {
    var a: Journal := [WindowStart(c.n)];
    JournalGrows([], WindowStart(c.n));
    JournalGrows(a, SegmentStart(0));
    JournalGrows(a + [SegmentStart(0)], Progress(1));
    StartedSnoc([], WindowStart(c.n));
    StartedSnoc(a, SegmentStart(0));
    StartedSnoc(a + [SegmentStart(0)], Progress(1));
    assert a == [] + a && s.journal == a + [SegmentStart(0)];
    Refusal(c, s);
    var t := Perform(c, Perform(c, Perform(c, s, Dispatch), Reply(0, Refused)), Cancel);
    Checkpointed(c, t);
    hide Missing, Open, LastDone, WindowSize, InterruptedCommitted, Started, Perform, StopAfter;
  }

  lemma Refusal(c: Config, s: State)
    requires c.n >= 1 && |Missing(c.n, {})| == c.n && s.phase == Running(0, OpenedWindow(c.n, {}))
    ensures Perform(c, Perform(c, Perform(c, s, Dispatch), Reply(0, Refused)), Cancel)
         == s.(phase := Running(0, OpenedWindow(c.n, {}).(next := 1, failed := {0})), cancelled := true)
  {
    hide Missing;
    assert {} + {0 as nat} == {0} && {0} - {0 as nat} == {};
    var sent := Perform(c, s, Dispatch);
    assert sent == s.(phase := Running(0, OpenedWindow(c.n, {}).(next := 1, flying := {0})));
    hide Perform;
    ReplyRefused(c, sent, 0);
    CancelPhase(c, Perform(c, sent, Reply(0, Refused)));
  }

  lemma ReplyRefused(c: Config, s: State, k: nat)
    requires s.phase.Running? && k in s.phase.w.flying && k < |s.phase.w.pending|
    ensures Perform(c, s, Reply(k, Refused)) == s.(phase := Running(s.phase.segment, Answered(s.phase.w, k, false)))
  {
  }

  lemma CancelPhase(c: Config, s: State)
    requires !s.phase.Idle?
    ensures Perform(c, s, Cancel) == s.(cancelled := true)
  {
  }

  lemma Checkpointed(c: Config, t: State)
    requires c.n >= 1 && |Missing(c.n, {})| == c.n && t.cancelled
    requires t.phase == Running(0, OpenedWindow(c.n, {}).(next := 1, failed := {0}))
    ensures var u := Perform(c, Perform(c, Perform(c, t, StopAfter(c)), Report(1)), Crash);
            u.chain == t.chain && u.phase.Idle? && u.journal == t.journal + [Progress(1)]
  {
    hide Missing;
    Drains(c, t);
    var stopped := Perform(c, t, StopAfter(c));
    hide StopAfter;
    var told := Perform(c, stopped, Report(1));
    assert told == stopped.(journal := t.journal + [Progress(1)]);
    hide Perform;
    CrashKeepsJournal(c, told);
  }

  lemma Drains(c: Config, t: State)
    requires c.n >= 1 && |Missing(c.n, {})| == c.n && t.cancelled
    requires t.phase == Running(0, OpenedWindow(c.n, {}).(next := 1, failed := {0}))
    ensures Perform(c, t, StopAfter(c)) == t.(phase := Draining(0, t.phase.w, c.n != 1))
  {
    hide Missing;
    if c.n == 1 {
    } else {
    }
  }

  lemma FirstOfTwo(c: Config) returns (steps: seq<Step>, s: State)
    requires c == Config(2, false, 0)
    ensures Run(c, steps) == s && s.chain == {0} && s.cancelled
    ensures s.journal == [WindowStart(2), SegmentStart(0), Progress(1)]
    ensures s.phase == Draining(0, Window({}, [0, 1], 1, {}, {0}, {}), true)
  {
    MissingSnoc(1, {});
    MissingSnoc(2, {});
    assert Missing(0, {}) == [] && Missing(2, {}) == [0, 1];
    steps, s := WindowOpened(c);
    OneLands(c, s);
    hide *;
    steps, s := Take(c, steps, s, Dispatch);
    steps, s := Take(c, steps, s, Reply(0, Committed));
    steps, s := Take(c, steps, s, Cancel);
    steps, s := Take(c, steps, s, StopDispatch);
    steps, s := Take(c, steps, s, Report(1));
  }

  lemma OneLands(c: Config, s: State)
    requires c.pauseAt == 0 && s.chain == {} && !s.closed && s.phase == Running(0, Window({}, [0, 1], 0, {}, {}, {}))
    requires s.journal == [WindowStart(2), SegmentStart(0)]
    ensures var t := Perform(c, Perform(c, Perform(c, s, Dispatch), Reply(0, Committed)), Cancel);
            var u := Perform(c, Perform(c, t, StopDispatch), Report(1));
            && u.chain == {0} && u.cancelled && u.journal == [WindowStart(2), SegmentStart(0), Progress(1)]
            && u.phase == Draining(0, Window({}, [0, 1], 1, {}, {0}, {}), true)
  {
    BallotLands(c, s);
    var b := Perform(c, Perform(c, s, Dispatch), Reply(0, Committed));
    CancelPhase(c, b);
    hide Missing, Open, CloseOnly, PerformReply;
    var t := Perform(c, b, Cancel);
    var stopped := Perform(c, t, StopDispatch);
    assert stopped == t.(phase := Draining(0, t.phase.w, true));
    var u := Perform(c, stopped, Report(1));
    assert u == stopped.(journal := s.journal + [Progress(1)]);
  }

  lemma StartedSnoc(j: Journal, e: Event)
    ensures Started(j + [e]) == (e.WindowStart? || Started(j))
  {
    assert (j + [e])[..|j|] == j;
  }

  lemma Interrupting(c: Config, s: State, kept: seq<bool>)
    requires kept == [true, true, true] && s.phase == Draining(0, Window({}, [0, 1], 1, {}, {0}, {}), true)
    requires s.chain == {0} && s.cancelled && s.journal == [WindowStart(2), SegmentStart(0), Progress(1)]
    ensures var t := Perform(c, Perform(c, s, EndFirst(false, false, kept)), GiveUpClose);
            && t.phase.Idle? && t.chain == {0}
            && t.journal == [WindowStart(2), SegmentStart(0), Progress(1), Interrupted(1), SegmentEnd(0, 1)]
  {
    hide Open, CloseOnly, Missing;
    var t := Perform(c, s, EndFirst(false, false, kept));
    assert t.journal == s.journal + [Interrupted(1)] + [SegmentEnd(0, 1)];
  }

  lemma SecondWindow(c: Config, s: State, kept: seq<bool>)
    requires c == Config(2, false, 0) && kept == [true, true, true] && s.phase.Idle? && s.chain == {0}
    requires s.journal == [WindowStart(2), SegmentStart(0), Progress(1), Interrupted(1), SegmentEnd(0, 1)]
    ensures var t := Perform(c, Perform(c, s, StartResume({0}, kept)), Crash); Underestimates(c, t) && Remaining(t.journal) == 0
  {
    OneMissing(c);
    FirstJournal(s.journal);
    ResumedAndKilled(c, s, kept);
    StaleJournal(s.journal);
    hide Perform, Open, Started, Remaining, InterruptedCommitted, Missing;
  }

  lemma OneMissing(c: Config)
    requires c.n == 2
    ensures |Missing(c.n, {0})| == 1
  {
    MissingSnoc(1, {0});
    MissingSnoc(2, {0});
  }

  lemma StaleJournal(j: Journal)
    requires LastDone(j) == 1
    ensures var l := j + [InterruptedAt] + [SegmentStart(1)] + [WindowStart(1)];
            Open(l) && Started(l) && InterruptedCommitted(l) == None && Remaining(l) == 0
  {
    var a := j + [InterruptedAt];
    var b := a + [SegmentStart(1)];
    JournalGrows(j, InterruptedAt);
    JournalGrows(a, SegmentStart(1));
    JournalGrows(b, WindowStart(1));
    StartedSnoc(b, WindowStart(1));
    hide Open, Started, LastDone, WindowSize, InterruptedCommitted, NextSegment, Resumed, EndDropped, Segments;
  }

  lemma ResumedAndKilled(c: Config, s: State, kept: seq<bool>)
    requires kept == [true, true, true] && s.phase.Idle? && s.chain == {0} && |Missing(c.n, {0})| == 1
    requires Open(s.journal) && InterruptedAt !in s.journal && NextSegment(s.journal) == 1
    ensures var t := Perform(c, Perform(c, s, StartResume({0}, kept)), Crash);
            && t.journal == s.journal + [InterruptedAt] + [SegmentStart(1)] + [WindowStart(1)]
            && t.chain == {0} && t.phase.Idle?
  {
    hide Open, NextSegment, Missing, Resumed, EndDropped;
    var t := Perform(c, s, StartResume({0}, kept));
    assert t.journal == s.journal + [InterruptedAt] + [SegmentStart(1)] + [WindowStart(1)] && t.chain == {0};
    hide PerformStartResume;
  }

  lemma FirstJournal(j: Journal)
    requires j == [WindowStart(2), SegmentStart(0), Progress(1), Interrupted(1), SegmentEnd(0, 1)]
    ensures Open(j) && NextSegment(j) == 1 && LastDone(j) == 1 && InterruptedAt !in j
  {
    var a: Journal := [WindowStart(2)];
    var b := a + [SegmentStart(0)];
    var d := b + [Progress(1)];
    var e := d + [Interrupted(1)];
    assert j == e + [SegmentEnd(0, 1)];
    hide *;
    JournalGrows(a, SegmentStart(0));
    JournalGrows(b, Progress(1));
    JournalGrows(d, Interrupted(1));
    JournalGrows(e, SegmentEnd(0, 1));
    assert Opens(Interrupted(1)) by {
      InterruptionOpens(1);
    }
  }

  lemma InterruptionOpens(k: nat)
    ensures Opens(Interrupted(k))
  {
  }

  /** And a window killed before its first checkpoint is judged by an earlier
      window's: here one ballot landed, one is left, and none is estimated. */
  lemma StaleCheckpoint()
    ensures exists steps :: Underestimates(Config(2, false, 0), Run(Config(2, false, 0), steps))
                            && Remaining(Run(Config(2, false, 0), steps).journal) == 0
  {
    var c := Config(2, false, 0);
    var steps, s := FirstOfTwo(c);
    var kept := [true, true, true];
    var end := EndFirst(false, false, kept);
    Interrupting(c, s, kept);
    hide *;
    steps, s := Take(c, steps, s, end);
    steps, s := Take(c, steps, s, GiveUpClose);
    SecondWindow(c, s, kept);
    steps, s := Take(c, steps, s, StartResume({0}, kept));
    steps, s := Take(c, steps, s, Crash);
  }
}
