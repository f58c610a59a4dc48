/** A CloseElection that failed: when a later resume sends it again. */
module CloseRetry {
  import opened Wrappers
  import opened Resume
  import opened BallotProtocol

  /** No window is open or under way, and there is a journal to say so. */
  ghost predicate Settled(s: State) {
    s.journal != [] && !Open(s.journal) && (s.phase.Idle? || s.phase.Closing?)
  }

  /** Then nothing is stamped any more, whatever happens next. */
  lemma SettledStep(c: Config, s: State, step: Step)
    requires Invariant(c, s) && Settled(s)
    ensures Settled(Perform(c, s, step)) && Perform(c, s, step).journal == s.journal
  {
    JournalMeansCreated(c, s);
    hide Invariant, Open, PerformEndFirst, PerformEndResume, PerformReply;
    if step.StartResume? {
      ResumeOfSettled(c, s, step.seen, step.kept);
      hide PerformStartResume;
    } else {
      hide PerformStartResume;
      match step
      case StartSetup(_) =>
      case SendClose(_, _) =>
      case Crash =>
      case _ =>
    }
  }

  lemma JournalMeansCreated(c: Config, s: State)
    requires Invariant(c, s) && s.journal != []
    ensures s.created
  {
    hide ClaimsLanded, MayClose, GoodWindow, JournalFits;
  }

  /** What a resume does with a settled journal. */
  lemma ResumeOfSettled(c: Config, s: State, seen: set<nat>, kept: seq<bool>)
    requires !Open(s.journal)
    ensures PerformStartResume(c, s, seen, kept)
         == if CloseOnly(s.journal, s.closeRecorded) then s.(phase := Closing(false), cancelled := false) else s
  {
    hide Open, CloseOnly, Missing, NextSegment;
  }

  lemma {:induction false} SettledRun(c: Config, steps: seq<Step>, more: seq<Step>)
    requires Settled(Run(c, steps))
    ensures Settled(Run(c, steps + more)) && Run(c, steps + more).journal == Run(c, steps).journal
  {
    hide Settled, Perform, Invariant;
    if more == [] {
      assert steps + more == steps;
    } else {
      var front := steps + more[..|more| - 1];
      SettledRun(c, steps, more[..|more| - 1]);
      assert steps + more == front + [more[|more| - 1]];
      Follow(c, front, more[|more| - 1], Perform(c, Run(c, front), more[|more| - 1]));
      RunKeeps(c, front);
      SettledStep(c, Run(c, front), more[|more| - 1]);
    }
  }

  lemma Follow(c: Config, steps: seq<Step>, step: Step, s: State)
    requires Perform(c, Run(c, steps), step) == s
    ensures Run(c, steps + [step]) == s
  {
    assert (steps + [step])[..|steps|] == steps;
  }

  // ----- a window that ended -----------------------------------------------

  /** The first window ended: everything dispatched, or stopped by its own bound
      alone, and no ballot dropped. */
  ghost predicate FirstWindowDone(c: Config, s: State) {
    && s.phase.Draining? && s.phase.segment == 0 && s.phase.w.flying == {} && s.phase.w.failed == {}
    && (s.phase.stopped ==> c.hasBound && !s.cancelled)
  }

  /** A resumed window dispatched everything, and the chain shows what failed. */
  ghost predicate ResumedWindowDone(s: State, reread: Option<set<nat>>) {
    && s.phase.Draining? && s.phase.segment >= 1 && s.phase.w.flying == {} && !s.phase.stopped
    && (reread.Some? ==> reread.value <= s.chain) && Dropped(s.phase.w, reread) == {}
  }

  lemma EndStamped(j: Journal, k: nat, landed: nat, kept: seq<bool>)
    requires kept != [] && kept[0]
    ensures var after := Stamp(Stamp(j, WindowEnd(0), kept, 0), SegmentEnd(k, landed), kept, 1);
            && after != [] && !Open(after) && EndDropped(after) == 0 && (Resumed(after) <==> Resumed(j))
  {
    JournalGrows(j, WindowEnd(0));
    JournalGrows(j + [WindowEnd(0)], SegmentEnd(k, landed));
  }

  lemma FirstEndSettles(c: Config, s: State, failsAfter: bool, fault: bool, kept: seq<bool>)
    requires FirstWindowDone(c, s) && kept != [] && kept[0]
    ensures var after := Perform(c, s, EndFirst(fault, failsAfter, kept));
            Settled(after) && (Resumed(after.journal) <==> Resumed(s.journal))
  {
    EndStamped(s.journal, 0, |s.phase.w.ok|, kept);
    hide Open, Resumed, EndDropped, Stamp;
  }

  lemma ResumeEndSettles(c: Config, s: State, reread: Option<set<nat>>, failsAfter: bool, kept: seq<bool>)
    requires ResumedWindowDone(s, reread) && kept != [] && kept[0]
    ensures var after := Perform(c, s, EndResume(reread, failsAfter, kept));
            Settled(after) && EndDropped(after.journal) == 0 && (Resumed(after.journal) <==> Resumed(s.journal))
  {
    EndStamped(s.journal, s.phase.segment, |s.phase.w.ok|, kept);
    hide Open, Resumed, EndDropped, Stamp, Dropped;
  }

  // ----- who gets another try ----------------------------------------------

  /** After a resume that landed every ballot, its end stamped: whatever happens
      to its CloseElection, and to any later one, every idle moment accepts
      another resume that goes straight to the close, exactly while no close is
      on record and some resume's own start is in the journal. */
  lemma CloseIsRetried(c: Config, steps: seq<Step>, reread: Option<set<nat>>, failsAfter: bool, kept: seq<bool>,
                       more: seq<Step>, seen: set<nat>, marks: seq<bool>)
    requires ResumedWindowDone(Run(c, steps), reread) && kept != [] && kept[0]
    ensures var t := Run(c, steps + [EndResume(reread, failsAfter, kept)] + more);
            && AllLanded(c.n, t.chain) && (t.phase.Idle? || t.phase.Closing?)
            && (t.phase.Idle? && seen <= t.chain ==>
                  var next := Perform(c, t, StartResume(seen, marks));
                  if Resumed(Run(c, steps).journal) && !t.closeRecorded then next == t.(phase := Closing(false), cancelled := false)
                  else next == t)
  {
    var s, step := Run(c, steps), EndResume(reread, failsAfter, kept);
    var ended := steps + [step];
    assert steps + ([step] + more) == ended + more;
    hide *;
    ResumeEndSettles(c, s, reread, failsAfter, kept);
    Follow(c, steps, step, Perform(c, s, step));
    SettledRun(c, ended, more);
    LandedStays(c, steps, reread, [step] + more);
    SettledMeans(Run(c, ended + more));
    if Run(c, ended + more).phase.Idle? && seen <= Run(c, ended + more).chain {
      NextResume(c, Run(c, ended + more), seen, marks);
    }
  }

  lemma SettledMeans(s: State)
    requires Settled(s)
    ensures s.phase.Idle? || s.phase.Closing?
  {
  }

  lemma NextResume(c: Config, t: State, seen: set<nat>, marks: seq<bool>)
    requires Settled(t) && t.phase.Idle? && seen <= t.chain && EndDropped(t.journal) == 0
    ensures Perform(c, t, StartResume(seen, marks))
         == if Resumed(t.journal) && !t.closeRecorded then t.(phase := Closing(false), cancelled := false) else t
  {
    ResumeOfSettled(c, t, seen, marks);
    hide Open, Resumed, EndDropped, PerformStartResume;
  }

  lemma {:induction false} ChainStays(c: Config, steps: seq<Step>, more: seq<Step>)
    ensures Run(c, steps).chain <= Run(c, steps + more).chain
  {
    if more == [] {
      assert steps + more == steps;
    } else {
      var front, last := steps + more[..|more| - 1], more[|more| - 1];
      ChainStays(c, steps, more[..|more| - 1]);
      assert steps + more == front + [last];
      Follow(c, front, last, Perform(c, Run(c, front), last));
      hide Run;
      StepChain(c, Run(c, front), last);
    }
  }

  lemma StepChain(c: Config, s: State, step: Step)
    ensures s.chain <= Perform(c, s, step).chain
  {
    hide Open, CloseOnly, Missing, PerformEndFirst, PerformStartResume, PerformEndResume;
    if Enabled(c, s, step) {
      match step
      case EndFirst(fault, failsAfter, kept) => EndsKeepChain(c, s, fault, failsAfter, None, kept);
      case StartResume(seen, kept) => StartKeepsChain(c, s, seen, kept);
      case EndResume(reread, failsAfter, kept) => EndsKeepChain(c, s, false, failsAfter, reread, kept);
      case _ =>
    }
  }

  lemma EndsKeepChain(c: Config, s: State, fault: bool, failsAfter: bool, reread: Option<set<nat>>, kept: seq<bool>)
    requires s.phase.Draining?
    ensures PerformEndFirst(c, s, fault, failsAfter, kept).chain == s.chain
    ensures PerformEndResume(s, reread, failsAfter, kept).chain == s.chain
  {
  }

  lemma StartKeepsChain(c: Config, s: State, seen: set<nat>, kept: seq<bool>)
    ensures PerformStartResume(c, s, seen, kept).chain == s.chain
  {
    hide Open, CloseOnly, NextSegment, Missing, Stamp;
    if CloseOnly(s.journal, s.closeRecorded) {
    } else if Open(s.journal) {
    }
  }

  lemma LandedStays(c: Config, steps: seq<Step>, reread: Option<set<nat>>, more: seq<Step>)
    requires ResumedWindowDone(Run(c, steps), reread)
    ensures AllLanded(c.n, Run(c, steps + more).chain)
  {
    var s := Run(c, steps);
    RunKeeps(c, steps);
    hide Run, Dropped;
    NothingDropped(c, s, s.phase.w, reread);
    ChainStays(c, steps, more);
  }

  /** Nobody retries the first window's close: when that window ended and its end
      was stamped, every later resume is refused, whatever became of the close. */
  lemma FirstCloseIsFinal(c: Config, steps: seq<Step>, fault: bool, failsAfter: bool, kept: seq<bool>,
                          more: seq<Step>, seen: set<nat>, marks: seq<bool>)
    requires FirstWindowDone(c, Run(c, steps)) && kept != [] && kept[0]
    ensures var t := Run(c, steps + [EndFirst(fault, failsAfter, kept)] + more);
            && (t.phase.Idle? || t.phase.Closing?)
            && (t.phase.Idle? ==> Perform(c, t, StartResume(seen, marks)) == t)
  {
    var s, step := Run(c, steps), EndFirst(fault, failsAfter, kept);
    var ended := steps + [step];
    RunKeeps(c, steps);
    FirstDrained(c, s);
    hide *;
    FirstEndSettles(c, s, failsAfter, fault, kept);
    Follow(c, steps, step, Perform(c, s, step));
    SettledRun(c, ended, more);
    SettledMeans(Run(c, ended + more));
    if Run(c, ended + more).phase.Idle? {
      NoResume(c, Run(c, ended + more), seen, marks);
    }
  }

  lemma NoResume(c: Config, t: State, seen: set<nat>, marks: seq<bool>)
    requires Settled(t) && !Resumed(t.journal)
    ensures Perform(c, t, StartResume(seen, marks)) == t
  {
    ResumeOfSettled(c, t, seen, marks);
    hide Open, Resumed, EndDropped, PerformStartResume;
  }

  /** An idle console refuses every resume exactly when its journal neither leaves
      a window open nor asks for the close alone. */
  lemma RefusedExactly(c: Config, s: State)
    requires s.phase.Idle?
    ensures (forall seen, marks :: Perform(c, s, StartResume(seen, marks)) == s)
       <==> !Open(s.journal) && !CloseOnly(s.journal, s.closeRecorded)
  {
    var next := Perform(c, s, StartResume({}, []));
    hide Open, Resumed, EndDropped, Missing, NextSegment;
    if Open(s.journal) || CloseOnly(s.journal, s.closeRecorded) {
      assert !next.phase.Idle?;
    }
  }

  /** Such a run exists: the first window lands every ballot, its CloseElection
      never goes out, and every resume is refused. */
  lemma FirstCloseIsNotRetried()
    ensures exists steps :: StuckOpen(Config(1, false, 0), Run(Config(1, false, 0), steps))
  {
    var c := Config(1, false, 0);
    var kept := [true, true];
    var steps, s := OneBallotLands(c, kept);
    Ending(c, s, kept);
    hide *;
    var ended := Perform(c, s, EndFirst(false, false, kept));
    Follow(c, steps, EndFirst(false, false, kept), ended);
    Follow(c, steps + [EndFirst(false, false, kept)], GiveUpClose, Perform(c, ended, GiveUpClose));
  }

  lemma OneBallotLands(c: Config, kept: seq<bool>) returns (steps: seq<Step>, s: State)
    requires c == Config(1, false, 0) && kept == [true, true]
    ensures Run(c, steps) == s && s.phase.Draining? && s.phase.segment == 0 && !s.phase.stopped && !s.closed && !s.closeInFlight
    ensures s.phase.w.flying == {} && s.phase.w.failed == {} && AllLanded(c.n, s.chain) && !Resumed(s.journal)
  {
    assert OpenedWindow(1, {}) == Window({}, [0], 0, {}, {}, {}) by {
      assert Missing(1, {}) == Missing(0, {}) + [0] == [0];
    }
    hide *;
    steps, s := WindowOpened(c);
    OnlyBallotLands(c, s);
    steps, s := Take(c, steps, s, Dispatch);
    steps, s := Take(c, steps, s, Reply(0, Committed));
    steps, s := Take(c, steps, s, FinishDispatch);
  }

  lemma OnlyBallotLands(c: Config, s: State)
    requires c.n == 1 && s == INITIAL.(created := true, journal := [WindowStart(1), SegmentStart(0)],
                                       phase := Running(0, Window({}, [0], 0, {}, {}, {})))
    ensures var t := Perform(c, Perform(c, Perform(c, s, Dispatch), Reply(0, Committed)), FinishDispatch);
            && t.phase == Draining(0, Window({}, [0], 1, {}, {0}, {}), false) && t.chain == {0}
            && !t.closed && !t.closeInFlight && !Resumed(t.journal) && AllLanded(1, t.chain)
  {
    BallotLands(c, s);
    hide PerformReply, Missing, Open;
  }

  /** The first window, just opened. */
  lemma WindowOpened(c: Config) returns (steps: seq<Step>, s: State)
    ensures Run(c, steps) == s
         == INITIAL.(created := true, journal := [WindowStart(c.n), SegmentStart(0)], phase := Running(0, OpenedWindow(c.n, {})))
  {
    var kept := [true, true];
    steps, s := [], INITIAL;
    steps, s := Take(c, steps, s, StartSetup(Committed));
    steps, s := Take(c, steps, s, OpenWindow(kept));
    Opening(c, kept);
    hide Missing;
  }

  /** The first ballot goes out and is committed. */
  lemma BallotLands(c: Config, s: State)
    requires !s.closed && s.chain == {} && s.phase.Running? && s.phase.w.pending != [] && s.phase.w.pending[0] == 0
    requires s.phase.w.next == 0 && s.phase.w.flying == {} && s.phase.w.ok == {} && s.phase.w.failed == {}
    ensures Perform(c, Perform(c, s, Dispatch), Reply(0, Committed))
         == s.(chain := {0}, phase := Running(s.phase.segment, s.phase.w.(next := 1, ok := {0})))
  {
    hide Missing;
    var sent := Perform(c, s, Dispatch);
    assert {} + {0 as nat} == {0} && {0} - {0 as nat} == {};
    assert sent == s.(phase := Running(s.phase.segment, s.phase.w.(next := 1, flying := {0})));
    hide Perform;
    ReplyCommitted(c, sent, 0);
  }

  lemma ReplyCommitted(c: Config, s: State, k: nat)
    requires s.phase.Running? && k in s.phase.w.flying && k < |s.phase.w.pending| && !s.closed && s.phase.w.pending[k] !in s.chain
    ensures Perform(c, s, Reply(k, Committed))
         == s.(chain := s.chain + {s.phase.w.pending[k]}, phase := Running(s.phase.segment, Answered(s.phase.w, k, true)))
  {
  }

  lemma Take(c: Config, steps: seq<Step>, s: State, step: Step) returns (steps': seq<Step>, s': State)
    requires Run(c, steps) == s
    ensures Run(c, steps') == s' == Perform(c, s, step)
  {
    Follow(c, steps, step, Perform(c, s, step));
    return steps + [step], Perform(c, s, step);
  }

  /** Everything landed, nothing is under way, and every resume is refused. */
  ghost predicate StuckOpen(c: Config, s: State) {
    && AllLanded(c.n, s.chain) && s.phase.Idle? && !s.closed && !s.closeInFlight
    && forall seen, marks :: Perform(c, s, StartResume(seen, marks)) == s
  }

  lemma Opening(c: Config, kept: seq<bool>)
    requires kept == [true, true]
    ensures Perform(c, INITIAL.(created := true, phase := Setup), OpenWindow(kept))
         == INITIAL.(created := true, journal := [WindowStart(c.n), SegmentStart(0)], phase := Running(0, OpenedWindow(c.n, {})))
  {
    var j: Journal := [];
    assert Stamp(Stamp(j, WindowStart(c.n), kept, 0), SegmentStart(0), kept, 1) == [WindowStart(c.n), SegmentStart(0)];
  }

  lemma Ending(c: Config, s: State, kept: seq<bool>)
    requires kept == [true, true] && s.phase.Draining? && s.phase.segment == 0 && !s.phase.stopped && !s.closed && !s.closeInFlight
    requires s.phase.w.flying == {} && s.phase.w.failed == {} && AllLanded(c.n, s.chain) && !Resumed(s.journal)
    ensures StuckOpen(c, Perform(c, Perform(c, s, EndFirst(false, false, kept)), GiveUpClose))
  {
    var w := s.phase.w;
    JournalGrows(s.journal, WindowEnd(0));
    JournalGrows(s.journal + [WindowEnd(0)], SegmentEnd(0, |w.ok|));
    assert Stamp(Stamp(s.journal, WindowEnd(0), kept, 0), SegmentEnd(0, |w.ok|), kept, 1)
        == s.journal + [WindowEnd(0)] + [SegmentEnd(0, |w.ok|)];
    var t := Perform(c, Perform(c, s, EndFirst(false, false, kept)), GiveUpClose);
    assert t.journal == s.journal + [WindowEnd(0)] + [SegmentEnd(0, |w.ok|)];
    hide Open, Resumed, EndDropped, PerformStartResume;
    RefusedExactly(c, t);
  }
}
