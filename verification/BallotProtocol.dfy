/** The ballot phase of one run over any number of crashes, cancels, lost answers
    and resumes: when the console may send CloseElection. */
module BallotProtocol {
  import opened Wrappers
  import opened Resume

  /** n ballots with distinct nullifiers, named by index; `hasBound` when the
      measured window ends at its own configured time; `pauseAt` where the first
      window of a security run pauses, 0 when it does not. */
  datatype Config = Config(n: nat, hasBound: bool, pauseAt: nat)

  /** A window sends pending[0], pending[1], ... A slot is in `flying` between its
      dispatch and its answer. `base` is what the chain was seen to hold before. */
  datatype Window = Window(base: set<nat>, pending: seq<nat>, next: nat, flying: set<nat>, ok: set<nat>, failed: set<nat>)

  datatype Phase =
    | Idle
    | Setup
    | Running(segment: nat, w: Window)
    | Draining(segment: nat, w: Window, stopped: bool)
    | Closing(first: bool)

  /** chain, created, closed: the ledger. limbo and closeInFlight: transactions
      whose answer was lost and which may still commit. cancelled: the running
      phase's context. bounded: history, set when the first window ended at its
      own bound without a drop. closeSent: history. */
  datatype State = State(
    chain: set<nat>, limbo: set<nat>, createInFlight: bool, created: bool, closeInFlight: bool, closed: bool,
    closeSent: bool, bounded: bool, cancelled: bool, journal: Journal, closeRecorded: bool, phase: Phase)

  const INITIAL := State({}, {}, false, false, false, false, false, false, false, [], false, Idle)

  /** What a submission's caller learns, and whether the chain took it. */
  datatype Answer = Committed | Refused | Lost

  datatype Step =
    | StartSetup(answer: Answer)
    | LandCreate
    | OpenWindow(kept: seq<bool>)
    | FailSetup
    | Dispatch
    | Report(done: nat)
    | Reply(slot: nat, answer: Answer)
    | Land(index: nat)
    | StopDispatch
    | FinishDispatch
    | EndFirst(fault: bool, failsAfter: bool, kept: seq<bool>)
    | StartResume(seen: set<nat>, kept: seq<bool>)
    | EndResume(reread: Option<set<nat>>, failsAfter: bool, kept: seq<bool>)
    | SendClose(answer: Answer, recorded: bool)
    | GiveUpClose
    | LandClose
    | Cancel
    | Crash

  /** Stamps e, unless the journal loses it. */
  function Stamp(j: Journal, e: Event, kept: seq<bool>, k: nat): Journal {
    if k < |kept| && kept[k] then j + [e] else j
  }

  /** Every ballot of the run is on the chain. */
  ghost predicate AllLanded(n: nat, chain: set<nat>) {
    forall i: nat :: i < n ==> i in chain
  }

  /** The indices below n that `seen` lacks, in order. */
  function Missing(n: nat, seen: set<nat>): seq<nat> {
    if n == 0 then [] else Missing(n - 1, seen) + if n - 1 in seen then [] else [n - 1]
  }

  lemma {:induction false} MissingMeans(n: nat, seen: set<nat>)
    ensures forall i: nat :: i in Missing(n, seen) <==> i < n && i !in seen
    ensures forall j, k :: 0 <= j < k < |Missing(n, seen)| ==> Missing(n, seen)[j] < Missing(n, seen)[k]
  {
    if n > 0 {
      MissingMeans(n - 1, seen);
      var front := Missing(n - 1, seen);
      assert forall k :: 0 <= k < |front| ==> front[k] in front;
    }
  }

  function OpenedWindow(n: nat, seen: set<nat>): Window {
    Window(seen, Missing(n, seen), 0, {}, {}, {})
  }

  predicate InWindow(s: State) {
    s.phase.Running? || s.phase.Draining?
  }

  /** The failed slots the second reading of the chain does not show. */
  function Dropped(w: Window, seen: Option<set<nat>>): set<nat> {
    if seen.None? then w.failed
    else set k | k in w.failed && !(k < |w.pending| && w.pending[k] in seen.value)
  }

  /** The window after slot k is answered. */
  function Answered(w: Window, k: nat, ok: bool): Window {
    if ok then w.(flying := w.flying - {k}, ok := w.ok + {k})
    else w.(flying := w.flying - {k}, failed := w.failed + {k})
  }

  function WithWindow(p: Phase, w: Window): Phase
    requires p.Running? || p.Draining?
  {
    match p
    case Running(segment, _) => Running(segment, w)
    case Draining(segment, _, stopped) => Draining(segment, w, stopped)
  }

  /** A paused window sends ballot `pauseAt` only once all before it are answered. */
  predicate PastPause(c: Config, segment: nat, w: Window) {
    segment == 0 && c.pauseAt > 0 && w.next == c.pauseAt ==> w.flying == {}
  }

  /** What the bench reports: every thousandth dispatch, and the last one once
      every answer is in; of a paused window, each half for itself. */
  predicate Reported(c: Config, p: Phase, done: nat)
    requires p.Running? || p.Draining?
  {
    var w := p.w;
    && done <= w.next
    && (|| done % 1000 == 0
        || (p.segment == 0 && done >= c.pauseAt && (done - c.pauseAt) % 1000 == 0 && w.next > c.pauseAt)
        || (w.flying == {} && done == w.next && (p.Draining? || (p.segment == 0 && done == c.pauseAt))))
  }

  predicate Enabled(c: Config, s: State, step: Step) {
    match step
    case StartSetup(_) => s.phase.Idle?
    case LandCreate => s.createInFlight
    case OpenWindow(_) => s.phase.Setup?
    case FailSetup => s.phase.Setup?
    case Dispatch =>
      s.phase.Running? && s.phase.w.next < |s.phase.w.pending| && PastPause(c, s.phase.segment, s.phase.w)
    case Report(done) => InWindow(s) && Reported(c, s.phase, done)
    case Reply(k, answer) =>
      && InWindow(s) && k in s.phase.w.flying && k < |s.phase.w.pending|
      && (answer.Committed? ==> !s.closed && s.phase.w.pending[k] !in s.chain)
    case Land(i) => i in s.limbo && !s.closed
    case StopDispatch =>
      && s.phase.Running? && s.phase.w.next < |s.phase.w.pending|
      && (s.cancelled || (s.phase.segment == 0 && c.hasBound))
    case FinishDispatch => s.phase.Running? && s.phase.w.next == |s.phase.w.pending|
    case EndFirst(_, _, _) => s.phase.Draining? && s.phase.segment == 0 && s.phase.w.flying == {}
    case StartResume(seen, _) => s.phase.Idle? && seen <= s.chain
    case EndResume(reread, _, _) =>
      && s.phase.Draining? && s.phase.segment >= 1 && s.phase.w.flying == {}
      && (reread.Some? ==> reread.value <= s.chain)
    case SendClose(answer, _) => s.phase.Closing? && !s.cancelled && (answer.Committed? ==> !s.closed)
    case GiveUpClose => s.phase.Closing?
    case LandClose => s.closeInFlight
    case Cancel => !s.phase.Idle?
    case Crash => !s.phase.Idle?
  }

  /** The setup phase sends CreateElection, which the ledger accepts once. */
  function PerformStartSetup(s: State, answer: Answer): State {
    if answer.Committed? && !s.created then s.(created := true, phase := Setup, cancelled := false)
    else if answer.Lost? then s.(createInFlight := true)
    else s
  }

  function PerformReply(s: State, k: nat, answer: Answer): State
    requires InWindow(s) && k < |s.phase.w.pending|
  {
    var w := s.phase.w;
    var after := s.(phase := WithWindow(s.phase, Answered(w, k, answer.Committed?)));
    match answer
    case Committed => after.(chain := s.chain + {w.pending[k]})
    case Refused => after
    case Lost => after.(limbo := s.limbo + {w.pending[k]})
  }

  /** submitBallots, from the end of its window to closeElection. */
  function PerformEndFirst(c: Config, s: State, fault: bool, failsAfter: bool, kept: seq<bool>): State
    requires s.phase.Draining?
  {
    var w := s.phase.w;
    var stopped := s.phase.stopped || (fault && w.failed != {});
    var bounded := c.hasBound && stopped && w.failed == {} && !s.cancelled;
    var end := if stopped && !bounded then Interrupted(|w.ok|) else WindowEnd(|w.failed|);
    s.(journal := Stamp(Stamp(s.journal, end, kept, 0), SegmentEnd(0, |w.ok|), kept, 1),
       bounded := s.bounded || bounded,
       phase := if w.failed != {} || failsAfter then Idle else Closing(true))
  }

  /** planResume and, unless only the close is left, the start of the window over
      the ballots the chain was seen to lack. */
  function PerformStartResume(c: Config, s: State, seen: set<nat>, kept: seq<bool>): State {
    if CloseOnly(s.journal, s.closeRecorded) then s.(phase := Closing(false), cancelled := false)
    else if !Open(s.journal) then s
    else
      var segment, w := NextSegment(s.journal), OpenedWindow(c.n, seen);
      var j := if InterruptedAt in s.journal then s.journal else Stamp(s.journal, InterruptedAt, kept, 0);
      s.(journal := Stamp(Stamp(j, SegmentStart(segment), kept, 1), WindowStart(|w.pending|), kept, 2),
         phase := Running(segment, w), cancelled := false)
  }

  /** resumeBallots, from the end of its window to closeElection. */
  function PerformEndResume(s: State, reread: Option<set<nat>>, failsAfter: bool, kept: seq<bool>): State
    requires s.phase.Draining?
  {
    var w := s.phase.w;
    var dropped := Dropped(w, reread);
    var end := if s.phase.stopped || dropped != {} then Interrupted(|w.ok|) else WindowEnd(|dropped|);
    s.(journal := Stamp(Stamp(s.journal, end, kept, 0), SegmentEnd(s.phase.segment, |w.ok|), kept, 1),
       phase := if dropped != {} || failsAfter || s.cancelled then Idle else Closing(false))
  }

  /** A resume counts a close the chain already holds as its own. */
  function PerformSendClose(s: State, answer: Answer, recorded: bool): State
    requires s.phase.Closing?
  {
    var done := answer.Committed? || (s.closed && !s.phase.first);
    s.(closeSent := true, phase := Idle, closed := s.closed || answer.Committed?,
       closeInFlight := s.closeInFlight || answer.Lost?, closeRecorded := s.closeRecorded || (done && recorded))
  }

  /** A crash forgets the phase, not the ledger or the journal; what was in
      flight may still commit. */
  function PerformCrash(s: State): State {
    var after := s.(phase := Idle, cancelled := false);
    if InWindow(s) then
      after.(limbo := s.limbo + set k | k in s.phase.w.flying && k < |s.phase.w.pending| :: s.phase.w.pending[k])
    else after
  }

  /** One step; a step that is not enabled changes nothing. */
  function Perform(c: Config, s: State, step: Step): State {
    if !Enabled(c, s, step) then s
    else
      match step
      case StartSetup(answer) => PerformStartSetup(s, answer)
      case LandCreate => s.(created := true, createInFlight := false)
      case OpenWindow(kept) =>
        s.(journal := Stamp(Stamp(s.journal, WindowStart(c.n), kept, 0), SegmentStart(0), kept, 1),
           phase := Running(0, OpenedWindow(c.n, {})))
      case FailSetup => s.(phase := Idle)
      case Dispatch =>
        var w := s.phase.w;
        s.(phase := Running(s.phase.segment, w.(next := w.next + 1, flying := w.flying + {w.next})))
      case Report(done) => s.(journal := s.journal + [Progress(done)])
      case Reply(k, answer) => PerformReply(s, k, answer)
      case Land(i) => s.(chain := s.chain + {i})
      case StopDispatch => s.(phase := Draining(s.phase.segment, s.phase.w, true))
      case FinishDispatch => s.(phase := Draining(s.phase.segment, s.phase.w, false))
      case EndFirst(fault, failsAfter, kept) => PerformEndFirst(c, s, fault, failsAfter, kept)
      case StartResume(seen, kept) => PerformStartResume(c, s, seen, kept)
      case EndResume(reread, failsAfter, kept) => PerformEndResume(s, reread, failsAfter, kept)
      case SendClose(answer, recorded) => PerformSendClose(s, answer, recorded)
      case GiveUpClose => s.(phase := Idle)
      case LandClose => s.(closed := true, closeInFlight := false)
      case Cancel => s.(cancelled := true)
      case Crash => PerformCrash(s)
  }

  function Run(c: Config, steps: seq<Step>): State {
    if steps == [] then INITIAL else Perform(c, Run(c, steps[..|steps| - 1]), steps[|steps| - 1])
  }

  // ----- safety ------------------------------------------------------------

  /** What the console may only close on. */
  ghost predicate MayClose(c: Config, s: State) {
    AllLanded(c.n, s.chain) || s.bounded
  }

  /** Every index of the window is accounted for, and what it knows is so. */
  ghost predicate GoodWindow(n: nat, chain: set<nat>, w: Window) {
    && w.base <= chain
    && w.pending == Missing(n, w.base)
    && w.next <= |w.pending|
    && (forall k: nat :: k in w.flying || k in w.ok || k in w.failed <==> k < w.next)
    && (forall k: nat :: k in w.ok && k < |w.pending| ==> w.pending[k] in chain)
  }

  /** A journal that would let a resume go straight to the close. */
  predicate ClaimsLanded(j: Journal) {
    !Open(j) && Resumed(j) && EndDropped(j) == 0
  }

  predicate Blank(j: Journal) {
    j == []
  }

  /** The first window starts from nothing and nobody has resumed; a resumed one
      leaves the window open. */
  predicate JournalFits(j: Journal, segment: nat, base: set<nat>) {
    if segment == 0 then !Resumed(j) && base == {} else Open(j)
  }

  ghost predicate Invariant(c: Config, s: State) {
    && (s.bounded ==> c.hasBound)
    && (s.closeSent ==> MayClose(c, s))
    && (ClaimsLanded(s.journal) ==> AllLanded(c.n, s.chain))
    && (!s.created ==> Blank(s.journal) && s.phase.Idle?)
    && match s.phase
       case Idle => true
       case Setup => Blank(s.journal)
       case Running(segment, w) =>
         && GoodWindow(c.n, s.chain, w) && JournalFits(s.journal, segment, w.base)
       case Draining(segment, w, stopped) =>
         && GoodWindow(c.n, s.chain, w) && JournalFits(s.journal, segment, w.base)
         && (!stopped ==> w.next == |w.pending|)
         && (stopped ==> s.cancelled || (segment == 0 && c.hasBound))
       case Closing(first) => if first then MayClose(c, s) || s.cancelled else AllLanded(c.n, s.chain)
  }

  lemma StampGrows(j: Journal, e: Event, kept: seq<bool>, k: nat)
    ensures var after := Stamp(j, e, kept, k);
            && (after == j || after == j + [e])
            && (!e.WindowEnd? && Open(j) ==> Open(after))
            && (Resumed(after) ==> Resumed(j) || (e.SegmentStart? && e.index >= 1))
            && (ClaimsLanded(after) ==> ClaimsLanded(j) || (e.WindowEnd? && e.dropped == 0) || (e.SegmentStart? && !Open(j)))
  {
    JournalGrows(j, e);
  }

  /** A window that dispatched everything and dropped nothing left every ballot
      on the chain. */
  lemma NothingDropped(c: Config, s: State, w: Window, seen: Option<set<nat>>)
    requires GoodWindow(c.n, s.chain, w) && w.flying == {} && w.next == |w.pending| && Dropped(w, seen) == {}
    requires seen.Some? ==> seen.value <= s.chain
    ensures AllLanded(c.n, s.chain)
  {
    MissingMeans(c.n, w.base);
    hide Missing;
    forall i: nat | i < c.n ensures i in s.chain {
      if i !in w.base {
        assert i in w.pending;
        var k: nat :| k < |w.pending| && w.pending[k] == i;
        SlotLanded(c.n, s.chain, w, seen, k);
      }
    }
  }

  lemma SlotLanded(n: nat, chain: set<nat>, w: Window, seen: Option<set<nat>>, k: nat)
    requires GoodWindow(n, chain, w) && w.flying == {} && w.next == |w.pending| && Dropped(w, seen) == {}
    requires (seen.Some? ==> seen.value <= chain) && k < |w.pending|
    ensures w.pending[k] in chain
  {
    hide Missing;
    assert k in w.flying || k in w.ok || k in w.failed;
    assert k !in Dropped(w, seen);
  }

  lemma BlankJournal(j: Journal)
    ensures Blank(j) ==> !Open(j) && !Resumed(j)
  {
  }

  lemma FirstWindowLanded(c: Config, s: State, w: Window)
    requires GoodWindow(c.n, s.chain, w) && w.flying == {} && w.next == |w.pending| && w.failed == {}
    ensures AllLanded(c.n, s.chain)
  {
    NothingDropped(c, s, w, None);
  }

  lemma NotResumedStays(j: Journal, e: Event, f: Event, kept: seq<bool>)
    requires !Resumed(j) && !e.SegmentStart? && !f.SegmentStart?
    ensures !ClaimsLanded(Stamp(Stamp(j, e, kept, 0), f, kept, 1))
  {
    StampGrows(j, e, kept, 0);
    StampGrows(Stamp(j, e, kept, 0), f, kept, 1);
  }

  lemma StepEndFirst(c: Config, s: State, fault: bool, failsAfter: bool, kept: seq<bool>)
    requires Invariant(c, s) && s.phase.Draining? && s.phase.segment == 0 && s.phase.w.flying == {}
    ensures Invariant(c, PerformEndFirst(c, s, fault, failsAfter, kept))
  {
    FirstDrained(c, s);
    FirstEndStamps(c, s, fault, failsAfter, kept);
    if s.phase.w.failed == {} && !s.phase.stopped {
      FirstWindowLanded(c, s, s.phase.w);
    }
    hide Invariant, ClaimsLanded, Resumed, Missing, Stamp, AllLanded, GoodWindow, Open, EndDropped, Opens;
    LeavesWindow(c, s, PerformEndFirst(c, s, fault, failsAfter, kept));
  }

  lemma FirstEndStamps(c: Config, s: State, fault: bool, failsAfter: bool, kept: seq<bool>)
    requires s.phase.Draining? && !Resumed(s.journal)
    ensures !ClaimsLanded(PerformEndFirst(c, s, fault, failsAfter, kept).journal)
  {
    var w := s.phase.w;
    hide Resumed, ClaimsLanded, Stamp;
    NotResumedStays(s.journal, Interrupted(|w.ok|), SegmentEnd(0, |w.ok|), kept);
    NotResumedStays(s.journal, WindowEnd(|w.failed|), SegmentEnd(0, |w.ok|), kept);
  }

  lemma FirstDrained(c: Config, s: State)
    requires Invariant(c, s) && s.phase.Draining? && s.phase.segment == 0
    ensures s.created && !Resumed(s.journal) && GoodWindow(c.n, s.chain, s.phase.w) && (s.bounded ==> c.hasBound)
    ensures if s.phase.stopped then s.cancelled || c.hasBound else s.phase.w.next == |s.phase.w.pending|
  {
    hide ClaimsLanded, Resumed, Missing, AllLanded, GoodWindow;
  }

  /** A window that ends towards nothing, or towards a close it may send. */
  lemma LeavesWindow(c: Config, s: State, after: State)
    requires Invariant(c, s) && s.created && (ClaimsLanded(after.journal) ==> AllLanded(c.n, s.chain))
    requires after.chain == s.chain && after.closeSent == s.closeSent && after.created == s.created
    requires (s.bounded ==> after.bounded) && (after.bounded ==> c.hasBound)
    requires match after.phase
             case Idle => true
             case Closing(first) => if first then MayClose(c, after) || after.cancelled else AllLanded(c.n, s.chain)
             case _ => false
    ensures Invariant(c, after)
  {
    hide ClaimsLanded, AllLanded, GoodWindow, JournalFits, Blank;
  }

  lemma StepStartResume(c: Config, s: State, seen: set<nat>, kept: seq<bool>)
    requires Invariant(c, s) && s.phase.Idle? && seen <= s.chain
    ensures Invariant(c, PerformStartResume(c, s, seen, kept))
  {
    hide Open, Resumed, EndDropped, Missing, Stamp, AllLanded, NextSegment;
    BlankJournal(s.journal);
    if Open(s.journal) {
      var segment, w := NextSegment(s.journal), OpenedWindow(c.n, seen);
      var j := if InterruptedAt in s.journal then s.journal else Stamp(s.journal, InterruptedAt, kept, 0);
      StampGrows(s.journal, InterruptedAt, kept, 0);
      StampGrows(j, SegmentStart(segment), kept, 1);
      StampGrows(Stamp(j, SegmentStart(segment), kept, 1), WindowStart(|w.pending|), kept, 2);
    }
  }

  lemma StepEndResume(c: Config, s: State, reread: Option<set<nat>>, failsAfter: bool, kept: seq<bool>)
    requires Invariant(c, s) && s.phase.Draining? && s.phase.segment >= 1 && s.phase.w.flying == {}
    requires reread.Some? ==> reread.value <= s.chain
    ensures Invariant(c, PerformEndResume(s, reread, failsAfter, kept))
  {
    ResumeDrained(c, s);
    if Dropped(s.phase.w, reread) == {} && !s.phase.stopped {
      NothingDropped(c, s, s.phase.w, reread);
    }
    ResumeEndStamps(s, reread, failsAfter, kept);
    hide Invariant, Open, Resumed, EndDropped, ClaimsLanded, Missing, Stamp, AllLanded, GoodWindow, Dropped, Opens;
    LeavesWindow(c, s, PerformEndResume(s, reread, failsAfter, kept));
  }

  lemma ResumeDrained(c: Config, s: State)
    requires Invariant(c, s) && s.phase.Draining? && s.phase.segment >= 1
    ensures s.created && Open(s.journal) && GoodWindow(c.n, s.chain, s.phase.w) && (s.bounded ==> c.hasBound)
    ensures if s.phase.stopped then s.cancelled else s.phase.w.next == |s.phase.w.pending|
  {
    hide ClaimsLanded, Resumed, Missing, AllLanded, GoodWindow, Open;
  }

  /** Only a resume that dropped nothing and was not stopped claims that all landed. */
  lemma ResumeEndStamps(s: State, reread: Option<set<nat>>, failsAfter: bool, kept: seq<bool>)
    requires s.phase.Draining? && Open(s.journal)
    ensures ClaimsLanded(PerformEndResume(s, reread, failsAfter, kept).journal) ==>
              Dropped(s.phase.w, reread) == {} && !s.phase.stopped
  {
    var w := s.phase.w;
    var dropped := Dropped(w, reread);
    var end := if s.phase.stopped || dropped != {} then Interrupted(|w.ok|) else WindowEnd(|dropped|);
    hide Resumed, EndDropped, Stamp, Dropped;
    StampGrows(s.journal, end, kept, 0);
    StampGrows(Stamp(s.journal, end, kept, 0), SegmentEnd(s.phase.segment, |w.ok|), kept, 1);
  }

  lemma ChainGrows(n: nat, chain: set<nat>, i: nat, w: Window)
    ensures AllLanded(n, chain) ==> AllLanded(n, chain + {i})
    ensures GoodWindow(n, chain, w) ==> GoodWindow(n, chain + {i}, w)
  {
  }

  lemma DispatchKeeps(n: nat, chain: set<nat>, w: Window)
    requires GoodWindow(n, chain, w) && w.next < |w.pending|
    ensures GoodWindow(n, chain, w.(next := w.next + 1, flying := w.flying + {w.next}))
  {
  }

  lemma AnswerKeeps(n: nat, chain: set<nat>, w: Window, k: nat, ok: bool)
    requires GoodWindow(n, chain, w) && k in w.flying && k < |w.pending| && (ok ==> w.pending[k] in chain)
    ensures GoodWindow(n, chain, Answered(w, k, ok)) 
    ensures var after := Answered(w, k, ok); after.base == w.base && after.next == w.next && after.pending == w.pending
  {
  }

  lemma StepTaken(c: Config, s: State, k: nat)
    requires Invariant(c, s) && InWindow(s) && k in s.phase.w.flying && k < |s.phase.w.pending|
    ensures Invariant(c, PerformReply(s, k, Committed))
  {
    hide GoodWindow, AllLanded, ClaimsLanded, Open, Resumed, Blank, JournalFits, Answered;
    var w := s.phase.w;
    var chain := s.chain + {w.pending[k]};
    ChainGrows(c.n, s.chain, w.pending[k], w);
    AnswerKeeps(c.n, chain, w, k, true);
  }

  lemma StepNotTaken(c: Config, s: State, k: nat, answer: Answer)
    requires Invariant(c, s) && InWindow(s) && k in s.phase.w.flying && k < |s.phase.w.pending| && !answer.Committed?
    ensures Invariant(c, PerformReply(s, k, answer))
  {
    hide GoodWindow, AllLanded, ClaimsLanded, Open, Resumed, Blank, JournalFits, Answered;
    AnswerKeeps(c.n, s.chain, s.phase.w, k, false);
  }

  lemma StepLand(c: Config, s: State, i: nat)
    requires Invariant(c, s)
    ensures Invariant(c, s.(chain := s.chain + {i}))
  {
    hide GoodWindow, AllLanded, ClaimsLanded, Open, Resumed, Blank;
    ChainGrows(c.n, s.chain, i, if InWindow(s) then s.phase.w else OpenedWindow(0, {}));
  }

  lemma StepOpenWindow(c: Config, s: State, kept: seq<bool>)
    requires Invariant(c, s) && s.phase.Setup?
    ensures Invariant(c, Perform(c, s, OpenWindow(kept)))
  {
    BlankJournal(s.journal);
    StampGrows(s.journal, WindowStart(c.n), kept, 0);
    StampGrows(Stamp(s.journal, WindowStart(c.n), kept, 0), SegmentStart(0), kept, 1);
    hide AllLanded, Open, Resumed, Stamp, Missing;
  }

  lemma StepReport(c: Config, s: State, done: nat)
    requires Invariant(c, s) && InWindow(s)
    ensures Invariant(c, s.(journal := s.journal + [Progress(done)]))
  {
    JournalGrows(s.journal, Progress(done));
    hide GoodWindow, AllLanded, Open, Resumed, EndDropped;
  }

  lemma StepDispatch(c: Config, s: State)
    requires Invariant(c, s) && Enabled(c, s, Dispatch)
    ensures Invariant(c, Perform(c, s, Dispatch))
  {
    hide GoodWindow, AllLanded, ClaimsLanded, Open, Resumed, Blank, JournalFits;
    DispatchKeeps(c.n, s.chain, s.phase.w);
  }

  lemma StepSetup(c: Config, s: State, step: Step)
    requires Invariant(c, s) && (step.StartSetup? || step.LandCreate? || step.FailSetup?)
    ensures Invariant(c, Perform(c, s, step))
  {
    hide GoodWindow, AllLanded, ClaimsLanded, Open, Resumed, Blank, JournalFits;
  }

  lemma StepStop(c: Config, s: State, step: Step)
    requires Invariant(c, s) && (step.StopDispatch? || step.FinishDispatch?)
    ensures Invariant(c, Perform(c, s, step))
  {
    hide GoodWindow, AllLanded, ClaimsLanded, Open, Resumed, Blank, JournalFits;
  }

  lemma StepClose(c: Config, s: State, step: Step)
    requires Invariant(c, s) && (step.SendClose? || step.GiveUpClose? || step.LandClose?)
    ensures Invariant(c, Perform(c, s, step))
  {
    hide GoodWindow, AllLanded, ClaimsLanded, Open, Resumed, Blank, JournalFits;
  }

  lemma StepInterrupt(c: Config, s: State, step: Step)
    requires Invariant(c, s) && (step.Cancel? || step.Crash?)
    ensures Invariant(c, Perform(c, s, step))
  {
    hide GoodWindow, AllLanded, ClaimsLanded, Open, Resumed, Blank, JournalFits;
  }

  lemma StepKeeps(c: Config, s: State, step: Step)
    requires Invariant(c, s)
    ensures Invariant(c, Perform(c, s, step))
  {
    hide Invariant, PerformEndFirst, PerformStartResume, PerformEndResume, PerformReply, PerformStartSetup, PerformSendClose,
      PerformCrash;
    if Enabled(c, s, step) {
      match step
      case StartSetup(_) => StepSetup(c, s, step);
      case LandCreate => StepSetup(c, s, step);
      case FailSetup => StepSetup(c, s, step);
      case OpenWindow(kept) => StepOpenWindow(c, s, kept);
      case Dispatch => StepDispatch(c, s);
      case Reply(k, answer) =>
        if answer.Committed? {
          StepTaken(c, s, k);
        } else {
          StepNotTaken(c, s, k, answer);
        }
      case Land(i) => StepLand(c, s, i);
      case Report(done) => StepReport(c, s, done);
      case StopDispatch => StepStop(c, s, step);
      case FinishDispatch => StepStop(c, s, step);
      case EndFirst(fault, failsAfter, kept) => StepEndFirst(c, s, fault, failsAfter, kept);
      case StartResume(seen, kept) => StepStartResume(c, s, seen, kept);
      case EndResume(reread, failsAfter, kept) => StepEndResume(c, s, reread, failsAfter, kept);
      case SendClose(_, _) => StepClose(c, s, step);
      case GiveUpClose => StepClose(c, s, step);
      case LandClose => StepClose(c, s, step);
      case Cancel => StepInterrupt(c, s, step);
      case Crash => StepInterrupt(c, s, step);
    }
  }

  lemma {:induction false} RunKeeps(c: Config, steps: seq<Step>)
    ensures Invariant(c, Run(c, steps))
  {
    if steps != [] {
      RunKeeps(c, steps[..|steps| - 1]);
      StepKeeps(c, Run(c, steps[..|steps| - 1]), steps[|steps| - 1]);
    }
  }

  /** In every run, whatever was lost, cancelled or crashed: CloseElection goes out
      only with every ballot on the chain, or after the first window ended at its
      own bound without dropping a ballot. */
  lemma CloseIsSafe(c: Config, steps: seq<Step>)
    ensures Run(c, steps).closeSent ==> AllLanded(c.n, Run(c, steps).chain) || (c.hasBound && Run(c, steps).bounded)
  {
    RunKeeps(c, steps);
  }

  // ----- the window of a security run --------------------------------------

  /** Past the pause, no ballot of the first half is still unanswered. */
  ghost predicate HalvesApart(c: Config, p: Phase) {
    (p.Running? || p.Draining?) && p.segment == 0 && p.w.next > c.pauseAt > 0 ==>
      forall k :: k in p.w.flying ==> k >= c.pauseAt
  }

  /** In every run the first half of a paused window is answered before the
      second half goes out: the window is its two halves, one after the other. */
  lemma {:induction false} FirstHalfFirst(c: Config, steps: seq<Step>)
    ensures HalvesApart(c, Run(c, steps).phase)
  {
    if steps != [] {
      var front, step := steps[..|steps| - 1], steps[|steps| - 1];
      FirstHalfFirst(c, front);
      HalvesStep(c, Run(c, front), step);
    }
  }

  lemma HalvesStep(c: Config, s: State, step: Step)
    requires HalvesApart(c, s.phase)
    ensures HalvesApart(c, Perform(c, s, step).phase)
  {
    hide *;
    if !Enabled(c, s, step) {
      NotTaken(c, s, step);
    } else {
      match step
      case Dispatch => HalvesDispatch(c, s);
      case Reply(k, answer) => HalvesReply(c, s, k, answer);
      case StartResume(seen, kept) => HalvesResume(c, s, seen, kept);
      case _ => HalvesQuiet(c, s, step);
    }
  }

  lemma NotTaken(c: Config, s: State, step: Step)
    requires !Enabled(c, s, step)
    ensures Perform(c, s, step) == s
  {
    hide Enabled;
  }

  lemma HalvesDispatch(c: Config, s: State)
    requires HalvesApart(c, s.phase) && Enabled(c, s, Dispatch)
    ensures HalvesApart(c, Perform(c, s, Dispatch).phase)
  {
  }

  lemma HalvesReply(c: Config, s: State, k: nat, answer: Answer)
    requires HalvesApart(c, s.phase) && Enabled(c, s, Reply(k, answer))
    ensures HalvesApart(c, Perform(c, s, Reply(k, answer)).phase)
  {
    FewerFlying(c, s.phase, k, answer.Committed?);
    hide HalvesApart, Answered, WithWindow;
  }

  lemma FewerFlying(c: Config, p: Phase, k: nat, ok: bool)
    requires HalvesApart(c, p) && (p.Running? || p.Draining?)
    ensures HalvesApart(c, WithWindow(p, Answered(p.w, k, ok)))
  {
  }

  lemma HalvesResume(c: Config, s: State, seen: set<nat>, kept: seq<bool>)
    requires Enabled(c, s, StartResume(seen, kept))
    ensures HalvesApart(c, Perform(c, s, StartResume(seen, kept)).phase)
  {
    hide Open, CloseOnly, Missing, Stamp, NextSegment;
    if CloseOnly(s.journal, s.closeRecorded) {
    } else if Open(s.journal) {
    }
  }

  lemma EndsOutside(c: Config, s: State, fault: bool, failsAfter: bool, reread: Option<set<nat>>, kept: seq<bool>)
    requires s.phase.Draining?
    ensures !InWindow(PerformEndFirst(c, s, fault, failsAfter, kept))
    ensures !InWindow(PerformEndResume(s, reread, failsAfter, kept))
  {
    hide Stamp, Dropped;
  }

  lemma HalvesQuiet(c: Config, s: State, step: Step)
    requires HalvesApart(c, s.phase) && !step.Dispatch? && !step.Reply? && !step.StartResume?
    ensures HalvesApart(c, Perform(c, s, step).phase)
  {
    hide Open, CloseOnly, Missing, Dropped, Stamp, EndDropped, Resumed, Reported, PerformStartResume, PerformReply,
      PerformEndFirst, PerformEndResume;
    match step
    case StartSetup(_) =>
    case OpenWindow(_) =>
    case EndFirst(fault, failsAfter, kept) =>
      if s.phase.Draining? {
        EndsOutside(c, s, fault, failsAfter, None, kept);
      }
    case EndResume(reread, failsAfter, kept) =>
      if s.phase.Draining? {
        EndsOutside(c, s, false, failsAfter, reread, kept);
      }
    case SendClose(_, _) =>
    case Crash =>
    case _ =>
  }

  // ----- what a resume sends -----------------------------------------------

  /** In every run, a window sends each index at most once, and never one the
      chain was seen to hold when the window was planned. */
  lemma NeverResubmitsSeen(c: Config, steps: seq<Step>)
    ensures var s := Run(c, steps);
            InWindow(s) ==>
              && s.phase.w.base <= s.chain
              && (forall k :: 0 <= k < |s.phase.w.pending| ==> s.phase.w.pending[k] !in s.phase.w.base)
              && (forall j, k :: 0 <= j < k < |s.phase.w.pending| ==> s.phase.w.pending[j] != s.phase.w.pending[k])
  {
    RunKeeps(c, steps);
    var s := Run(c, steps);
    if InWindow(s) {
      var w := s.phase.w;
      assert GoodWindow(c.n, s.chain, w);
      MissingMeans(c.n, w.base);
      assert forall k :: 0 <= k < |w.pending| ==> w.pending[k] in w.pending;
    }
  }

  /** Segment numbers rise along the journal, and the next one exceeds them all. */
  ghost predicate Ascending(j: Journal) {
    && (forall a, b :: 0 <= a < b < |j| && j[a].SegmentStart? && j[b].SegmentStart? ==> j[a].index < j[b].index)
    && (forall a :: 0 <= a < |j| && j[a].SegmentStart? ==> j[a].index < NextSegment(j))
  }

  lemma AscendingSnoc(j: Journal, e: Event)
    requires Ascending(j) && (e.SegmentStart? ==> e.index == NextSegment(j) || forall a :: 0 <= a < |j| ==> !j[a].SegmentStart?)
    ensures Ascending(j + [e]) && (!e.SegmentStart? ==> NextSegment(j + [e]) == NextSegment(j))
  {
    JournalGrows(j, e);
    hide NextSegment;
    var after, n := j + [e], |j|;
    assert forall a :: 0 <= a < n ==> after[a] == j[a];
    forall a, b | 0 <= a < b <= n && after[a].SegmentStart? && after[b].SegmentStart?
      ensures after[a].index < after[b].index
    {
      if b == n {
        assert after[b] == e && j[a].index < NextSegment(j);
      } else {
        assert j[a].index < j[b].index;
      }
    }
    forall a | 0 <= a <= n && after[a].SegmentStart? ensures after[a].index < NextSegment(after) {
      if a < n {
        assert j[a].index < NextSegment(j);
      }
    }
  }

  lemma AscendingStamp(j: Journal, e: Event, kept: seq<bool>, k: nat)
    requires Ascending(j) && (e.SegmentStart? ==> e.index == NextSegment(j) || forall a :: 0 <= a < |j| ==> !j[a].SegmentStart?)
    ensures Ascending(Stamp(j, e, kept, k))
    ensures !e.SegmentStart? ==> NextSegment(Stamp(j, e, kept, k)) == NextSegment(j)
  {
    AscendingSnoc(j, e);
    hide Ascending, NextSegment;
  }

  /** No number is given twice, however many stamps the journal lost. */
  lemma {:induction false} SegmentsAscend(c: Config, steps: seq<Step>)
    ensures Ascending(Run(c, steps).journal)
  {
    if steps != [] {
      var front, step := steps[..|steps| - 1], steps[|steps| - 1];
      SegmentsAscend(c, front);
      RunKeeps(c, front);
      var s := Run(c, front);
      AscendingStep(c, s, step);
    }
  }

  lemma AscendingStep(c: Config, s: State, step: Step)
    requires Invariant(c, s) && Ascending(s.journal)
    ensures Ascending(Perform(c, s, step).journal)
  {
    hide Ascending, GoodWindow, ClaimsLanded, Open, Resumed, Dropped, CloseOnly,
      PerformEndFirst, PerformStartResume, PerformEndResume;
    if Enabled(c, s, step) {
      match step
      case OpenWindow(kept) =>
        assert s.journal == [];
        AscendingOpen(c.n, kept);
      case Report(done) => AscendingReport(s.journal, done);
      case EndFirst(fault, failsAfter, kept) => AscendingEndFirst(c, s, fault, failsAfter, kept);
      case StartResume(seen, kept) => AscendingStartResume(c, s, seen, kept);
      case EndResume(reread, failsAfter, kept) => AscendingEndResume(s, reread, failsAfter, kept);
      case _ =>
    }
  }

  lemma AscendingEndFirst(c: Config, s: State, fault: bool, failsAfter: bool, kept: seq<bool>)
    requires s.phase.Draining? && Ascending(s.journal)
    ensures Ascending(PerformEndFirst(c, s, fault, failsAfter, kept).journal)
  {
    var w := s.phase.w;
    AscendingEnd(s.journal, Interrupted(|w.ok|), SegmentEnd(0, |w.ok|), kept);
    AscendingEnd(s.journal, WindowEnd(|w.failed|), SegmentEnd(0, |w.ok|), kept);
    hide Ascending, Stamp;
  }

  lemma AscendingStartResume(c: Config, s: State, seen: set<nat>, kept: seq<bool>)
    requires Ascending(s.journal)
    ensures Ascending(PerformStartResume(c, s, seen, kept).journal)
  {
    AscendingResume(s.journal, |OpenedWindow(c.n, seen).pending|, kept);
    hide Ascending, Stamp, NextSegment, Open, CloseOnly, Missing;
  }

  lemma AscendingEndResume(s: State, reread: Option<set<nat>>, failsAfter: bool, kept: seq<bool>)
    requires s.phase.Draining? && Ascending(s.journal)
    ensures Ascending(PerformEndResume(s, reread, failsAfter, kept).journal)
  {
    var w := s.phase.w;
    AscendingEnd(s.journal, Interrupted(|w.ok|), SegmentEnd(s.phase.segment, |w.ok|), kept);
    AscendingEnd(s.journal, WindowEnd(|Dropped(w, reread)|), SegmentEnd(s.phase.segment, |w.ok|), kept);
    hide Ascending, Stamp, Dropped;
  }

  lemma AscendingOpen(n: nat, kept: seq<bool>)
    ensures Ascending(Stamp(Stamp([], WindowStart(n), kept, 0), SegmentStart(0), kept, 1))
  {
    AscendingStamp([], WindowStart(n), kept, 0);
    AscendingStamp(Stamp([], WindowStart(n), kept, 0), SegmentStart(0), kept, 1);
  }

  lemma AscendingReport(j: Journal, done: nat)
    requires Ascending(j)
    ensures Ascending(j + [Progress(done)])
  {
    AscendingStamp(j, Progress(done), [true], 0);
  }

  lemma AscendingEnd(j: Journal, e: Event, f: Event, kept: seq<bool>)
    requires Ascending(j) && !e.SegmentStart? && !f.SegmentStart?
    ensures Ascending(Stamp(Stamp(j, e, kept, 0), f, kept, 1))
  {
    AscendingStamp(j, e, kept, 0);
    AscendingStamp(Stamp(j, e, kept, 0), f, kept, 1);
  }

  lemma AscendingResume(j: Journal, n: nat, kept: seq<bool>)
    requires Ascending(j)
    ensures var marked := if InterruptedAt in j then j else Stamp(j, InterruptedAt, kept, 0);
            Ascending(Stamp(Stamp(marked, SegmentStart(NextSegment(j)), kept, 1), WindowStart(n), kept, 2))
  {
    var marked := if InterruptedAt in j then j else Stamp(j, InterruptedAt, kept, 0);
    AscendingStamp(j, InterruptedAt, kept, 0);
    AscendingStamp(marked, SegmentStart(NextSegment(j)), kept, 1);
    AscendingStamp(Stamp(marked, SegmentStart(NextSegment(j)), kept, 1), WindowStart(n), kept, 2);
  }
}
