/** The journal's progress queue: one dispatcher that never waits, one writer,
    and any number of stampers ordering themselves by barriers. */
module JournalQueue {

  /** Progress lines the writer may fall behind. */
  const QUEUE := 64

  /** stampProgress. Lines are named by the order they are stamped in. */
  datatype Dispatcher =
    | Ready
    | Sending(line: nat)
    | Popping(line: nat)
    | Counting(line: nat)
    | Resending(line: nat)
    | GivingUp(line: nat)

  /** writeProgress; `owner` is the stamper whose barrier it serves. */
  datatype Writer =
    | Top
    | Selecting
    | Writing(line: nat)
    | Draining(owner: nat)
    | DrainWriting(owner: nat, line: nat)
    | Retired

  /** Stamp and Close. `before` is every line handed over when it began; `freed`
      is how it got past its barrier. */
  datatype Stamper =
    | Absent
    | Offering(before: set<nat>, stop: bool)
    | Waiting(before: set<nat>, stop: bool)
    | Cleared(before: set<nat>, stop: bool, freed: bool)
    | Finished(before: set<nat>, stop: bool, freed: bool)

  datatype Entry = Line(id: nat) | Mark(owner: nat)

  /** `log` is every write in the order the mutex granted them; `file` is what
      reached the disk before the first failure. */
  datatype State = State(
    next: nat, dispatcher: Dispatcher, queue: seq<nat>, writer: Writer, stampers: nat -> Stamper,
    written: seq<nat>, dropped: set<nat>, coalesced: nat, log: seq<Entry>, file: seq<Entry>, failed: bool)

  const INITIAL := State(0, Ready, [], Top, _ => Absent, [], {}, 0, [], [], false)

  datatype Outcome = Done | WriteFails | SyncFails

  datatype Step =
    | Stamp
    | TrySend
    | TryPop
    | Count
    | TryResend
    | GiveUp
    | TakeLine
    | FindEmpty
    | TakeBarrier(owner: nat)
    | WriteLine(outcome: Outcome)
    | Release
    | StartStamper(owner: nat, stop: bool)
    | SeeRetired(owner: nat)
    | WriteMark(owner: nat, outcome: Outcome)

  function WriterHand(w: Writer): seq<nat> {
    match w
    case Writing(line) => [line]
    case DrainWriting(_, line) => [line]
    case _ => []
  }

  function DispatcherHand(d: Dispatcher): seq<nat> {
    match d
    case Ready => []
    case Sending(line) => [line]
    case Popping(line) => [line]
    case Counting(line) => [line]
    case Resending(line) => [line]
    case GivingUp(line) => [line]
  }

  /** Every line on its way, oldest first. */
  function Pipeline(s: State): seq<nat> {
    s.written + WriterHand(s.writer) + s.queue + DispatcherHand(s.dispatcher)
  }

  /** Lines the dispatcher is done with. */
  function HandedOver(s: State): set<nat> {
    (set x | x in s.written) + (set x | x in WriterHand(s.writer)) + (set x | x in s.queue) + s.dropped
  }

  /** Lines written or coalesced away. */
  function Settled(s: State): set<nat> {
    (set x | x in s.written) + s.dropped
  }

  predicate Enabled(s: State, step: Step) {
    match step
    case Stamp => s.dispatcher.Ready? && !s.writer.Retired?
    case TrySend => s.dispatcher.Sending?
    case TryPop => s.dispatcher.Popping?
    case Count => s.dispatcher.Counting?
    case TryResend => s.dispatcher.Resending?
    case GiveUp => s.dispatcher.GivingUp?
    case TakeLine => (s.writer.Top? || s.writer.Selecting? || s.writer.Draining?) && s.queue != []
    case FindEmpty => s.writer.Top? && s.queue == []
    case TakeBarrier(owner) => s.writer.Selecting? && s.stampers(owner).Offering?
    case WriteLine(_) => s.writer.Writing? || s.writer.DrainWriting?
    case Release => s.writer.Draining? && s.queue == []
    case StartStamper(owner, _) => s.stampers(owner).Absent?
    case SeeRetired(owner) => s.writer.Retired? && (s.stampers(owner).Offering? || s.stampers(owner).Waiting?)
    case WriteMark(owner, _) => s.stampers(owner).Cleared?
  }

  function SetStamper(s: State, owner: nat, p: Stamper): State {
    s.(stampers := (x: nat) => if x == owner then p else s.stampers(x))
  }

  /** One write under the mutex; after a failure the file takes nothing more. */
  function Attempt(s: State, e: Entry, outcome: Outcome): State {
    s.(log := s.log + [e],
       file := if s.failed || outcome.WriteFails? then s.file else s.file + [e],
       failed := s.failed || !outcome.Done?)
  }

  function PerformSend(s: State): State
    requires s.dispatcher.Sending?
  {
    if |s.queue| < QUEUE then s.(queue := s.queue + [s.dispatcher.line], dispatcher := Ready)
    else s.(dispatcher := Popping(s.dispatcher.line))
  }

  function PerformPop(s: State): State
    requires s.dispatcher.Popping?
  {
    if s.queue == [] then s.(dispatcher := Resending(s.dispatcher.line))
    else s.(queue := s.queue[1..], dropped := s.dropped + {s.queue[0]}, dispatcher := Counting(s.dispatcher.line))
  }

  function PerformResend(s: State): State
    requires s.dispatcher.Resending?
  {
    if |s.queue| < QUEUE then s.(queue := s.queue + [s.dispatcher.line], dispatcher := Ready)
    else s.(dispatcher := GivingUp(s.dispatcher.line))
  }

  function PerformTake(s: State): State
    requires s.queue != []
  {
    s.(queue := s.queue[1..],
       writer := if s.writer.Draining? then DrainWriting(s.writer.owner, s.queue[0]) else Writing(s.queue[0]))
  }

  function PerformWrite(s: State, outcome: Outcome): State
    requires s.writer.Writing? || s.writer.DrainWriting?
  {
    Attempt(s, Line(s.writer.line), outcome)
    .(written := s.written + [s.writer.line],
      writer := if s.writer.DrainWriting? then Draining(s.writer.owner) else Top)
  }

  /** The queue is empty: the barrier opens, and a stop barrier retires the writer. */
  function PerformRelease(s: State): State
    requires s.writer.Draining?
  {
    var p := s.stampers(s.writer.owner);
    if p.Waiting? then
      SetStamper(s, s.writer.owner, Cleared(p.before, p.stop, true)).(writer := if p.stop then Retired else Top)
    else s.(writer := Top)
  }

  function Perform(s: State, step: Step): State {
    if !Enabled(s, step) then s
    else
      match step
      case Stamp => s.(next := s.next + 1, dispatcher := Sending(s.next))
      case TrySend => PerformSend(s)
      case TryPop => PerformPop(s)
      case Count => s.(coalesced := s.coalesced + 1, dispatcher := Resending(s.dispatcher.line))
      case TryResend => PerformResend(s)
      case GiveUp => s.(coalesced := s.coalesced + 1, dropped := s.dropped + {s.dispatcher.line}, dispatcher := Ready)
      case TakeLine => PerformTake(s)
      case FindEmpty => s.(writer := Selecting)
      case TakeBarrier(owner) =>
        SetStamper(s, owner, Waiting(s.stampers(owner).before, s.stampers(owner).stop)).(writer := Draining(owner))
      case WriteLine(outcome) => PerformWrite(s, outcome)
      case Release => PerformRelease(s)
      case StartStamper(owner, stop) => SetStamper(s, owner, Offering(HandedOver(s), stop))
      case SeeRetired(owner) => SetStamper(s, owner, Cleared(s.stampers(owner).before, s.stampers(owner).stop, false))
      case WriteMark(owner, outcome) =>
        var p := s.stampers(owner);
        SetStamper(if p.stop then s else Attempt(s, Mark(owner), outcome), owner, Finished(p.before, p.stop, p.freed))
  }

  function Run(steps: seq<Step>): State {
    if steps == [] then INITIAL else Perform(Run(steps[..|steps| - 1]), steps[|steps| - 1])
  }

  // ----- conservation and order --------------------------------------------

  predicate Ascending(p: seq<nat>) {
    forall i, j :: 0 <= i < j < |p| ==> p[i] < p[j]
  }

  /** Each stamped line is on its way or coalesced away, never both; lines travel
      in the order they were stamped. */
  ghost predicate Conserved(s: State) {
    var p := Pipeline(s);
    && Ascending(p) && (forall x :: x in p ==> x < s.next && x !in s.dropped)
    && (forall x :: x in s.dropped ==> x < s.next)
    && s.next == |p| + |s.dropped|
  }

  /** The queue is bounded, the counter lags one pop behind at most, and with one
      dispatcher a popped queue always has room for the line. */
  ghost predicate Bounded(s: State) {
    Fits(s.queue, s.dispatcher, s.coalesced, s.dropped)
  }

  ghost predicate Fits(queue: seq<nat>, d: Dispatcher, coalesced: nat, dropped: set<nat>) {
    && |queue| <= QUEUE && !d.GivingUp?
    && (d.Counting? || d.Resending? ==> |queue| < QUEUE)
    && coalesced + (if d.Counting? then 1 else 0) == |dropped|
  }

  /** The step leaves every line where it was in the order. */
  lemma SameOrder(s: State, step: Step)
    requires Bounded(s) && Enabled(s, step) && !step.Stamp? && !step.TryPop? && !step.GiveUp?
    ensures Pipeline(Perform(s, step)) == Pipeline(s)
    ensures Perform(s, step).dropped == s.dropped && Perform(s, step).next == s.next
  {
  }

  lemma StampConserves(s: State)
    requires Conserved(s) && Enabled(s, Stamp)
    ensures Conserved(Perform(s, Stamp))
  {
    var after := Perform(s, Stamp);
    assert Pipeline(after) == Pipeline(s) + [s.next];
    AppendAscends(Pipeline(s), s.next);
    hide Pipeline, Ascending;
  }

  lemma PopStepConserves(s: State)
    requires Conserved(s) && s.dispatcher.Popping? && s.queue != []
    ensures Conserved(PerformPop(s))
  {
    var after := PerformPop(s);
    var a, d := s.written + WriterHand(s.writer), DispatcherHand(s.dispatcher);
    assert Pipeline(s) == a + s.queue + d && Pipeline(after) == a + s.queue[1..] + d;
    assert s.queue[0] in s.queue && s.queue[0] in Pipeline(s);
    PopConserves(a, s.queue, d);
    hide Pipeline, Ascending, WriterHand, DispatcherHand;
    assert |Pipeline(after)| + 1 == |Pipeline(s)|;
  }

  lemma StepConserves(s: State, step: Step)
    requires Conserved(s) && Bounded(s)
    ensures Conserved(Perform(s, step)) && Bounded(Perform(s, step))
  {
    StepBounded(s, step);
    if Enabled(s, step) {
      if step.Stamp? {
        StampConserves(s);
      } else if step.TryPop? && s.queue != [] {
        PopStepConserves(s);
      } else if step.TryPop? {
        assert Pipeline(Perform(s, step)) == Pipeline(s);
      } else {
        assert !step.GiveUp?;
        SameOrder(s, step);
        hide Perform, Pipeline, Ascending;
      }
    }
  }

  lemma StepBounded(s: State, step: Step)
    requires Conserved(s) && Bounded(s)
    ensures Bounded(Perform(s, step))
  {
    hide Conserved, HandedOver;
    if Enabled(s, step) {
      if step.TryPop? || step.TakeLine? || step.TrySend? || step.Stamp? || step.Count? || step.TryResend? || step.GiveUp? {
        QueueBounded(s, step);
      } else {
        assert Perform(s, step).queue == s.queue && Perform(s, step).dispatcher == s.dispatcher;
        assert Perform(s, step).coalesced == s.coalesced && Perform(s, step).dropped == s.dropped;
        hide Fits;
      }
    }
  }

  lemma QueueBounded(s: State, step: Step)
    requires Conserved(s) && Bounded(s) && Enabled(s, step)
    requires step.TryPop? || step.TakeLine? || step.TrySend? || step.Stamp? || step.Count? || step.TryResend? || step.GiveUp?
    ensures Bounded(Perform(s, step))
  {
    if step.TryPop? && s.queue != [] {
      HeadNotDropped(s);
    }
    hide Conserved;
    var after := Perform(s, step);
    match step
    case TryPop =>
    case TakeLine => assert after.dropped == s.dropped && after.coalesced == s.coalesced;
    case TrySend => assert after.dropped == s.dropped && after.coalesced == s.coalesced;
    case TryResend => assert after.dropped == s.dropped && after.coalesced == s.coalesced;
    case Stamp => assert after.dropped == s.dropped && after.coalesced == s.coalesced;
    case Count => assert after.dropped == s.dropped;
    case _ =>
  }

  lemma HeadNotDropped(s: State)
    requires Conserved(s) && s.queue != []
    ensures s.queue[0] !in s.dropped
  {
    assert s.queue[0] in s.queue && s.queue[0] in Pipeline(s);
  }

  lemma AppendAscends(p: seq<nat>, x: nat)
    requires Ascending(p) && forall y :: y in p ==> y < x
    ensures Ascending(p + [x])
  {
    forall i, j | 0 <= i < j < |p| + 1 ensures (p + [x])[i] < (p + [x])[j] {
      assert p[i] in p;
    }
  }

  lemma PopConserves(a: seq<nat>, queue: seq<nat>, d: seq<nat>)
    requires queue != [] && Ascending(a + queue + d)
    ensures Ascending(a + queue[1..] + d) && queue[0] !in a + queue[1..] + d
    ensures forall x :: x in a + queue[1..] + d ==> x in a + queue + d
  {
    var p, r := a + queue + d, a + queue[1..] + d;
    forall i | 0 <= i < |r| ensures r[i] == p[if i < |a| then i else i + 1] {
    }
    assert p[|a|] == queue[0];
  }

  lemma {:induction false} RunConserves(steps: seq<Step>)
    ensures Conserved(Run(steps)) && Bounded(Run(steps))
  {
    if steps != [] {
      RunConserves(steps[..|steps| - 1]);
      StepConserves(Run(steps[..|steps| - 1]), steps[|steps| - 1]);
    }
  }

  /** At every moment of every interleaving, what was stamped is what was written,
      plus what waits in the queue or in a hand, plus what was coalesced; and the
      written lines are an in-order part of the stamped ones. */
  lemma ProgressIsConserved(steps: seq<Step>)
    ensures var s := Run(steps);
            && s.next == |s.written| + |s.queue| + |WriterHand(s.writer)| + |DispatcherHand(s.dispatcher)| + |s.dropped|
            && (s.coalesced == |s.dropped| || (s.dispatcher.Counting? && s.coalesced + 1 == |s.dropped|))
            && |s.queue| <= QUEUE && Ascending(s.written) && forall x :: x in s.written ==> x < s.next
  {
    RunConserves(steps);
    var s := Run(steps);
    var p := Pipeline(s);
    forall i | 0 <= i < |s.written| ensures p[i] == s.written[i] {
    }
    forall x | x in s.written ensures x in p {
    }
  }

  /** The line just stamped is never the one coalesced away. */
  lemma NewestIsKept(steps: seq<Step>)
    ensures var s := Run(steps); !s.dispatcher.GivingUp? && (s.next > 0 ==> s.next - 1 !in s.dropped)
  {
    RunConserves(steps);
    RunKeepsNewest(steps);
  }

  ghost predicate NewestLast(s: State) {
    var p := Pipeline(s);
    s.next > 0 ==> p != [] && p[|p| - 1] == s.next - 1
  }

  lemma {:induction false} RunKeepsNewest(steps: seq<Step>)
    ensures NewestLast(Run(steps))
  {
    if steps != [] {
      RunKeepsNewest(steps[..|steps| - 1]);
      RunConserves(steps[..|steps| - 1]);
      StepKeepsNewest(Run(steps[..|steps| - 1]), steps[|steps| - 1]);
    }
  }

  lemma StepKeepsNewest(s: State, step: Step)
    requires Bounded(s) && NewestLast(s)
    ensures NewestLast(Perform(s, step))
  {
    var after := Perform(s, step);
    if Enabled(s, step) {
      if step.Stamp? {
        assert Pipeline(after) == Pipeline(s) + [s.next];
      } else if step.TryPop? && s.queue != [] {
        hide Perform;
        assert DispatcherHand(s.dispatcher) == [s.dispatcher.line];
        assert Pipeline(s)[|Pipeline(s)| - 1] == s.dispatcher.line;
        LastOfPop(s);
      } else if step.TryPop? {
        assert Pipeline(after) == Pipeline(s);
      } else if !step.GiveUp? {
        SameOrder(s, step);
      }
    }
  }

  lemma LastOfPop(s: State)
    requires s.dispatcher.Popping? && s.queue != []
    ensures var p := Pipeline(Perform(s, TryPop)); p != [] && p[|p| - 1] == s.dispatcher.line && Perform(s, TryPop).next == s.next
  {
    var after := PerformPop(s);
    assert DispatcherHand(after.dispatcher) == [s.dispatcher.line];
  }

  // ----- barriers ----------------------------------------------------------

  /** The progress lines of a log, in order. */
  function LinesOf(log: seq<Entry>): seq<nat> {
    if log == [] then []
    else LinesOf(log[..|log| - 1]) + if log[|log| - 1].Line? then [log[|log| - 1].id] else []
  }

  /** The file is the log up to the first failure. */
  ghost predicate LogOk(s: State) {
    s.written == LinesOf(s.log) && s.file <= s.log && (!s.failed ==> s.file == s.log)
  }

  /** Nothing a stamper must follow is lost sight of, and once its barrier was
      released all of it is settled. */
  ghost predicate StamperOk(s: State, b: nat) {
    match s.stampers(b)
    case Absent => true
    case Offering(before, _) => before <= HandedOver(s)
    case Waiting(before, _) => before <= HandedOver(s)
    case Cleared(before, _, freed) => freed ==> before <= Settled(s)
    case Finished(before, _, freed) => freed ==> before <= Settled(s)
  }

  ghost predicate StampersOk(s: State) {
    forall b :: StamperOk(s, b)
  }

  /** A mark in the log follows every line its stamper must follow. */
  ghost predicate MarkOk(s: State, i: nat)
    requires i < |s.log|
  {
    s.log[i].Mark? ==>
      && s.stampers(s.log[i].owner).Finished?
      && (s.stampers(s.log[i].owner).freed ==>
            forall x :: x in s.stampers(s.log[i].owner).before ==> x in LinesOf(s.log[..i]) || x in s.dropped)
  }

  ghost predicate MarksOk(s: State) {
    forall i: nat :: i < |s.log| ==> MarkOk(s, i)
  }

  lemma LinesOfSnoc(log: seq<Entry>, e: Entry)
    ensures LinesOf(log + [e]) == LinesOf(log) + if e.Line? then [e.id] else []
  {
    assert (log + [e])[..|log|] == log;
  }

  lemma StepLog(s: State, step: Step)
    requires LogOk(s)
    ensures LogOk(Perform(s, step))
  {
    hide HandedOver, LinesOf;
    if Enabled(s, step) {
      match step {
        case Stamp =>
        case TrySend =>
        case TryPop =>
        case Count =>
        case TryResend =>
        case GiveUp =>
        case TakeLine =>
        case FindEmpty =>
        case TakeBarrier(_) =>
        case WriteLine(_) => LinesOfSnoc(s.log, Line(s.writer.line));
        case Release =>
        case StartStamper(_, _) =>
        case SeeRetired(_) =>
        case WriteMark(b, _) => LinesOfSnoc(s.log, Mark(b));
      }
    }
  }

  /** Lines handed over stay handed over, and settled ones settled. */
  lemma HandedOverGrows(s: State, step: Step)
    requires Bounded(s)
    ensures HandedOver(s) <= HandedOver(Perform(s, step)) && Settled(s) <= Settled(Perform(s, step))
  {
    if Enabled(s, step) {
      match step {
        case Stamp =>
        case TrySend =>
        case TryPop => assert s.queue != [] ==> s.queue == [s.queue[0]] + s.queue[1..];
        case Count =>
        case TryResend =>
        case GiveUp =>
        case TakeLine => assert s.queue != [] ==> s.queue == [s.queue[0]] + s.queue[1..];
        case FindEmpty =>
        case TakeBarrier(_) =>
        case WriteLine(_) =>
        case Release =>
        case StartStamper(_, _) =>
        case SeeRetired(_) =>
        case WriteMark(_, _) =>
      }
    }
  }

  lemma EmptyMeansSettled(s: State)
    requires s.writer.Draining? && s.queue == []
    ensures HandedOver(s) == Settled(s)
  {
  }

  lemma StepStampers(s: State, step: Step)
    requires Bounded(s) && StampersOk(s)
    ensures StampersOk(Perform(s, step))
  {
    HandedOverGrows(s, step);
    if Enabled(s, step) && step.Release? {
      EmptyMeansSettled(s);
    }
    forall b ensures StamperOk(Perform(s, step), b) {
      assert StamperOk(s, b);
      OneStamper(s, step, b);
    }
  }

  /** How a step can move one stamper. */
  lemma OneStamper(s: State, step: Step, b: nat)
    ensures var p, p' := s.stampers(b), Perform(s, step).stampers(b);
            || p' == p
            || (p.Absent? && p'.Offering? && p'.before == HandedOver(s) && HandedOver(Perform(s, step)) == HandedOver(s))
            || (p.Offering? && p'.Waiting? && p'.before == p.before)
            || (p.Waiting? && p'.Cleared? && p'.before == p.before && p'.freed && s.writer.Draining? && s.queue == [] && step.Release?)
            || ((p.Offering? || p.Waiting?) && p'.Cleared? && p'.before == p.before && !p'.freed)
            || (p.Cleared? && p'.Finished? && p'.before == p.before && p'.freed == p.freed)
  {
    match step {
      case Stamp =>
      case TrySend =>
      case TryPop =>
      case Count =>
      case TryResend =>
      case GiveUp =>
      case TakeLine =>
      case FindEmpty =>
      case TakeBarrier(_) =>
      case WriteLine(_) =>
      case Release =>
      case StartStamper(_, _) =>
      case SeeRetired(_) =>
      case WriteMark(_, _) =>
    }
  }

  lemma StepMarks(s: State, step: Step)
    requires Bounded(s) && LogOk(s) && StampersOk(s) && MarksOk(s)
    ensures MarksOk(Perform(s, step))
  {
    var after := Perform(s, step);
    HandedOverGrows(s, step);
    LogGrows(s, step);
    forall i: nat | i < |after.log| ensures MarkOk(after, i) {
      if i < |s.log| {
        assert MarkOk(s, i);
        if s.log[i].Mark? {
          OneStamper(s, step, s.log[i].owner);
          assert after.log[..i] == s.log[..i];
        }
      } else if after.log[i].Mark? {
        NewMark(s, step, i);
      }
    }
  }

  lemma LogGrows(s: State, step: Step)
    ensures var after := Perform(s, step);
            && s.log <= after.log && |after.log| <= |s.log| + 1 && s.dropped <= after.dropped
            && (|after.log| > |s.log| && after.log[|s.log|].Mark? ==>
                  step.WriteMark? && Enabled(s, step) && after.log[|s.log|].owner == step.owner)
  {
    hide HandedOver;
  }

  lemma NewMark(s: State, step: Step, i: nat)
    requires LogOk(s) && StampersOk(s) && step.WriteMark? && Enabled(s, step) && i == |s.log| < |Perform(s, step).log|
    ensures MarkOk(Perform(s, step), i)
  {
    var after := Perform(s, step);
    assert after.log[..i] == s.log;
    assert StamperOk(s, step.owner);
  }

  lemma {:induction false} RunBarriers(steps: seq<Step>)
    ensures var s := Run(steps); LogOk(s) && StampersOk(s) && MarksOk(s)
  {
    if steps != [] {
      var front, step := steps[..|steps| - 1], steps[|steps| - 1];
      RunBarriers(front);
      RunConserves(front);
      var s := Run(front);
      hide Perform, LogOk, StampersOk, MarksOk, Bounded, Conserved;
      StepLog(s, step);
      StepStampers(s, step);
      StepMarks(s, step);
    }
  }

  /** In the file, a stamper's own line comes after every progress line handed
      over before it began, unless that line was coalesced away. Only a stamper
      that found the writer already retired (Close ran first) is excepted. */
  lemma StampFollowsItsProgress(steps: seq<Step>, i: nat, x: nat)
    requires var s := Run(steps);
             && i < |s.file| && s.file[i].Mark?
             && (s.stampers(s.file[i].owner).Finished? ==>
                   s.stampers(s.file[i].owner).freed && x in s.stampers(s.file[i].owner).before)
    ensures var s := Run(steps); Line(x) in s.file[..i] || x in s.dropped
  {
    RunBarriers(steps);
    var s := Run(steps);
    assert s.file[..i] == s.log[..i] && s.file[i] == s.log[i];
    assert MarkOk(s, i);
    if x in LinesOf(s.log[..i]) {
      LineIsThere(s.log[..i], x);
    }
  }

  lemma {:induction false} LineIsThere(log: seq<Entry>, x: nat)
    requires x in LinesOf(log)
    ensures Line(x) in log
  {
    var n := |log| - 1;
    if x in LinesOf(log[..n]) {
      LineIsThere(log[..n], x);
    }
  }
}
