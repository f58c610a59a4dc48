/** What the journal says about an interrupted ballot window, and the accounting
    of a resumed one. */
module Resume {
  import opened Wrappers

  /** The journal events a resume reads. */
  datatype Event =
    | WindowStart(n: nat)
    | Progress(done: nat)
    | Interrupted(committed: nat)
    | WindowEnd(dropped: nat)
    | SegmentStart(index: nat)
    | SegmentEnd(index: nat, landed: nat)
    | InterruptedAt
    | Other

  type Journal = seq<Event>

  datatype ResumePlan =
    ResumePlan(segment: nat, remaining: nat, closeOnly: bool, lastDone: nat, stamped: bool, segments: seq<nat>)

  datatype PlanError = NotOnChain | NoJournal | NotInterrupted

  // ----- what a journal means ----------------------------------------------

  predicate Opens(e: Event) {
    e.WindowStart? || e.Progress? || e.Interrupted?
  }

  /** The last checkpoint of the ballot window leaves it open. */
  predicate Open(j: Journal) {
    j != [] &&
    var last := j[|j| - 1];
    Opens(last) || (!last.WindowEnd? && Open(j[..|j| - 1]))
  }

  /** Open says: some event opened the window and no end came after it. */
  lemma {:induction false} OpenMeans(j: Journal)
    ensures Open(j) <==> exists i :: 0 <= i < |j| && Opens(j[i]) && forall k :: i < k < |j| ==> !j[k].WindowEnd?
  {
    if j != [] {
      var n := |j| - 1;
      var front := j[..n];
      OpenMeans(front);
      if Open(j) && !Opens(j[n]) {
        var i :| 0 <= i < n && Opens(front[i]) && forall k :: i < k < n ==> !front[k].WindowEnd?;
        assert Opens(j[i]) && forall k :: i < k < |j| ==> !j[k].WindowEnd?;
      }
      if i :| 0 <= i < |j| && Opens(j[i]) && forall k :: i < k < |j| ==> !j[k].WindowEnd? {
        if i < n {
          assert Opens(front[i]) && forall k :: i < k < n ==> !front[k].WindowEnd?;
        }
      }
    }
  }

  /** A resume stamped its segment. */
  predicate Resumed(j: Journal) {
    exists i :: 0 <= i < |j| && j[i].SegmentStart? && j[i].index >= 1
  }

  /** Ballots the last ended window reported dropped. */
  function EndDropped(j: Journal): nat {
    if j == [] then 0
    else if j[|j| - 1].WindowEnd? then j[|j| - 1].dropped
    else EndDropped(j[..|j| - 1])
  }

  /** The number the next segment gets. */
  function NextSegment(j: Journal): (n: nat)
    ensures n >= 1
  {
    if j == [] then 1
    else if j[|j| - 1].SegmentStart? then j[|j| - 1].index + 1
    else NextSegment(j[..|j| - 1])
  }

  function LastDone(j: Journal): nat {
    if j == [] then 0
    else if j[|j| - 1].Progress? then j[|j| - 1].done
    else LastDone(j[..|j| - 1])
  }

  function WindowSize(j: Journal): nat {
    if j == [] then 0
    else if j[|j| - 1].WindowStart? then j[|j| - 1].n
    else WindowSize(j[..|j| - 1])
  }

  /** Ballots the last window committed, if it stamped an interruption. */
  function InterruptedCommitted(j: Journal): Option<nat> {
    if j == [] then None
    else
      match j[|j| - 1]
      case Interrupted(k) => Some(k)
      case WindowStart(_) => None
      case _ => InterruptedCommitted(j[..|j| - 1])
  }

  function Segments(j: Journal): seq<nat> {
    if j == [] then []
    else Segments(j[..|j| - 1]) + if j[|j| - 1].SegmentEnd? then [j[|j| - 1].index] else []
  }

  function Remaining(j: Journal): nat {
    var done := match InterruptedCommitted(j) case Some(k) => k case None => LastDone(j);
    if WindowSize(j) >= done then WindowSize(j) - done else 0
  }

  predicate CloseOnly(j: Journal, closeRecorded: bool) {
    !Open(j) && Resumed(j) && EndDropped(j) == 0 && !closeRecorded
  }

  /** What one more event changes. */
  lemma JournalGrows(j: Journal, e: Event)
    ensures Open(j + [e]) == (Opens(e) || (!e.WindowEnd? && Open(j)))
    ensures Resumed(j + [e]) <==> Resumed(j) || (e.SegmentStart? && e.index >= 1)
    ensures EndDropped(j + [e]) == if e.WindowEnd? then e.dropped else EndDropped(j)
    ensures NextSegment(j + [e]) == if e.SegmentStart? then e.index + 1 else NextSegment(j)
    ensures LastDone(j + [e]) == if e.Progress? then e.done else LastDone(j)
    ensures WindowSize(j + [e]) == if e.WindowStart? then e.n else WindowSize(j)
    ensures InterruptedCommitted(j + [e])
         == if e.Interrupted? then Some(e.committed) else if e.WindowStart? then None else InterruptedCommitted(j)
    ensures Segments(j + [e]) == if e.SegmentEnd? then Segments(j) + [e.index] else Segments(j)
  {
    assert (j + [e])[..|j|] == j && (j + [e])[..|j| + 1] == j + [e];
    ResumedSnoc(j + [e], |j|);
  }

  lemma NothingRecorded()
    ensures !Open([]) && !Resumed([]) && EndDropped([]) == 0 && NextSegment([]) == 1 && LastDone([]) == 0
    ensures WindowSize([]) == 0 && InterruptedCommitted([]) == None && Segments([]) == []
  {
  }

  method PlanResume(onChain: bool, journal: Option<Journal>, closeRecorded: bool) returns (r: Result<ResumePlan, PlanError>)
    ensures !onChain ==> r == Err(NotOnChain)
    ensures onChain && journal.None? ==> r == Err(NoJournal)
    ensures onChain && journal.Some? ==>
              var j := journal.value;
              && (r.Ok? <==> Open(j) || CloseOnly(j, closeRecorded))
              && (r.Ok? ==> r.value.closeOnly == !Open(j))
              && (r.Ok? && Open(j) ==>
                    && r.value.segment == NextSegment(j) && r.value.remaining == Remaining(j)
                    && r.value.lastDone == LastDone(j) && (r.value.stamped <==> InterruptedAt in j)
                    && r.value.segments == if Segments(j) == [] then [0] else Segments(j))
              && (r.Err? ==> r.error == NotInterrupted)
  {
    if !onChain {
      return Err(NotOnChain);
    }
    if journal.None? {
      return Err(NoJournal);
    }
    var j := journal.value;
    NothingRecorded();
    var open, resumed, stamped := false, false, false;
    var n, committed, endDropped, segment, lastDone := 0, -1, 0, 1, 0;
    var segments := [];
    var i := 0;
    assert j[..0] == [];
    hide Open, Resumed, EndDropped, NextSegment, LastDone, WindowSize, InterruptedCommitted, Segments;
    while i < |j|
      invariant 0 <= i <= |j|
      invariant open == Open(j[..i]) && resumed == Resumed(j[..i]) && (stamped <==> InterruptedAt in j[..i])
      invariant n == WindowSize(j[..i]) && endDropped == EndDropped(j[..i])
      invariant segment == NextSegment(j[..i]) && lastDone == LastDone(j[..i])
      invariant committed == match InterruptedCommitted(j[..i]) case Some(k) => k as int case None => -1
      invariant segments == Segments(j[..i])
    {
      assert j[..i + 1] == j[..i] + [j[i]];
      JournalGrows(j[..i], j[i]);
      match j[i] {
        case WindowStart(size) => open, n, committed := true, size, -1;
        case Progress(done) => open, lastDone := true, done;
        case Interrupted(k) => open, committed := true, k;
        case WindowEnd(dropped) => open, endDropped := false, dropped;
        case SegmentStart(index) =>
          segment := index + 1;
          resumed := resumed || index >= 1;
        case SegmentEnd(index, _) => segments := segments + [index];
        case InterruptedAt => stamped := true;
        case Other =>
      }
      i := i + 1;
    }
    assert j[..i] == j;
    if !open {
      if resumed && endDropped == 0 && !closeRecorded {
        return Ok(ResumePlan(0, 0, true, 0, false, []));
      }
      return Err(NotInterrupted);
    }
    var done := lastDone;
    if committed >= 0 {
      done := committed;
    }
    var remaining := n - done;
    if remaining < 0 {
      remaining := 0;
    }
    if segments == [] {
      segments := [0];
    }
    r := Ok(ResumePlan(segment, remaining, false, lastDone, stamped, segments));
  }

  lemma ResumedSnoc(j: Journal, i: nat)
    requires i < |j|
    ensures Resumed(j[..i + 1]) <==> Resumed(j[..i]) || (j[i].SegmentStart? && j[i].index >= 1)
  {
    var a, b := j[..i], j[..i + 1];
    if k :| 0 <= k < |a| && a[k].SegmentStart? && a[k].index >= 1 {
      assert b[k] == a[k];
    }
    if k :| 0 <= k < |b| && b[k].SegmentStart? && b[k].index >= 1 {
      if k < i {
        assert a[k] == b[k];
      }
    }
    if j[i].SegmentStart? && j[i].index >= 1 {
      assert b[i] == j[i];
    }
  }
}
