/** Ballot lines handed out by index from one forward scan of the file. */
module BallotReader {
  import opened Wrappers

  predicate HexDigit(ch: char) {
    '0' <= ch <= '9' || 'a' <= ch <= 'f' || 'A' <= ch <= 'F'
  }

  predicate IsHexLine(s: string) {
    s != "" && |s| % 2 == 0 && forall k :: 0 <= k < |s| ==> HexDigit(s[k])
  }

  datatype ReadError = BadLine(number: nat) | ScanError(number: nat) | EndOfFile | AlreadyRead(index: nat)

  /** ballots.ndjson: its trimmed lines, and whether reading fails after the last
      of them. */
  datatype BallotFile = BallotFile(lines: seq<string>, breaks: bool) {
    predicate Validated() {
      !breaks && forall k :: 0 <= k < |lines| ==> IsHexLine(lines[k])
    }
  }

  /** The number of ballots, or the first line that is not one. */
  method ValidateBallots(f: BallotFile) returns (r: Result<nat, ReadError>)
    ensures f.Validated() <==> r.Ok?
    ensures r.Ok? ==> r.value == |f.lines|
    ensures r.Err? && r.error.BadLine? ==>
              && 1 <= r.error.number <= |f.lines| && !IsHexLine(f.lines[r.error.number - 1])
              && forall k :: 0 <= k < r.error.number - 1 ==> IsHexLine(f.lines[k])
    ensures r.Err? && !r.error.BadLine? ==> r.error == ScanError(|f.lines| + 1)
  {
    var n := 0;
    while n < |f.lines|
      invariant 0 <= n <= |f.lines|
      invariant forall k :: 0 <= k < n ==> IsHexLine(f.lines[k])
    {
      if !IsHexLine(f.lines[n]) {
        return Err(BadLine(n + 1));
      }
      n := n + 1;
    }
    if f.breaks {
      return Err(ScanError(n + 1));
    }
    r := Ok(n);
  }

  class Reader {
    const file: BallotFile
    const wanted: nat -> bool
    var next: nat
    var ahead: map<nat, string>
    ghost var given: set<nat>  // indices whose line was handed out

    /** ahead holds exactly the scanned lines that are still to be asked for. */
    ghost predicate Valid()
      reads this
    {
      && next <= |file.lines|
      && (forall j: nat :: j in ahead <==> j < next && wanted(j) && j !in given && IsHexLine(file.lines[j]))
      && (forall j: nat :: j in ahead ==> ahead[j] == file.lines[j])
      && (forall j: nat :: j in given ==> j < next)
    }

    /** Every wanted index the scan has passed was dispatched. */
    ghost predicate Behind(dispatched: set<nat>)
      reads this
    {
      forall j: nat :: j < next && wanted(j) ==> j in dispatched
    }

    constructor (f: BallotFile, w: nat -> bool)
      ensures Valid() && file == f && wanted == w && next == 0 && given == {} && ahead == map[]
    {
      file, wanted := f, w;
      next, ahead, given := 0, map[], {};
    }

    /** Line i, in whatever order indices are asked for. */
    method At(i: nat) returns (r: Result<string, ReadError>)
      requires Valid()
      modifies this
      ensures Valid() && next >= old(next)
      ensures r.Ok? ==> i < |file.lines| && r.value == file.lines[i] && given == old(given) + {i}
      ensures r.Err? ==> given == old(given)
      ensures i in old(given) ==> r == Err(AlreadyRead(i))
      ensures i !in old(given) && wanted(i) && file.Validated() ==>
                r == if i < |file.lines| then Ok(file.lines[i]) else Err(EndOfFile)
      // Asked for in dispatch order, the scan never runs past what was dispatched.
      ensures forall dispatched: set<nat> ::
                old(Behind(dispatched)) && i in dispatched && (forall j: nat :: j < i && wanted(j) ==> j in dispatched)
                ==> Behind(dispatched)
      ensures r.Ok? ==> next == if i < old(next) then old(next) else i + 1
    {
      if i in ahead {
        r := Ok(ahead[i]);
        ahead := map j | j in ahead && j != i :: ahead[j];
        given := given + {i};
        return;
      }
      if i < next {
        return Err(AlreadyRead(i));
      }
      while true
        invariant Valid() && old(next) <= next <= i && given == old(given)
        decreases |file.lines| - next
      {
        if next == |file.lines| {
          return Err(if file.breaks then ScanError(next + 1) else EndOfFile);
        }
        var line, idx := file.lines[next], next;
        next := next + 1;
        if !IsHexLine(line) {
          return Err(BadLine(idx + 1));
        }
        if idx == i {
          given := given + {i};
          return Ok(line);
        }
        if wanted(idx) {
          ahead := ahead[idx := line];
        }
      }
    }

    /** No more lines are parked than there are dispatched indices still waiting
        for theirs. */
    lemma AheadWithinFlight(dispatched: set<nat>)
      requires Valid() && Behind(dispatched)
      ensures ahead.Keys <= dispatched - given
      ensures |ahead| <= |dispatched - given|
    {
      Subset(ahead.Keys, dispatched - given);
      assert |ahead| == |ahead.Keys|;
    }
  }

  lemma {:induction false} Subset(a: set<nat>, b: set<nat>)
    requires a <= b
    ensures |a| <= |b|
  {
    assert b == a + (b - a);
    assert |b| == |a| + |b - a|;
  }
}
