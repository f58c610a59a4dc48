/** One resumed window: which ballots the chain lacks, what became of those sent
    again, and the run-level counters afterwards. */
module ResumeWindow {
  import opened Wrappers

  type Bytes = seq<bv8>

  // ----- the committed set -------------------------------------------------

  datatype IndexError = Undecodable(index: nat) | NoNullifier(index: nat) | CountMismatch

  /** Ballot i's nullifier; None when line i is not a ballot. */
  type Lines = seq<Option<Bytes>>

  predicate Keyed(lines: Lines) {
    forall i :: 0 <= i < |lines| ==> lines[i].Some? && |lines[i].value| == 32
  }

  /** Nullifier to ballot index; of two ballots sharing one, the later counts. */
  ghost predicate Indexes(m: map<Bytes, nat>, lines: Lines)
    requires Keyed(lines)
  {
    && (forall i :: 0 <= i < |lines| ==> lines[i].value in m && m[lines[i].value] >= i)
    && forall k :: k in m ==> m[k] < |lines| && lines[m[k]].value == k
  }

  method NullifierIndex(lines: Lines, count: nat) returns (r: Result<map<Bytes, nat>, IndexError>)
    ensures r.Ok? <==> Keyed(lines) && |lines| == count
    ensures r.Ok? ==> Indexes(r.value, lines)
  {
    var m: map<Bytes, nat> := map[];
    var i := 0;
    while i < |lines|
      invariant 0 <= i <= |lines| && Keyed(lines[..i]) && Indexes(m, lines[..i])
    {
      if lines[i].None? {
        return Err(Undecodable(i));
      }
      if |lines[i].value| != 32 {
        return Err(NoNullifier(i));
      }
      m := m[lines[i].value := i];
      i := i + 1;
    }
    assert lines[..i] == lines;
    if i != count {
      return Err(CountMismatch);
    }
    r := Ok(m);
  }

  datatype Reply = Failed | Page(nullifiers: seq<Option<Bytes>>, next: string)

  /** The well-formed nullifiers of a page. */
  function Keys(nullifiers: seq<Option<Bytes>>): set<Bytes> {
    set x | x in nullifiers && x.Some? && |x.value| == 32 :: x.value
  }

  /** Everything a paged listing yields from `bookmark` on; None when a call
      fails or the ledger's replies run out before the walk ends. */
  function Listing(replies: seq<Reply>, bookmark: string): Option<set<Bytes>> {
    if replies == [] || replies[0].Failed? then None
    else
      var page := Keys(replies[0].nullifiers);
      var next := replies[0].next;
      if next == "" || next == bookmark then Some(page)
      else
        Joined(page, Listing(replies[1..], next))
  }

  function Joined(page: set<Bytes>, rest: Option<set<Bytes>>): Option<set<Bytes>> {
    match rest
    case None => None
    case Some(more) => Some(page + more)
  }

  lemma JoinedTwice(a: set<Bytes>, b: set<Bytes>, rest: Option<set<Bytes>>)
    ensures Joined(a, Joined(b, rest)) == Joined(a + b, rest)
    ensures Joined({}, rest) == rest
  {
    if rest.Some? {
      assert a + (b + rest.value) == a + b + rest.value;
      assert {} + rest.value == rest.value;
    }
  }

  method ChainCommitted(byNullifier: map<Bytes, nat>, count: nat, replies: seq<Reply>) returns (r: Option<seq<bool>>)
    requires forall k :: k in byNullifier ==> byNullifier[k] < count
    ensures r.Some? <==> Listing(replies, "").Some?
    ensures r.Some? ==> |r.value| == count && forall i :: 0 <= i < count ==>
              (r.value[i] <==> exists x :: x in Listing(replies, "").value && x in byNullifier && byNullifier[x] == i)
  {
    var committed := seq(count, _ => false);
    var bookmark := "";
    ghost var listed: set<Bytes> := {};
    var n := 0;
    assert replies[0..] == replies;
    JoinedTwice({}, {}, Listing(replies, ""));
    while true
      invariant 0 <= n <= |replies| && |committed| == count
      invariant forall i :: 0 <= i < count ==>
                  (committed[i] <==> exists x :: x in listed && x in byNullifier && byNullifier[x] == i)
      invariant Listing(replies, "") == Joined(listed, Listing(replies[n..], bookmark))
      decreases |replies| - n
    {
      if n == |replies| || replies[n].Failed? {
        return None;
      }
      var page := replies[n];
      ghost var added := Keys(page.nullifiers);
      committed := MarkPage(byNullifier, page.nullifiers, committed, listed, added);
      assert replies[n..][0] == page && replies[n..][1..] == replies[n + 1..];
      JoinedTwice(listed, added, Listing(replies[n + 1..], page.next));
      listed := listed + added;
      if page.next == "" || page.next == bookmark {
        return Some(committed);
      }
      bookmark := page.next;
      n := n + 1;
    }
  }

  method MarkPage(byNullifier: map<Bytes, nat>, nullifiers: seq<Option<Bytes>>, before: seq<bool>,
                  ghost listed: set<Bytes>, ghost added: set<Bytes>)
    returns (committed: seq<bool>)
    requires forall k :: k in byNullifier ==> byNullifier[k] < |before|
    requires added == Keys(nullifiers)
    requires forall i :: 0 <= i < |before| ==>
               (before[i] <==> exists x :: x in listed && x in byNullifier && byNullifier[x] == i)
    ensures |committed| == |before|
    ensures forall i :: 0 <= i < |before| ==>
              (committed[i] <==> exists x :: x in listed + added && x in byNullifier && byNullifier[x] == i)
  {
    committed := before;
    ghost var seen := listed;
    var k := 0;
    while k < |nullifiers|
      invariant 0 <= k <= |nullifiers| && |committed| == |before|
      invariant listed <= seen <= listed + added
      invariant forall j :: 0 <= j < k && nullifiers[j].Some? && |nullifiers[j].value| == 32 ==> nullifiers[j].value in seen
      invariant forall i :: 0 <= i < |before| ==>
                  (committed[i] <==> exists x :: x in seen && x in byNullifier && byNullifier[x] == i)
    {
      var entry := nullifiers[k];
      if entry.Some? && |entry.value| == 32 {
        assert entry in nullifiers;
        seen := seen + {entry.value};
        if entry.value in byNullifier {
          committed := committed[byNullifier[entry.value] := true];
        }
      }
      k := k + 1;
    }
    assert seen == listed + added;
  }

  /** With distinct nullifiers, ballot i counts as committed exactly when its own
      nullifier was listed. */
  lemma CommittedMeansListed(lines: Lines, m: map<Bytes, nat>, listed: set<Bytes>, i: nat)
    requires Keyed(lines) && Indexes(m, lines) && i < |lines|
    requires forall j, k :: 0 <= j < k < |lines| ==> lines[j] != lines[k]
    ensures (exists x :: x in listed && x in m && m[x] == i) <==> lines[i].value in listed
  {
    var x := lines[i].value;
    assert lines[m[x]].value == x;
  }

  // ----- the window --------------------------------------------------------

  /** Slots [0, lastIndex] were dispatched; ok says which submissions returned success. */
  datatype RunResult = RunResult(submitted: nat, committed: nat, dropped: nat, stopped: bool, lastIndex: int, ok: seq<bool>)

  function Trues(s: seq<bool>): (n: nat)
    ensures n <= |s|
  {
    if s == [] then 0 else Trues(s[..|s| - 1]) + if s[|s| - 1] then 1 else 0
  }

  /** What a bench run over n slots returns. */
  ghost predicate Ran(res: RunResult, n: nat) {
    && |res.ok| == n && res.submitted == res.lastIndex + 1 <= n
    && (!res.stopped ==> res.submitted == n)
    && res.committed == Trues(res.ok[..res.submitted])
    && res.dropped == res.submitted - res.committed
  }

  /** How the bench counts its outcomes. */
  method Tabulate(n: nat, lastIndex: int, stopped: bool, ok: seq<bool>) returns (res: RunResult)
    requires |ok| == n && -1 <= lastIndex < n && (!stopped ==> lastIndex + 1 == n)
    ensures Ran(res, n) && res.ok == ok && res.stopped == stopped && res.lastIndex == lastIndex
  {
    var committed, dropped := 0, 0;
    var i := 0;
    while i <= lastIndex
      invariant 0 <= i <= lastIndex + 1
      invariant committed == Trues(ok[..i]) && dropped == i - committed
    {
      assert ok[..i + 1][..i] == ok[..i];
      if ok[i] {
        committed := committed + 1;
      } else {
        dropped := dropped + 1;
      }
      i := i + 1;
    }
    res := RunResult(lastIndex + 1, committed, dropped, stopped, lastIndex, ok);
  }

  /** The indices a snapshot of the chain does not hold, in order. */
  function Pending(committed: seq<bool>): (pending: seq<nat>)
    ensures |pending| == |committed| - Trues(committed)
    ensures forall k :: 0 <= k < |pending| ==> pending[k] < |committed| && !committed[pending[k]]
    ensures forall j, k :: 0 <= j < k < |pending| ==> pending[j] < pending[k]
  {
    if committed == [] then []
    else
      var n := |committed| - 1;
      Pending(committed[..n]) + if committed[n] then [] else [n]
  }

  /** Every index is either on the snapshot or pending. */
  lemma {:induction false} PendingCovers(committed: seq<bool>, i: nat)
    requires i < |committed|
    ensures i in Pending(committed) <==> !committed[i]
  {
    var n := |committed| - 1;
    if i < n {
      PendingCovers(committed[..n], i);
      assert Pending(committed) == Pending(committed[..n]) + if committed[n] then [] else [n];
    }
  }

  method BuildPending(committed: seq<bool>) returns (pending: seq<nat>)
    ensures pending == Pending(committed)
  {
    pending := [];
    var i := 0;
    while i < |committed|
      invariant 0 <= i <= |committed| && pending == Pending(committed[..i])
    {
      assert committed[..i + 1][..i] == committed[..i];
      if !committed[i] {
        pending := pending + [i];
      }
      i := i + 1;
    }
    assert committed[..i] == committed;
  }

  /** Slot k was sent and reported failed, yet its ballot is on the chain. */
  predicate Replay(pending: seq<nat>, res: RunResult, chain: seq<bool>, k: nat) {
    k < res.submitted && k < |res.ok| && !res.ok[k] && k < |pending| && pending[k] < |chain| && chain[pending[k]]
  }

  /** The failed slots whose ballot a second reading of the chain shows; none
      without that reading. */
  method ReplayedIndices(pending: seq<nat>, res: RunResult, reread: Option<seq<bool>>) returns (replays: set<nat>)
    requires Ran(res, |pending|)
    ensures reread.None? ==> replays == {}
    ensures reread.Some? ==> forall k: nat :: k in replays <==> Replay(pending, res, reread.value, k)
    ensures |replays| <= res.dropped
  {
    replays := {};
    var failed := FailedSlots(res, |pending|);
    if failed == [] || reread.None? {
      return;
    }
    var chain := reread.value;
    hide Ran;
    var i := 0;
    while i < |failed|
      invariant 0 <= i <= |failed| && |replays| <= i
      invariant forall j: nat :: j in replays <==> j in failed[..i] && Replay(pending, res, chain, j)
    {
      var slot := failed[i];
      assert slot in failed;
      assert failed[..i + 1] == failed[..i] + [slot];
      if pending[slot] < |chain| && chain[pending[slot]] {
        replays := replays + {slot};
      }
      i := i + 1;
    }
    assert failed[..i] == failed;
  }

  /** The dispatched slots whose submission did not report success. */
  method FailedSlots(res: RunResult, n: nat) returns (failed: seq<nat>)
    requires Ran(res, n)
    ensures |failed| == res.dropped && forall j: nat :: j in failed <==> j < res.submitted && !res.ok[j]
  {
    failed := [];
    var k := 0;
    while k <= res.lastIndex && k < |res.ok|
      invariant 0 <= k <= res.submitted
      invariant forall j: nat :: j in failed <==> j < k && !res.ok[j]
      invariant |failed| == k - Trues(res.ok[..k])
    {
      assert res.ok[..k + 1][..k] == res.ok[..k];
      if !res.ok[k] {
        failed := failed + [k];
      }
      k := k + 1;
    }
  }

  // ----- the counters ------------------------------------------------------

  datatype Metrics = Metrics(submitted: nat, committed: nat, dropped: nat, stopped: bool)

  /** What the resumed window reports: the rolled-up counters, and whether it is
      stamped as interrupted. */
  method FinishResume(committed: seq<bool>, res: RunResult, reread: Option<seq<bool>>)
    returns (m: Metrics, interrupted: bool)
    requires Ran(res, |Pending(committed)|)
    ensures m.submitted == m.committed + m.dropped && m.stopped == res.stopped
    ensures m.dropped <= res.dropped && (reread.None? ==> m.dropped == res.dropped)
    ensures interrupted <==> res.stopped || m.dropped > 0
    ensures reread.Some? && Agrees(committed, res, reread.value) && res.submitted == |Pending(committed)| ==>
              m.committed == Trues(reread.value) && m.dropped == |committed| - Trues(reread.value)
  {
    var pending := BuildPending(committed);
    var replays := ReplayedIndices(pending, res, reread);
    var replayed := |replays|;
    var dropped: int := res.dropped - replayed;
    if dropped < 0 {
      dropped := 0;
    }
    var onChain := res.committed + replayed;
    interrupted := res.stopped || dropped > 0;
    var already := |committed| - |pending|;
    m := Metrics(already + res.submitted, already + onChain, dropped, res.stopped);
    if reread.Some? && Agrees(committed, res, reread.value) && res.submitted == |pending| {
      LandedPrefix(pending, res, reread.value, replays, |pending|);
      assert res.ok[..|pending|] == res.ok;
      assert replays == set k | k in replays && k < |pending|;
      AllAccounted(committed, reread.value);
    }
  }

  /** A later reading of the chain still holds the snapshot, and every ballot
      whose submission reported success. */
  ghost predicate Agrees(committed: seq<bool>, res: RunResult, later: seq<bool>)
    requires Ran(res, |Pending(committed)|)
  {
    && |later| == |committed|
    && (forall i :: 0 <= i < |committed| && committed[i] ==> later[i])
    && forall k :: 0 <= k < res.submitted && res.ok[k] ==> later[Pending(committed)[k]]
  }

  /** How many of the first n pending ballots the later reading holds. */
  function Landed(pending: seq<nat>, later: seq<bool>, n: nat): nat
    requires n <= |pending| && forall k :: 0 <= k < |pending| ==> pending[k] < |later|
  {
    if n == 0 then 0 else Landed(pending, later, n - 1) + if later[pending[n - 1]] then 1 else 0
  }

  lemma {:induction false} LandedPrefix(pending: seq<nat>, res: RunResult, later: seq<bool>, replays: set<nat>, n: nat)
    requires Ran(res, |pending|) && n <= res.submitted && forall k :: 0 <= k < |pending| ==> pending[k] < |later|
    requires forall k :: 0 <= k < res.submitted && res.ok[k] ==> later[pending[k]]
    requires forall k: nat :: k in replays <==> Replay(pending, res, later, k)
    ensures Landed(pending, later, n) == Trues(res.ok[..n]) + |set k | k in replays && k < n|
  {
    var upTo := set k | k in replays && k < n;
    if n == 0 {
      assert upTo == {};
    } else {
      LandedPrefix(pending, res, later, replays, n - 1);
      assert res.ok[..n][..n - 1] == res.ok[..n - 1];
      assert n - 1 in replays <==> !res.ok[n - 1] && later[pending[n - 1]];
      hide Replay;
      var before := set k | k in replays && k < n - 1;
      assert upTo == if n - 1 in replays then before + {n - 1} else before;
    }
  }

  /** Ballots on the later chain are those of the snapshot and the pending ones
      that landed since. */
  lemma {:induction false} AllAccounted(committed: seq<bool>, later: seq<bool>)
    requires |later| == |committed| && forall i :: 0 <= i < |committed| && committed[i] ==> later[i]
    ensures Trues(later) == Trues(committed) + Landed(Pending(committed), later, |Pending(committed)|)
  {
    if committed != [] {
      var n := |committed| - 1;
      AllAccounted(committed[..n], later[..n]);
      var before, pending := Pending(committed[..n]), Pending(committed);
      LandedSame(before, pending, later[..n], later, |before|);
      assert pending == before + if committed[n] then [] else [n];
      assert Trues(later) == Trues(later[..n]) + if later[n] then 1 else 0;
      assert Trues(committed) == Trues(committed[..n]) + if committed[n] then 1 else 0;
      assert Landed(pending, later, |pending|)
          == Landed(pending, later, |before|) + if !committed[n] && later[n] then 1 else 0;
    }
  }

  lemma {:induction false} LandedSame(a: seq<nat>, b: seq<nat>, s: seq<bool>, t: seq<bool>, n: nat)
    requires n <= |a| <= |b| && forall k :: 0 <= k < |a| ==> a[k] == b[k] < |s|
    requires |s| <= |t| && forall k :: 0 <= k < |s| ==> s[k] == t[k]
    requires forall k :: 0 <= k < |b| ==> b[k] < |t|
    ensures Landed(a, s, n) == Landed(b, t, n)
  {
    if n > 0 {
      LandedSame(a, b, s, t, n - 1);
    }
  }
}
