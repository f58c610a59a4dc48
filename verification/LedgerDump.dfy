/** The console's copy of the chain's ballots, and an order-free digest of their
    nullifiers. */
module LedgerDump {
  import opened Wrappers

  datatype Page = Page(nullifiers: seq<string>, next: string)

  datatype DumpError = ListFailed | ReadFailed | Absent(nullifier: string) | HeaderFailed

  datatype ReadPath = Batched | PerBallot

  /** How the k-th ballot call of the dump is answered; Unknown is what a chain
      without GetBallots says. */
  datatype Answer = Works | Fails | Unknown

  /** The ledger: its listing replies in order (None: the call failed), what it
      stores for a nullifier ("" for nothing), and how each call is answered. */
  datatype Ledger = Ledger(replies: seq<Option<Page>>, ballot: string -> string, answer: nat -> Answer)

  /** Everything the paged listing yields from `bookmark` on, in order; None when
      a call fails or the replies run out before the walk ends. */
  function Listed(replies: seq<Option<Page>>, bookmark: string): Option<seq<string>> {
    if replies == [] || replies[0].None? then None
    else
      var page := replies[0].value;
      if page.next == "" || page.next == bookmark then Some(page.nullifiers)
      else Joined(page.nullifiers, Listed(replies[1..], page.next))
  }

  function Joined(front: seq<string>, rest: Option<seq<string>>): Option<seq<string>> {
    match rest
    case None => None
    case Some(more) => Some(front + more)
  }

  lemma JoinedTwice(a: seq<string>, b: seq<string>, rest: Option<seq<string>>)
    ensures Joined(a, Joined(b, rest)) == Joined(a + b, rest) && Joined([], rest) == rest
  {
    if rest.Some? {
      assert a + (b + rest.value) == a + b + rest.value;
      assert [] + rest.value == rest.value;
    }
  }

  /** The stored ballots of these nullifiers, one by one. */
  function Ballots(l: Ledger, nullifiers: seq<string>): (lines: seq<string>)
    ensures |lines| == |nullifiers| && forall i :: 0 <= i < |lines| ==> lines[i] == l.ballot(nullifiers[i])
  {
    seq(|nullifiers|, i requires 0 <= i < |nullifiers| => l.ballot(nullifiers[i]))
  }

  predicate Present(l: Ledger, nullifiers: seq<string>) {
    forall i :: 0 <= i < |nullifiers| ==> l.ballot(nullifiers[i]) != ""
  }

  /** The listing succeeds and a ballot is stored for all of it. */
  predicate Complete(l: Ledger) {
    Listed(l.replies, "").Some? && Present(l, Listed(l.replies, "").value)
  }

  /** Batched calls a page of n ballots takes. */
  function PageCalls(n: nat, batch: nat): nat
    requires batch > 0
  {
    if n == 0 then 0 else 1 + PageCalls(if n > batch then n - batch else 0, batch)
  }

  /** Batched calls the whole listing from `bookmark` on takes. */
  function ListCalls(replies: seq<Option<Page>>, bookmark: string, batch: nat): nat
    requires batch > 0
  {
    if replies == [] || replies[0].None? then 0
    else
      var page := replies[0].value;
      PageCalls(|page.nullifiers|, batch)
      + if page.next == "" || page.next == bookmark then 0 else ListCalls(replies[1..], page.next, batch)
  }

  function BatchCalls(l: Ledger, batch: nat): nat
    requires batch > 0
  {
    ListCalls(l.replies, "", batch)
  }

  ghost predicate WorksUpTo(l: Ledger, calls: nat) {
    forall i: nat :: i < calls ==> l.answer(i).Works?
  }

  /** Call k is the first that does not work, and says GetBallots is unknown. */
  ghost predicate FallsBack(l: Ledger, k: nat) {
    WorksUpTo(l, k) && l.answer(k).Unknown?
  }

  /** No call fails, and at most one is answered Unknown. */
  ghost predicate Smooth(l: Ledger) {
    && (forall k: nat :: !l.answer(k).Fails?)
    && forall j: nat, k: nat :: j < k && l.answer(j).Unknown? ==> !l.answer(k).Unknown?
  }

  /** The run's ledger/ballots.ndjson; None when there is no dump directory. */
  class RunFolder {
    var dump: Option<seq<string>>

    constructor ()
      ensures dump == None
    {
      dump := None;
    }

    /** The chain's ballots in listing order, however they were read. The dump
        falls back to single reads exactly when one of the batched calls it needs
        does not work, and a chain that only lacks GetBallots does not fail it. */
    method DumpBallots(l: Ledger, batch: nat) returns (r: Result<(nat, ReadPath), DumpError>)
      requires batch > 0
      modifies this
      ensures dump.Some?
      ensures r.Ok? ==> Complete(l) && dump.value == Ballots(l, Listed(l.replies, "").value) && r.value.0 == |dump.value|
      ensures r.Err? && r.error == ListFailed ==> Listed(l.replies, "").None?
      ensures r.Ok? && r.value.1.Batched? ==> WorksUpTo(l, BatchCalls(l, batch))
      ensures r.Ok? && r.value.1.PerBallot? ==> exists k: nat :: k < BatchCalls(l, batch) && FallsBack(l, k)
      ensures r.Err? && r.error == ReadFailed ==> !Smooth(l)
      ensures r.Err? && r.error.Absent? ==>
                && l.ballot(r.error.nullifier) == ""
                && (Listed(l.replies, "").Some? ==> r.error.nullifier in Listed(l.replies, "").value)
      ensures r.Err? ==> !r.error.HeaderFailed?
    {
      hide Ballots, Present, Listed, ListCalls, PageCalls, WorksUpTo;
      dump := Some([]);
      var batched := true;
      var calls: nat := 0;
      var bookmark := "";
      var p := 0;
      ghost var done: seq<string> := [];
      assert l.replies[0..] == l.replies;
      JoinedTwice([], [], Listed(l.replies, ""));
      NothingRead(l);
      NothingCalled(l);
      while true
        invariant 0 <= p <= |l.replies| && dump.Some? && dump.value == Ballots(l, done) && Present(l, done)
        invariant Listed(l.replies, "") == Joined(done, Listed(l.replies[p..], bookmark))
        invariant batched ==> WorksUpTo(l, calls) && calls + ListCalls(l.replies[p..], bookmark, batch) == BatchCalls(l, batch)
        invariant !batched ==> exists k: nat :: k < calls && k < BatchCalls(l, batch) && FallsBack(l, k)
        decreases |l.replies| - p
      {
        ListedStep(l.replies, p, bookmark);
        if p == |l.replies| || l.replies[p].None? {
          return Err(ListFailed);
        }
        var page := l.replies[p].value;
        JoinedTwice(done, page.nullifiers, Listed(l.replies[p + 1..], page.next));
        CallsStep(l.replies, p, bookmark, batch);
        var failure;
        failure, batched, calls := DumpPage(l, page.nullifiers, batch, batched, calls, done);
        if failure.Some? {
          return Err(failure.value);
        }
        done := done + page.nullifiers;
        if page.next == "" || page.next == bookmark {
          break;
        }
        bookmark := page.next;
        p := p + 1;
      }
      r := Ok((|dump.value|, if batched then Batched else PerBallot));
    }

    /** One listing page, in chunks of at most `batch` while the batched read works. */
    method DumpPage(l: Ledger, nullifiers: seq<string>, batch: nat, batchedBefore: bool, callsBefore: nat, ghost done: seq<string>)
      returns (failure: Option<DumpError>, batched: bool, calls: nat)
      requires batch > 0 && dump.Some? && dump.value == Ballots(l, done) && Present(l, done)
      requires batchedBefore ==> WorksUpTo(l, callsBefore)
      requires !batchedBefore ==> exists k: nat :: k < callsBefore && FallsBack(l, k)
      modifies this
      ensures dump.Some?
      ensures failure.None? ==> dump.value == Ballots(l, done + nullifiers) && Present(l, done + nullifiers)
      ensures failure.None? && batched ==>
                batchedBefore && WorksUpTo(l, calls) && calls == callsBefore + PageCalls(|nullifiers|, batch)
      ensures failure.None? && !batched ==>
                exists k: nat :: k < calls && FallsBack(l, k) && (batchedBefore ==> k < callsBefore + PageCalls(|nullifiers|, batch))
      ensures failure.None? ==> calls >= callsBefore
      ensures failure.Some? ==>
                || (failure.value == ReadFailed && !Smooth(l))
                || (failure.value.Absent? && l.ballot(failure.value.nullifier) == "" && failure.value.nullifier in nullifiers)
    {
      hide Ballots, Present, PageCalls, WorksUpTo;
      batched, calls := batchedBefore, callsBefore;
      var rest := nullifiers;
      ghost var read: seq<string> := [];
      assert read + rest == nullifiers && done + read == done;
      while |rest| > 0
        invariant dump.Some? && dump.value == Ballots(l, done + read) && Present(l, done + read)
        invariant read + rest == nullifiers && calls >= callsBefore
        invariant batched ==> batchedBefore && WorksUpTo(l, calls)
                              && calls + PageCalls(|rest|, batch) == callsBefore + PageCalls(|nullifiers|, batch)
        invariant !batched ==>
                    exists k: nat :: k < calls && FallsBack(l, k) && (batchedBefore ==> k < callsBefore + PageCalls(|nullifiers|, batch))
        decreases |rest|, batched
      {
        PageStep(|rest|, batch);
        var take := |rest|;
        if batched && take > batch {
          take := batch;
        }
        var chunk := rest[..take];
        var lines: seq<string>;
        if batched {
          var answer := l.answer(calls);
          calls := calls + 1;
          if answer.Unknown? {
            batched := false;
            assert FallsBack(l, calls - 1);
            continue;
          }
          if answer.Fails? {
            return Some(ReadFailed), batched, calls;
          }
          OneMoreWorks(l, calls - 1);
          lines := Ballots(l, chunk);
        } else {
          var got := ReadOneByOne(l, chunk, calls);
          if got.Err? {
            return Some(got.error), batched, calls;
          }
          lines := got.value;
          calls := calls + take;
        }
        var absent := WriteLines(l, chunk, lines, done + read);
        if absent.Some? {
          assert rest[absent.value] == chunk[absent.value] && nullifiers[|read| + absent.value] == rest[absent.value];
          return Some(Absent(chunk[absent.value])), batched, calls;
        }
        assert done + (read + chunk) == (done + read) + chunk;
        assert read + chunk + rest[take..] == nullifiers;
        read := read + chunk;
        rest := rest[take..];
      }
      assert read == nullifiers;
      PageStep(0, batch);
      failure := None;
    }

    /** Appends a chunk's lines, up to the first absent one. */
    method WriteLines(l: Ledger, chunk: seq<string>, lines: seq<string>, ghost before: seq<string>) returns (absent: Option<nat>)
      requires lines == Ballots(l, chunk) && dump.Some? && dump.value == Ballots(l, before) && Present(l, before)
      modifies this
      ensures dump.Some?
      ensures absent.None? ==> dump.value == Ballots(l, before + chunk) && Present(l, before + chunk)
      ensures absent.Some? ==> absent.value < |chunk| && l.ballot(chunk[absent.value]) == ""
    {
      var i := 0;
      ghost var base := dump.value;
      assert base + lines[..0] == base;
      while i < |lines|
        invariant 0 <= i <= |lines| && dump == Some(base + lines[..i])
        invariant forall k :: 0 <= k < i ==> lines[k] != ""
      {
        if lines[i] == "" {
          return Some(i);
        }
        dump := Some(dump.value + [lines[i]]);
        assert base + lines[..i + 1] == base + lines[..i] + [lines[i]];
        i := i + 1;
      }
      assert lines[..i] == lines;
      absent := None;
    }

    /** A dump that fails anywhere leaves no directory behind. */
    method DumpLedger(l: Ledger, batch: nat, headerOk: bool) returns (r: Result<(nat, ReadPath), DumpError>)
      requires batch > 0
      modifies this
      ensures r.Err? ==> dump == None
      ensures r.Ok? ==> Listed(l.replies, "").Some? && dump == Some(Ballots(l, Listed(l.replies, "").value))
                        && r.value.0 == |dump.value|
      ensures r.Ok? ==> (r.value.1.Batched? <==> WorksUpTo(l, BatchCalls(l, batch)))
      ensures r.Ok? && r.value.1.PerBallot? ==> exists k: nat :: k < BatchCalls(l, batch) && FallsBack(l, k)
      ensures headerOk && Complete(l) && Smooth(l) ==> r.Ok?
    {
      r := DumpBallots(l, batch);
      if r.Ok? && !headerOk {
        r := Err(HeaderFailed);
      }
      if r.Err? {
        dump := None;
      }
    }
  }

  lemma NothingRead(l: Ledger)
    ensures Ballots(l, []) == [] && Present(l, [])
  {
  }

  lemma NothingCalled(l: Ledger)
    ensures WorksUpTo(l, 0)
  {
  }

  lemma OneMoreWorks(l: Ledger, calls: nat)
    requires WorksUpTo(l, calls) && l.answer(calls).Works?
    ensures WorksUpTo(l, calls + 1)
  {
  }

  lemma PageStep(n: nat, batch: nat)
    requires batch > 0
    ensures PageCalls(0, batch) == 0
    ensures n > 0 ==> PageCalls(n, batch) == 1 + PageCalls(if n > batch then n - batch else 0, batch)
  {
  }

  lemma CallsStep(replies: seq<Option<Page>>, p: nat, bookmark: string, batch: nat)
    requires p < |replies| && replies[p].Some? && batch > 0
    ensures ListCalls(replies[p..], bookmark, batch)
         == PageCalls(|replies[p].value.nullifiers|, batch)
            + if replies[p].value.next == "" || replies[p].value.next == bookmark then 0
              else ListCalls(replies[p + 1..], replies[p].value.next, batch)
  {
    assert replies[p..][0] == replies[p] && replies[p..][1..] == replies[p + 1..];
  }

  lemma ListedStep(replies: seq<Option<Page>>, p: nat, bookmark: string)
    requires p <= |replies|
    ensures p == |replies| || replies[p].None? ==> Listed(replies[p..], bookmark).None?
    ensures p < |replies| && replies[p].Some? ==>
              Listed(replies[p..], bookmark)
              == if replies[p].value.next == "" || replies[p].value.next == bookmark then Some(replies[p].value.nullifiers)
                 else Joined(replies[p].value.nullifiers, Listed(replies[p + 1..], replies[p].value.next))
  {
    if p < |replies| {
      assert replies[p..][0] == replies[p] && replies[p..][1..] == replies[p + 1..];
    }
  }

  method ReadOneByOne(l: Ledger, chunk: seq<string>, calls: nat) returns (r: Result<seq<string>, DumpError>)
    requires exists k: nat :: k < calls && l.answer(k).Unknown?
    ensures r.Ok? ==> r.value == Ballots(l, chunk)
    ensures r.Err? ==> r.error == ReadFailed && !Smooth(l)
  {
    var lines: seq<string> := [];
    while |lines| < |chunk|
      invariant |lines| <= |chunk|
      invariant forall i :: 0 <= i < |lines| ==> lines[i] == l.ballot(chunk[i])
      decreases |chunk| - |lines|
    {
      if l.answer(calls + |lines|) != Works {
        return Err(ReadFailed);
      }
      lines := lines + [l.ballot(chunk[|lines|])];
    }
    r := Ok(lines);
  }

  // ----- the nullifier set digest ------------------------------------------

  const TWO_TO_256: nat := 0x1_0000000000000000_0000000000000000_0000000000000000_0000000000000000

  function TermSum(nullifiers: seq<string>, sha: string -> nat): nat {
    if nullifiers == [] then 0 else TermSum(nullifiers[..|nullifiers| - 1], sha) + sha(nullifiers[|nullifiers| - 1])
  }

  /** What the final hash is taken over: the count, and the sum in 256 bits. */
  datatype Digest = Digest(count: nat, total: nat)

  function DigestOf(nullifiers: seq<string>, sha: string -> nat): Digest {
    Digest(|nullifiers|, TermSum(nullifiers, sha) % TWO_TO_256)
  }

  /** None when a line is not a ballot. */
  method NullifierSetDigest(lines: seq<Option<string>>, sha: string -> nat) returns (r: Option<Digest>)
    ensures r.None? <==> None in lines
    ensures r.Some? ==> exists nullifiers :: |nullifiers| == |lines|
                                             && (forall i :: 0 <= i < |lines| ==> lines[i] == Some(nullifiers[i]))
                                             && r.value == DigestOf(nullifiers, sha)
  {
    var sum, count := 0, 0;
    ghost var nullifiers: seq<string> := [];
    while count < |lines|
      invariant 0 <= count <= |lines| && |nullifiers| == count && None !in lines[..count]
      invariant forall i :: 0 <= i < count ==> lines[i] == Some(nullifiers[i])
      invariant sum == TermSum(nullifiers, sha)
    {
      assert lines[..count + 1] == lines[..count] + [lines[count]];
      if lines[count].None? {
        return None;
      }
      assert (nullifiers + [lines[count].value])[..count] == nullifiers;
      sum := sum + sha(lines[count].value);
      nullifiers := nullifiers + [lines[count].value];
      count := count + 1;
    }
    assert lines[..count] == lines;
    r := Some(Digest(count, sum % TWO_TO_256));
    assert r.value == DigestOf(nullifiers, sha);
  }

  lemma {:induction false} TermSumWithout(s: seq<string>, k: nat, sha: string -> nat)
    requires k < |s|
    ensures TermSum(s, sha) == TermSum(s[..k] + s[k + 1..], sha) + sha(s[k])
  {
    var n := |s| - 1;
    if k == n {
      assert s[..k] + s[k + 1..] == s[..n];
    } else {
      TermSumWithout(s[..n], k, sha);
      var without := s[..k] + s[k + 1..];
      assert without[..n - 1] == s[..n][..k] + s[..n][k + 1..] && without[n - 1] == s[n];
    }
  }

  /** Taking the same element out of two permutations leaves permutations. */
  lemma RemoveOne(a: seq<string>, b: seq<string>, k: nat)
    requires a != [] && multiset(a) == multiset(b) && k < |b| && b[k] == a[|a| - 1]
    ensures multiset(a[..|a| - 1]) == multiset(b[..k] + b[k + 1..])
  {
    var n := |a| - 1;
    assert a == a[..n] + [a[n]];
    assert b == b[..k] + [b[k]] + b[k + 1..];
    assert multiset(a) == multiset(a[..n]) + multiset{a[n]};
    assert multiset(b) == multiset(b[..k]) + multiset{b[k]} + multiset(b[k + 1..]);
    assert multiset(a[..n]) == multiset(a) - multiset{a[n]};
  }

  /** The digest is the same for every order of the same ballots. */
  lemma {:induction false} DigestPermuted(a: seq<string>, b: seq<string>, sha: string -> nat)
    requires multiset(a) == multiset(b)
    ensures DigestOf(a, sha) == DigestOf(b, sha)
    ensures TermSum(a, sha) == TermSum(b, sha) && |a| == |b|
    decreases |a|
  {
    if a == [] {
      assert |multiset(b)| == 0;
    } else {
      var n := |a| - 1;
      assert a[n] in multiset(b);
      var k :| 0 <= k < |b| && b[k] == a[n];
      RemoveOne(a, b, k);
      DigestPermuted(a[..n], b[..k] + b[k + 1..], sha);
      TermSumWithout(b, k, sha);
    }
  }
}
