/** The national canvass: seven checks over the precinct returns, the precinct
    ledgers and the published national tally. */
module Canvass {
  import opened Wrappers
  import opened ModArith
  import opened Group
  import opened ElGamal
  import opened Dkg
  import opened Decryption
  import opened Threshold
  import opened Tally
  import opened Transcript
  import opened Counting

  // ----- what the canvass reads --------------------------------------------

  /** 32 bytes: the canonical encoding of a point, or not one at all. */
  datatype Encoded = Canonical(point: Point) | NotAPoint(tag: string)

  datatype ContestSum = ContestSum(contestId: string, c1: Encoded, c2: Encoded)

  /** Recomputed from a precinct's ledger read-back. */
  datatype LedgerSums = LedgerSums(records: nat, digest: string, contests: seq<ContestSum>)

  datatype CloseRef = CloseRef(block: nat, tip: string)

  datatype StreamAudit = StreamAudit(pass: bool, errors: seq<int>)

  datatype PrecinctLedger =
    PrecinctLedger(sums: Option<LedgerSums>, close: Option<CloseRef>, audit: Option<StreamAudit>, nullifiers: seq<string>)

  /** `signedBy` is the authority key the signature was made with, if any. */
  datatype Return = Return(precinctId: string, electionId: string, records: nat, digest: string, contests: seq<ContestSum>,
                           closeBlock: nat, closeTip: string, signedBy: Option<string>)

  datatype RegistryEntry = RegistryEntry(precinctId: string, authorityKey: Option<string>)

  datatype PublishedTally = PublishedTally(totals: seq<nat>, signatures: seq<TrusteeSignature>)

  /** The national header; None for a part that does not decode. */
  datatype Header = Header(electionId: string, paramsElectionId: string, params: Parameters, dkg: Option<DkgTranscript>,
                           partials: Option<seq<PartialDecryption>>, tally: Option<PublishedTally>, binding: Option<string>,
                           groundTruth: seq<nat>)

  // ----- canvass.registry --------------------------------------------------

  /** A registered precinct's position; of entries sharing an id, the last. */
  function IndexOf(registry: seq<RegistryEntry>, id: string): (r: Option<nat>)
    ensures r.Some? ==> r.value < |registry| && registry[r.value].precinctId == id
    ensures r.Some? ==> forall k :: r.value < k < |registry| ==> registry[k].precinctId != id
    ensures r.None? ==> forall k :: 0 <= k < |registry| ==> registry[k].precinctId != id
  {
    if registry == [] then None
    else if registry[|registry| - 1].precinctId == id then Some(|registry| - 1)
    else IndexOf(registry[..|registry| - 1], id)
  }

  function ElectionOf(base: string, id: string): string {
    base + "-" + id
  }

  /** File f is a readable return of registered precinct k. */
  predicate Names(f: Option<Return>, registry: seq<RegistryEntry>, k: nat) {
    f.Some? && IndexOf(registry, f.value.precinctId) == Some(k)
  }

  /** The return counted for precinct k: the first one naming it. */
  function Received(files: seq<Option<Return>>, registry: seq<RegistryEntry>, k: nat): (r: Option<Return>)
    ensures r.Some? ==> r in files && Names(r, registry, k)
  {
    if files == [] then None
    else
      var front := Received(files[..|files| - 1], registry, k);
      if front.Some? then front
      else if Names(files[|files| - 1], registry, k) then files[|files| - 1]
      else None
  }

  function AllReceived(files: seq<Option<Return>>, registry: seq<RegistryEntry>): (rs: seq<Option<Return>>)
    ensures |rs| == |registry| && forall k :: 0 <= k < |rs| ==> rs[k] == Received(files, registry, k)
  {
    seq(|registry|, k requires 0 <= k => Received(files, registry, k))
  }

  /** Every file is a return of a registered precinct of this election, and the
      first one for it. */
  predicate RegistryOk(base: string, registry: seq<RegistryEntry>, files: seq<Option<Return>>) {
    forall i :: 0 <= i < |files| ==>
      && files[i].Some? && IndexOf(registry, files[i].value.precinctId).Some?
      && files[i].value.electionId == ElectionOf(base, files[i].value.precinctId)
      && Received(files[..i], registry, IndexOf(registry, files[i].value.precinctId).value).None?
  }

  method ReadReturns(base: string, registry: seq<RegistryEntry>, files: seq<Option<Return>>)
    returns (received: seq<Option<Return>>, idOk: seq<bool>, ok: bool)
    ensures ok <==> RegistryOk(base, registry, files)
    ensures received == AllReceived(files, registry) && |idOk| == |registry|
    ensures forall k :: 0 <= k < |registry| && received[k].Some? ==>
              (idOk[k] <==> received[k].value.electionId == ElectionOf(base, received[k].value.precinctId))
  {
    received := seq(|registry|, _ => None);
    idOk := seq(|registry|, _ => false);
    ok := true;
    var i := 0;
    while i < |files|
      invariant 0 <= i <= |files| && |received| == |registry| == |idOk|
      invariant forall k :: 0 <= k < |registry| ==> received[k] == Received(files[..i], registry, k)
      invariant forall k :: 0 <= k < |registry| && received[k].Some? ==>
                  (idOk[k] <==> received[k].value.electionId == ElectionOf(base, received[k].value.precinctId))
      invariant ok <==> RegistryOk(base, registry, files[..i])
    {
      RegistrySnoc(base, registry, files, i);
      assert files[..i + 1][..i] == files[..i];
      if files[i].None? {
        ok := false;
      } else {
        var ret := files[i].value;
        var at := IndexOf(registry, ret.precinctId);
        if at.None? {
          ok := false;
        } else {
          var k := at.value;
          var want := ElectionOf(base, ret.precinctId);
          if ret.electionId != want {
            ok := false;
          }
          if received[k].Some? {
            ok := false;
          } else {
            idOk := idOk[k := ret.electionId == want];
            received := received[k := Some(ret)];
          }
        }
      }
      i := i + 1;
    }
    assert files[..i] == files;
  }

  lemma RegistrySnoc(base: string, registry: seq<RegistryEntry>, files: seq<Option<Return>>, i: nat)
    requires i < |files|
    ensures RegistryOk(base, registry, files[..i + 1])
       <==> RegistryOk(base, registry, files[..i])
            && files[i].Some? && IndexOf(registry, files[i].value.precinctId).Some?
            && files[i].value.electionId == ElectionOf(base, files[i].value.precinctId)
            && Received(files[..i], registry, IndexOf(registry, files[i].value.precinctId).value).None?
  {
    hide IndexOf, Received;
    var a, b := files[..i], files[..i + 1];
    assert forall j :: 0 <= j < i ==> a[j] == b[j] && a[..j] == b[..j];
    assert b[i] == files[i] && b[..i] == a;
    if RegistryOk(base, registry, a) && files[i].Some? {
      forall j | 0 <= j < i ensures b[j].Some? && IndexOf(registry, b[j].value.precinctId).Some? {
        assert a[j].Some?;
      }
    }
    if RegistryOk(base, registry, b) {
      forall j | 0 <= j < i ensures a[j].Some? && IndexOf(registry, a[j].value.precinctId).Some? {
        assert b[j].Some?;
      }
    }
  }

  // ----- canvass.signature and canvass.completeness ------------------------

  predicate SignedBy(ret: Return, entry: RegistryEntry) {
    entry.authorityKey.Some? && ret.signedBy == entry.authorityKey
  }

  predicate SignaturesOk(registry: seq<RegistryEntry>, received: seq<Option<Return>>)
    requires |received| == |registry|
  {
    forall k :: 0 <= k < |registry| && received[k].Some? ==> SignedBy(received[k].value, registry[k])
  }

  predicate Accepted(base: string, entry: RegistryEntry, received: Option<Return>) {
    && received.Some? && received.value.electionId == ElectionOf(base, received.value.precinctId)
    && SignedBy(received.value, entry)
  }

  predicate Complete(base: string, registry: seq<RegistryEntry>, received: seq<Option<Return>>)
    requires |received| == |registry|
  {
    forall k :: 0 <= k < |registry| ==> Accepted(base, registry[k], received[k])
  }

  method AcceptReturns(base: string, registry: seq<RegistryEntry>, received: seq<Option<Return>>, idOk: seq<bool>)
    returns (accepted: seq<bool>, signaturesOk: bool, complete: bool)
    requires |received| == |registry| == |idOk|
    requires forall k :: 0 <= k < |registry| && received[k].Some? ==>
               (idOk[k] <==> received[k].value.electionId == ElectionOf(base, received[k].value.precinctId))
    ensures |accepted| == |registry|
    ensures forall k :: 0 <= k < |registry| ==> (accepted[k] <==> Accepted(base, registry[k], received[k]))
    ensures signaturesOk <==> SignaturesOk(registry, received)
    ensures complete <==> Complete(base, registry, received)
  {
    accepted := [];
    signaturesOk, complete := true, true;
    while |accepted| < |registry|
      invariant |accepted| <= |registry|
      invariant forall k :: 0 <= k < |accepted| ==> (accepted[k] <==> Accepted(base, registry[k], received[k]))
      invariant signaturesOk <==> forall k :: 0 <= k < |accepted| && received[k].Some? ==> SignedBy(received[k].value, registry[k])
      invariant complete <==> forall k :: 0 <= k < |accepted| ==> Accepted(base, registry[k], received[k])
      decreases |registry| - |accepted|
    {
      var k := |accepted|;
      var signed := received[k].Some? && SignedBy(received[k].value, registry[k]);
      if received[k].Some? && !signed {
        signaturesOk := false;
      }
      var take := received[k].Some? && idOk[k] && signed;
      if !take {
        complete := false;
      }
      accepted := accepted + [take];
    }
  }

  // ----- canvass.precinct_recompute ----------------------------------------

  /** The return says what its precinct's ledger and close reference say. */
  predicate Matches(ret: Return, ledger: PrecinctLedger) {
    && ledger.sums.Some? && ret.records == ledger.sums.value.records
    && ret.digest == ledger.sums.value.digest && ret.contests == ledger.sums.value.contests
    && ledger.close.Some? && ret.closeBlock == ledger.close.value.block && ret.closeTip == ledger.close.value.tip
  }

  predicate Recomputes(received: seq<Option<Return>>, ledgers: seq<PrecinctLedger>)
    requires |received| == |ledgers|
  {
    forall k :: 0 <= k < |received| && received[k].Some? ==> Matches(received[k].value, ledgers[k])
  }

  method CheckRecompute(received: seq<Option<Return>>, ledgers: seq<PrecinctLedger>) returns (ok: bool)
    requires |received| == |ledgers|
    ensures ok <==> Recomputes(received, ledgers)
  {
    ok := true;
    var k := 0;
    while k < |received|
      invariant 0 <= k <= |received|
      invariant ok <==> forall j :: 0 <= j < k && received[j].Some? ==> Matches(received[j].value, ledgers[j])
    {
      if received[k].Some? {
        var ret, ledger := received[k].value, ledgers[k];
        var diffs := 0;
        if ledger.sums.None? {
          diffs := diffs + 1;
        } else {
          var s := ledger.sums.value;
          if ret.records != s.records {
            diffs := diffs + 1;
          }
          if ret.digest != s.digest {
            diffs := diffs + 1;
          }
          if ret.contests != s.contests {
            diffs := diffs + 1;
          }
        }
        if ledger.close.None? {
          diffs := diffs + 1;
        } else {
          if ret.closeBlock != ledger.close.value.block {
            diffs := diffs + 1;
          }
          if ret.closeTip != ledger.close.value.tip {
            diffs := diffs + 1;
          }
        }
        if diffs > 0 {
          ok := false;
        }
      }
      k := k + 1;
    }
  }

  // ----- canvass.nullifier_unique ------------------------------------------

  /** No nullifier is in two precincts' ledgers. */
  predicate NullifiersUnique(ledgers: seq<PrecinctLedger>) {
    forall j, k, x :: 0 <= j < k < |ledgers| && x in ledgers[j].nullifiers ==> x !in ledgers[k].nullifiers
  }

  method CheckNullifiers(ledgers: seq<PrecinctLedger>) returns (ok: bool)
    ensures ok <==> NullifiersUnique(ledgers)
  {
    var owner: map<string, nat> := map[];
    ok := true;
    var k := 0;
    while k < |ledgers|
      invariant 0 <= k <= |ledgers|
      invariant ok <==> NullifiersUnique(ledgers[..k])
      invariant forall x :: x in owner <==> exists j :: 0 <= j < k && x in ledgers[j].nullifiers
      invariant forall x :: x in owner ==> owner[x] < k
    {
      var collides;
      owner, collides := EnterLedger(owner, ledgers[k].nullifiers, k);
      ok := ok && !collides;
      k := k + 1;
    }
    assert ledgers[..k] == ledgers;
  }

  /** Enters precinct k's nullifiers, noticing those another precinct owns. */
  method EnterLedger(before: map<string, nat>, nullifiers: seq<string>, k: nat) returns (owner: map<string, nat>, collides: bool)
    requires forall x :: x in before ==> before[x] < k
    ensures forall x :: x in owner <==> x in before || x in nullifiers
    ensures forall x :: x in owner ==> owner[x] <= k
    ensures collides <==> exists x :: x in before && x in nullifiers
  {
    owner, collides := before, false;
    var i := 0;
    while i < |nullifiers|
      invariant 0 <= i <= |nullifiers|
      invariant forall x :: x in owner <==> x in before || x in nullifiers[..i]
      invariant forall x :: x in owner ==> owner[x] == if x in before then before[x] else k
      invariant collides <==> exists x :: x in before && x in nullifiers[..i]
    {
      var x := nullifiers[i];
      assert nullifiers[..i + 1] == nullifiers[..i] + [x];
      if x in owner {
        if owner[x] != k {
          collides := true;
        }
      } else {
        owner := owner[x := k];
      }
      i := i + 1;
    }
    assert nullifiers[..i] == nullifiers;
  }

  // ----- canvass.national_sum ----------------------------------------------

  /** The point an encoding stands for; the identity when it is none. */
  function PointOf(e: Encoded): Point {
    if e.Canonical? then e.point else Identity
  }

  /** Every row has n contests, all of them points. */
  predicate Summable(rows: seq<seq<ContestSum>>, n: nat) {
    forall k :: 0 <= k < |rows| ==> |rows[k]| == n && RowDecodes(rows[k], n)
  }

  predicate RowDecodes(row: seq<ContestSum>, n: nat) {
    forall c :: 0 <= c < |row| && c < n ==> row[c].c1.Canonical? && row[c].c2.Canonical?
  }

  /** The precinct aggregates of contest c multiplied together. */
  function Product(rows: seq<seq<ContestSum>>, c: nat, q: nat): Ciphertext
    requires q > 0
  {
    if rows == [] then Zero
    else
      var row := rows[|rows| - 1];
      var front := Product(rows[..|rows| - 1], c, q);
      if c < |row| then Ciphertext(Group.Add(front.pad, PointOf(row[c].c1), q), Group.Add(front.data, PointOf(row[c].c2), q))
      else front
  }

  /** The contests of the returns that count, in registry order. */
  function CountedRows(received: seq<Option<Return>>, accepted: seq<bool>): seq<seq<ContestSum>>
    requires |accepted| == |received|
  {
    if received == [] then []
    else
      var n := |received| - 1;
      CountedRows(received[..n], accepted[..n])
      + if received[n].Some? && accepted[n] then [received[n].value.contests] else []
  }

  predicate NationalSumOk(rows: seq<seq<ContestSum>>, aggregate: seq<ContestSum>, n: nat, q: nat)
    requires q > 0
  {
    && Summable(rows, n) && |aggregate| == n
    && forall c :: 0 <= c < n ==>
         aggregate[c].c1 == Canonical(Product(rows, c, q).pad) && aggregate[c].c2 == Canonical(Product(rows, c, q).data)
  }

  method CheckNationalSum(received: seq<Option<Return>>, accepted: seq<bool>, aggregate: seq<ContestSum>, n: nat, q: nat)
    returns (ok: bool)
    requires q > 0 && |accepted| == |received|
    ensures ok <==> NationalSumOk(CountedRows(received, accepted), aggregate, n, q)
  {
    hide Product, Summable, CountedRows, RowDecodes, AddTo;
    var sums: seq<Ciphertext> := seq(n, _ => Zero);
    NothingCounted(n, q);
    var k := 0;
    assert received[..0] == [] && accepted[..0] == [];
    while k < |received|
      invariant 0 <= k <= |received| && |sums| == n
      invariant Summable(CountedRows(received[..k], accepted[..k]), n)
      invariant forall c: nat :: c < n ==> sums[c] == Product(CountedRows(received[..k], accepted[..k]), c, q)
    {
      CountedSnoc(received, accepted, k);
      if received[k].Some? && accepted[k] {
        var row := received[k].value.contests;
        ghost var rows := CountedRows(received[..k], accepted[..k]);
        if |row| != n || !RowDecodes(row, n) {
          NotSummable(received, accepted, k, n);
          return false;
        }
        CountRow(rows, row, n, q);
        sums := AddRow(sums, row, n, q);
      }
      k := k + 1;
    }
    assert received[..k] == received && accepted[..k] == accepted;
    if |aggregate| != n {
      return false;
    }
    assert forall c: nat :: c < n ==> sums[c] == Product(CountedRows(received, accepted), c, q);
    ok := forall c :: 0 <= c < n ==> aggregate[c].c1 == Canonical(sums[c].pad) && aggregate[c].c2 == Canonical(sums[c].data);
  }

  lemma NothingCounted(n: nat, q: nat)
    requires q > 0
    ensures CountedRows([], []) == [] && Summable([], n) && forall c: nat :: Product([], c, q) == Zero
  {
  }

  lemma CountRow(rows: seq<seq<ContestSum>>, row: seq<ContestSum>, n: nat, q: nat)
    requires q > 0 && Summable(rows, n) && |row| == n && RowDecodes(row, n)
    ensures Summable(rows + [row], n)
    ensures forall c: nat :: Product(rows + [row], c, q) == AddTo(Product(rows, c, q), row, c, q)
  {
    assert (rows + [row])[..|rows|] == rows;
  }

  /** Adds one precinct's contests, up to n of them. */
  method AddRow(before: seq<Ciphertext>, row: seq<ContestSum>, n: nat, q: nat) returns (after: seq<Ciphertext>)
    requires q > 0 && |before| == n
    ensures |after| == n
    ensures forall c: nat :: c < n ==> after[c] == AddTo(before[c], row, c, q)
  {
    after := before;
    var c := 0;
    while c < |row| && c < n
      invariant 0 <= c <= n && c <= |row| && |after| == n
      invariant forall k: nat :: k < c ==> after[k] == AddTo(before[k], row, k, q)
      invariant forall k: nat :: c <= k < n ==> after[k] == before[k]
    {
      after := after[c := AddTo(after[c], row, c, q)];
      c := c + 1;
    }
  }

  function AddTo(sum: Ciphertext, row: seq<ContestSum>, c: nat, q: nat): Ciphertext
    requires q > 0
  {
    if c < |row| then Ciphertext(Group.Add(sum.pad, PointOf(row[c].c1), q), Group.Add(sum.data, PointOf(row[c].c2), q)) else sum
  }

  lemma CountedSnoc(received: seq<Option<Return>>, accepted: seq<bool>, k: nat)
    requires |accepted| == |received| && k < |received|
    ensures CountedRows(received[..k + 1], accepted[..k + 1])
         == var rows := CountedRows(received[..k], accepted[..k]);
            if received[k].Some? && accepted[k] then rows + [received[k].value.contests] else rows
  {
    assert received[..k + 1][..k] == received[..k] && accepted[..k + 1][..k] == accepted[..k];
  }

  lemma {:induction false} CountedPrefix(received: seq<Option<Return>>, accepted: seq<bool>, k: nat)
    requires |accepted| == |received| && k <= |received|
    ensures CountedRows(received[..k], accepted[..k]) <= CountedRows(received, accepted)
    decreases |received| - k
  {
    if k == |received| {
      assert received[..k] == received && accepted[..k] == accepted;
    } else {
      CountedSnoc(received, accepted, k);
      CountedPrefix(received, accepted, k + 1);
    }
  }

  lemma NotSummable(received: seq<Option<Return>>, accepted: seq<bool>, k: nat, n: nat)
    requires |accepted| == |received| && k < |received| && received[k].Some? && accepted[k]
    requires |received[k].value.contests| != n || !RowDecodes(received[k].value.contests, n)
    ensures !Summable(CountedRows(received, accepted), n)
  {
    CountedSnoc(received, accepted, k);
    CountedPrefix(received, accepted, k + 1);
    var at := |CountedRows(received[..k], accepted[..k])|;
    assert CountedRows(received, accepted)[at] == received[k].value.contests;
  }

  // ----- canvass.accuracy --------------------------------------------------

  predicate AuditOk(ledger: PrecinctLedger) {
    ledger.audit.Some? && ledger.audit.value.pass && forall i :: 0 <= i < |ledger.audit.value.errors| ==> ledger.audit.value.errors[i] == 0
  }

  predicate Readable(ledger: PrecinctLedger, n: nat) {
    ledger.sums.Some? && RowDecodes(ledger.sums.value.contests, n)
  }

  function LedgerRow(ledger: PrecinctLedger): seq<ContestSum> {
    if ledger.sums.Some? then ledger.sums.value.contests else []
  }

  function LedgerRows(ledgers: seq<PrecinctLedger>): (rows: seq<seq<ContestSum>>)
    ensures |rows| == |ledgers| && forall k :: 0 <= k < |rows| ==> rows[k] == LedgerRow(ledgers[k])
  {
    seq(|ledgers|, k requires 0 <= k < |ledgers| => LedgerRow(ledgers[k]))
  }

  function LedgerRecords(ledger: PrecinctLedger): nat {
    if ledger.sums.Some? then ledger.sums.value.records else 0
  }

  /** Records of all the precinct ledgers. */
  function Records(ledgers: seq<PrecinctLedger>): nat {
    if ledgers == [] then 0 else Records(ledgers[..|ledgers| - 1]) + LedgerRecords(ledgers[|ledgers| - 1])
  }

  function Column(sums: seq<Ciphertext>): (pads: seq<Point>)
    ensures |pads| == |sums| && forall c :: 0 <= c < |pads| ==> pads[c] == sums[c].pad
  {
    seq(|sums|, c requires 0 <= c < |sums| => sums[c].pad)
  }

  function DataColumn(sums: seq<Ciphertext>): (data: seq<Point>)
    ensures |data| == |sums| && forall c :: 0 <= c < |data| ==> data[c] == sums[c].data
  {
    seq(|sums|, c requires 0 <= c < |sums| => sums[c].data)
  }

  /** The products of n contests. */
  function Products(rows: seq<seq<ContestSum>>, n: nat, q: nat): (sums: seq<Ciphertext>)
    requires q > 0
    ensures |sums| == n && forall c: nat :: c < n ==> sums[c] == Product(rows, c, q)
  {
    seq(n, c requires 0 <= c => Product(rows, c, q))
  }

  /** What the national partial decryptions are checked against. */
  function NationalBoard(h: Header, sums: seq<Ciphertext>, q: nat): Board
    requires q > 0 && h.dkg.Some? && Decodes(h.dkg.value) && h.binding.Some?
  {
    Board(h.params, Column(sums), DataColumn(sums), TrusteeKeys(Dealers(h.dkg.value), |h.params.trusteeIds|, q), h.binding.value)
  }

  /** The national partials decrypt `sums` to the published, signed tally. */
  predicate NationalDecrypts(h: Header, sums: seq<Ciphertext>, max: nat, q: nat)
    requires q > 0 && |sums| == |h.params.contestIds|
  {
    && h.dkg.Some? && h.partials.Some? && h.tally.Some? && h.binding.Some?
    && WellShaped(h.dkg.value, h.params) && Decodes(h.dkg.value)
    && Totals(NationalBoard(h, sums, q), h.partials.value, max, q) == Some(h.tally.value.totals)
    && SignedTally(h.tally.value.signatures, h.params, h.paramsElectionId, h.tally.value.totals,
                   TrusteeKeys(Dealers(h.dkg.value), |h.params.trusteeIds|, q))
  }

  function Truth(h: Header, c: nat): nat {
    if c < |h.groundTruth| then h.groundTruth[c] else 0
  }

  predicate NationalAccurate(h: Header, ledgers: seq<PrecinctLedger>, q: nat)
    requires q > 0
  {
    var n := |h.params.contestIds|;
    && (forall k :: 0 <= k < |ledgers| ==> Readable(ledgers[k], n))
    && NationalDecrypts(h, Products(LedgerRows(ledgers), n, q), Records(ledgers), q)
    && forall c: nat :: c < n && c < |h.tally.value.totals| ==> h.tally.value.totals[c] == Truth(h, c)
  }

  /** What the field arithmetic assumes of any national side: a prime order above
      every count, a positive threshold, decoded points in the group. */
  ghost predicate Sane(h: Header, ledgers: seq<PrecinctLedger>, q: nat) {
    && q > 1 && Prime(q) && h.params.threshold >= 1 && |h.params.trusteeIds| < q && Records(ledgers) < q
    && (h.dkg.Some? ==> InGroup(h.dkg.value, q))
  }

  method DecryptNational(h: Header, sums: seq<Ciphertext>, max: nat, q: nat) returns (r: Option<seq<nat>>)
    requires q > 1 && Prime(q) && h.params.threshold >= 1 && |h.params.trusteeIds| < q && max < q
    requires h.dkg.Some? ==> InGroup(h.dkg.value, q)
    requires |sums| == |h.params.contestIds|
    ensures r.Some? <==> NationalDecrypts(h, sums, max, q)
    ensures r.Some? ==> h.tally.Some? && r.value == h.tally.value.totals && |r.value| == |sums|
  {
    if h.dkg.None? || h.partials.None? || h.tally.None? || h.binding.None? {
      return None;
    }
    hide Prime, Totals, InGroup, SignedTally, WellShaped, Decodes, Represents;
    var dkg := VerifyDkgTranscript(h.params, h.dkg.value, q);
    if dkg.None? {
      return None;
    }
    var b := Board(h.params, Column(sums), DataColumn(sums), dkg.value.publics, h.binding.value);
    var totals := DecryptTotalsBound(b, h.partials.value, max, q);
    if totals.Err? {
      return None;
    }
    if totals.value != h.tally.value.totals {
      return None;
    }
    var signed := VerifyTallySignatures(h.tally.value.signatures, h.params, h.paramsElectionId, h.tally.value.totals, dkg.value.publics);
    if !signed {
      return None;
    }
    r := Some(totals.value);
  }

  method CheckNationalAccuracy(h: Header, ledgers: seq<PrecinctLedger>, q: nat) returns (ok: bool)
    requires q > 1 && Sane(h, ledgers, q)
    ensures ok <==> NationalAccurate(h, ledgers, q)
  {
    hide Prime, InGroup, NationalDecrypts, Product, RowDecodes, AddTo;
    var n := |h.params.contestIds|;
    var sums: seq<Ciphertext> := seq(n, _ => Zero);
    var records := 0;
    var k := 0;
    LedgerSnocs(ledgers, q);
    while k < |ledgers|
      invariant 0 <= k <= |ledgers| && |sums| == n && records == Records(ledgers[..k])
      invariant forall j :: 0 <= j < k ==> Readable(ledgers[j], n)
      invariant forall c: nat :: c < n ==> sums[c] == Product(LedgerRows(ledgers[..k]), c, q)
    {
      assert ledgers[..k + 1][..k] == ledgers[..k];
      if !Readable(ledgers[k], n) {
        return false;
      }
      ProductSnoc(ledgers, k, q);
      records := records + ledgers[k].sums.value.records;
      sums := AddRow(sums, ledgers[k].sums.value.contests, n, q);
      k := k + 1;
    }
    assert ledgers[..k] == ledgers;
    assert sums == Products(LedgerRows(ledgers), n, q);
    var decoded := DecryptNational(h, sums, records, q);
    if decoded.None? {
      return false;
    }
    ok := forall c: nat :: c < n && c < |decoded.value| ==> decoded.value[c] == Truth(h, c);
  }

  lemma LedgerSnocs(ledgers: seq<PrecinctLedger>, q: nat)
    requires q > 0
    ensures ledgers[..0] == [] && LedgerRows([]) == [] && forall c: nat :: Product([], c, q) == Zero
  {
  }

  lemma ProductSnoc(ledgers: seq<PrecinctLedger>, k: nat, q: nat)
    requires q > 0 && k < |ledgers|
    ensures forall c: nat :: Product(LedgerRows(ledgers[..k + 1]), c, q)
                          == AddTo(Product(LedgerRows(ledgers[..k]), c, q), LedgerRow(ledgers[k]), c, q)
  {
    var rows := LedgerRows(ledgers[..k + 1]);
    assert rows[..k] == LedgerRows(ledgers[..k]) && rows[k] == LedgerRow(ledgers[k]);
  }

  predicate Accurate(h: Header, ledgers: seq<PrecinctLedger>, q: nat)
    requires q > 0
  {
    (forall k :: 0 <= k < |ledgers| ==> AuditOk(ledgers[k])) && NationalAccurate(h, ledgers, q)
  }

  // ----- the canvass -------------------------------------------------------

  function Flags(base: string, registry: seq<RegistryEntry>, received: seq<Option<Return>>): (accepted: seq<bool>)
    requires |received| == |registry|
    ensures |accepted| == |registry| && forall k :: 0 <= k < |registry| ==> (accepted[k] <==> Accepted(base, registry[k], received[k]))
  {
    seq(|registry|, k requires 0 <= k < |registry| => Accepted(base, registry[k], received[k]))
  }

  datatype Verdicts = Verdicts(registry: bool, completeness: bool, signature: bool, recompute: bool, nationalSum: bool,
                               accuracy: bool, nullifierUnique: bool) {
    predicate Pass() {
      registry && completeness && signature && recompute && nationalSum && accuracy && nullifierUnique
    }
  }

  /** The seven checks, each stated on its own. */
  function Verdict(h: Header, registry: seq<RegistryEntry>, files: seq<Option<Return>>, ledgers: seq<PrecinctLedger>,
                   aggregate: seq<ContestSum>, q: nat): Verdicts
    requires q > 0 && |ledgers| == |registry|
  {
    var received := AllReceived(files, registry);
    Verdicts(
      RegistryOk(h.electionId, registry, files),
      Complete(h.electionId, registry, received),
      SignaturesOk(registry, received),
      Recomputes(received, ledgers),
      NationalSumOk(CountedRows(received, Flags(h.electionId, registry, received)), aggregate, |h.params.contestIds|, q),
      Accurate(h, ledgers, q),
      NullifiersUnique(ledgers))
  }

  method RunCanvass(h: Header, registry: seq<RegistryEntry>, files: seq<Option<Return>>, ledgers: seq<PrecinctLedger>,
                    aggregate: seq<ContestSum>, q: nat)
    returns (v: Verdicts)
    requires q > 1 && Sane(h, ledgers, q) && |ledgers| == |registry|
    ensures v == Verdict(h, registry, files, ledgers, aggregate, q)
  {
    hide Sane, RegistryOk, Received, Accepted, SignedBy, Matches, CountedRows, NationalSumOk, NationalAccurate, NullifiersUnique, IndexOf;
    var nullifierUnique := CheckNullifiers(ledgers);
    var received, idOk, registryOk := ReadReturns(h.electionId, registry, files);
    var accepted, signaturesOk, complete := AcceptReturns(h.electionId, registry, received, idOk);
    assert accepted == Flags(h.electionId, registry, received);
    var recompute := CheckRecompute(received, ledgers);
    var nationalSum := CheckNationalSum(received, accepted, aggregate, |h.params.contestIds|, q);
    var audits := true;
    var k := 0;
    while k < |ledgers|
      invariant 0 <= k <= |ledgers|
      invariant audits <==> forall j :: 0 <= j < k ==> AuditOk(ledgers[j])
    {
      audits := audits && AuditOk(ledgers[k]);
      k := k + 1;
    }
    var national := CheckNationalAccuracy(h, ledgers, q);
    v := Verdicts(registryOk, complete, signaturesOk, recompute, nationalSum, audits && national, nullifierUnique);
  }

  // ----- what a passing canvass establishes --------------------------------

  /** The contests of every return, in registry order. */
  function ReturnRows(received: seq<Option<Return>>): (rows: seq<seq<ContestSum>>)
    ensures |rows| == |received|
    ensures forall k :: 0 <= k < |rows| ==> rows[k] == if received[k].Some? then received[k].value.contests else []
  {
    seq(|received|, k requires 0 <= k < |received| => if received[k].Some? then received[k].value.contests else [])
  }

  lemma {:induction false} AllCounted(received: seq<Option<Return>>, accepted: seq<bool>)
    requires |accepted| == |received| && forall k :: 0 <= k < |received| ==> received[k].Some? && accepted[k]
    ensures CountedRows(received, accepted) == ReturnRows(received)
  {
    if received != [] {
      var n := |received| - 1;
      AllCounted(received[..n], accepted[..n]);
      assert ReturnRows(received) == ReturnRows(received[..n]) + [received[n].value.contests];
    }
  }

  /** A complete registry names each precinct once. */
  lemma RegistryDistinct(base: string, registry: seq<RegistryEntry>, files: seq<Option<Return>>)
    requires Complete(base, registry, AllReceived(files, registry))
    ensures forall j, k :: 0 <= j < k < |registry| ==> registry[j].precinctId != registry[k].precinctId
  {
    forall j, k | 0 <= j < k < |registry| ensures registry[j].precinctId != registry[k].precinctId {
      var r := Received(files, registry, j);
      assert Accepted(base, registry[j], AllReceived(files, registry)[j]);
      assert Names(r, registry, j);
    }
  }

  /** The algebra a passing canvass certifies: the recorded national aggregate is
      the product of what every precinct returned and of what every precinct's
      ledger holds. */
  lemma AggregateIsTheProduct(h: Header, registry: seq<RegistryEntry>, files: seq<Option<Return>>, ledgers: seq<PrecinctLedger>,
                              aggregate: seq<ContestSum>, q: nat)
    requires q > 0 && |ledgers| == |registry| && Verdict(h, registry, files, ledgers, aggregate, q).Pass()
    ensures ReturnRows(AllReceived(files, registry)) == LedgerRows(ledgers)
    ensures |aggregate| == |h.params.contestIds|
    ensures forall c: nat :: c < |aggregate| ==>
              && aggregate[c].c1 == Canonical(Product(LedgerRows(ledgers), c, q).pad)
              && aggregate[c].c2 == Canonical(Product(LedgerRows(ledgers), c, q).data)
  {
    hide Received, RegistryOk, Product, Summable, Accurate, NullifiersUnique, SignaturesOk;
    var received := AllReceived(files, registry);
    var accepted := Flags(h.electionId, registry, received);
    forall k | 0 <= k < |registry|
      ensures received[k].Some? && accepted[k] && received[k].value.contests == LedgerRow(ledgers[k])
    {
      assert Accepted(h.electionId, registry[k], received[k]);
      assert Matches(received[k].value, ledgers[k]);
    }
    AllCounted(received, accepted);
    assert ReturnRows(received) == LedgerRows(ledgers);
  }

  /** The secret behind the national key. */
  function Secret(h: Header): int
    requires h.dkg.Some? && Decodes(h.dkg.value)
  {
    JointEval(Dealers(h.dkg.value), 0)
  }

  /** The published total of each contest is the only count in range that the
      recorded aggregate decrypts to; it equals the ground truth, and at least
      `threshold` different trustees signed it. */
  lemma PublishedTotalsAreTheDecryption(h: Header, registry: seq<RegistryEntry>, files: seq<Option<Return>>,
                                        ledgers: seq<PrecinctLedger>, aggregate: seq<ContestSum>, c: nat, t: nat, q: nat)
    requires q > 0 && Sane(h, ledgers, q) && |ledgers| == |registry|
    requires Verdict(h, registry, files, ledgers, aggregate, q).Pass()
    requires c < |h.params.contestIds| && t <= Records(ledgers)
    ensures h.dkg.Some? && Decodes(h.dkg.value) && h.tally.Some?
    ensures c < |aggregate| && c < |h.tally.value.totals| && aggregate[c].c1.Canonical? && aggregate[c].c2.Canonical?
    ensures Cong(aggregate[c].c2.point.log, t + Secret(h) * aggregate[c].c1.point.log, q) <==> t == h.tally.value.totals[c]
    ensures h.tally.value.totals[c] == Truth(h, c)
    ensures SignedTally(h.tally.value.signatures, h.params, h.paramsElectionId, h.tally.value.totals,
                        TrusteeKeys(Dealers(h.dkg.value), |h.params.trusteeIds|, q))
  {
    hide Verdict, Product, SignedTally, Cong, NationalAccurate, NationalDecrypts, Decodes, Totals, InGroup, Prime, Secret, Truth,
      TrusteeKeys, Dealers, ReturnRows;
    PassIsAccurate(h, registry, files, ledgers, aggregate, q);
    AggregateIsTheProduct(h, registry, files, ledgers, aggregate, q);
    AccurateMeans(h, ledgers, q);
    var sums := Products(LedgerRows(ledgers), |h.params.contestIds|, q);
    NationalTotals(h, sums, Records(ledgers), c, t, q);
    assert sums[c] == Product(LedgerRows(ledgers), c, q);
  }

  lemma AccurateMeans(h: Header, ledgers: seq<PrecinctLedger>, q: nat)
    requires q > 0 && NationalAccurate(h, ledgers, q)
    ensures NationalDecrypts(h, Products(LedgerRows(ledgers), |h.params.contestIds|, q), Records(ledgers), q) && h.tally.Some?
    ensures forall c: nat :: c < |h.params.contestIds| && c < |h.tally.value.totals| ==> h.tally.value.totals[c] == Truth(h, c)
  {
    hide Product, Readable, Totals, SignedTally;
  }

  lemma PassIsAccurate(h: Header, registry: seq<RegistryEntry>, files: seq<Option<Return>>, ledgers: seq<PrecinctLedger>,
                       aggregate: seq<ContestSum>, q: nat)
    requires q > 0 && |ledgers| == |registry| && Verdict(h, registry, files, ledgers, aggregate, q).Pass()
    ensures NationalAccurate(h, ledgers, q)
  {
    hide NationalAccurate, RegistryOk, Complete, NationalSumOk, NullifiersUnique, SignaturesOk, Recomputes, CountedRows, Received;
  }

  lemma NationalTotals(h: Header, sums: seq<Ciphertext>, max: nat, c: nat, t: nat, q: nat)
    requires q > 1 && Prime(q) && |h.params.trusteeIds| < q && max < q && h.params.threshold >= 1
    requires |sums| == |h.params.contestIds| && NationalDecrypts(h, sums, max, q) && c < |sums| && t <= max
    ensures h.dkg.Some? && Decodes(h.dkg.value) && h.tally.Some? && c < |h.tally.value.totals|
    ensures Cong(sums[c].data.log, t + Secret(h) * sums[c].pad.log, q) <==> t == h.tally.value.totals[c]
    ensures SignedTally(h.tally.value.signatures, h.params, h.paramsElectionId, h.tally.value.totals,
                        TrusteeKeys(Dealers(h.dkg.value), |h.params.trusteeIds|, q))
  {
    var b := NationalBoard(h, sums, q);
    var dealers := Dealers(h.dkg.value);
    assert Totals(b, h.partials.value, max, q) == Some(h.tally.value.totals);
    TrusteeKeysAreKeys(dealers, |h.params.trusteeIds|, q);
    hide Totals, SignedTally, Prime, Cong, KeysOf, Decodes, WellShaped, TrusteeKeys;
    TotalsAreTheDecryption(b, h.partials.value, max, dealers, c, t, q);
  }

  // ----- from aggregates to plaintexts -------------------------------------

  /** Precinct k's ledger holds ms[k] votes for contest c, no more than its records. */
  ghost predicate PrecinctVotes(ledgers: seq<PrecinctLedger>, c: nat, secret: int, ms: seq<nat>, q: nat)
    requires q > 0
  {
    |ms| == |ledgers| && forall k :: 0 <= k < |ledgers| ==>
      && c < |LedgerRow(ledgers[k])| && ms[k] <= LedgerRecords(ledgers[k])
      && Encrypts(Ciphertext(PointOf(LedgerRow(ledgers[k])[c].c1), PointOf(LedgerRow(ledgers[k])[c].c2)), ms[k], secret, q)
  }

  lemma {:induction false} ProductEncrypts(ledgers: seq<PrecinctLedger>, c: nat, secret: int, ms: seq<nat>, q: nat)
    requires q > 0 && PrecinctVotes(ledgers, c, secret, ms, q)
    ensures Encrypts(Product(LedgerRows(ledgers), c, q), Counting.Sum(ms), secret, q)
    ensures Counting.Sum(ms) <= Records(ledgers)
  {
    hide Encrypts;
    if ledgers == [] {
      ZeroEncryptsZero(secret, q);
    } else {
      var n := |ledgers| - 1;
      var front, row := ledgers[..n], LedgerRow(ledgers[n]);
      assert PrecinctVotes(front, c, secret, ms[..n], q);
      ProductEncrypts(front, c, secret, ms[..n], q);
      assert LedgerRows(ledgers)[..n] == LedgerRows(front);
      SumEncrypts(Product(LedgerRows(front), c, q), Counting.Sum(ms[..n]),
                  Ciphertext(PointOf(row[c].c1), PointOf(row[c].c2)), ms[n], secret, q);
    }
  }

  /** So the published national total is the number of votes in the precinct
      ledgers: nothing lost, nothing added between a ledger and the tally. */
  lemma PublishedTotalIsTheSumOfVotes(h: Header, registry: seq<RegistryEntry>, files: seq<Option<Return>>,
                                      ledgers: seq<PrecinctLedger>, aggregate: seq<ContestSum>, c: nat, ms: seq<nat>, q: nat)
    requires q > 0 && Sane(h, ledgers, q) && |ledgers| == |registry|
    requires Verdict(h, registry, files, ledgers, aggregate, q).Pass()
    requires c < |h.params.contestIds|
    requires h.dkg.Some? && Decodes(h.dkg.value) && PrecinctVotes(ledgers, c, Secret(h), ms, q)
    ensures h.tally.Some? && c < |h.tally.value.totals| && h.tally.value.totals[c] == Counting.Sum(ms)
  {
    hide Verdict, Sane, SignedTally, Cong, PrecinctVotes, Product;
    ProductEncrypts(ledgers, c, Secret(h), ms, q);
    AggregateIsTheProduct(h, registry, files, ledgers, aggregate, q);
    PublishedTotalsAreTheDecryption(h, registry, files, ledgers, aggregate, c, Counting.Sum(ms), q);
  }
}
