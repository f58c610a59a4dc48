/** The trustee ceremony of an on-chain run: submits, lost answers, retries,
    status polls that write back, and the publish gate. */
module Ceremony {
  import opened Wrappers

  /** One share of the bundle; `bytes` is what the chain must hold for it. */
  datatype Share = Share(trustee: string, contest: string, bytes: string)

  datatype Key = Key(contest: string, trustee: string)

  datatype Signature = Signature(trustee: string, bytes: string)

  /** What never changes during the ceremony. The roster holds the configured ids. */
  datatype Config = Config(roster: set<string>, threshold: nat, shares: seq<Share>, signatures: seq<Signature>)

  type Chain = map<Key, string>

  function KeyOf(share: Share): Key {
    Key(share.contest, share.trustee)
  }

  function SharesOf(shares: seq<Share>, t: string): (mine: seq<Share>)
    ensures forall p :: p in mine <==> p in shares && p.trustee == t
  {
    if shares == [] then []
    else
      assert forall p :: p in shares <==> p in shares[..|shares| - 1] || p == shares[|shares| - 1];
      SharesOf(shares[..|shares| - 1], t) + if shares[|shares| - 1].trustee == t then [shares[|shares| - 1]] else []
  }

  function Mine(c: Config, t: string): seq<Share> {
    SharesOf(c.shares, t)
  }

  /** The chain holds this share, byte for byte. */
  predicate Held(chain: Chain, share: Share) {
    KeyOf(share) in chain && chain[KeyOf(share)] == share.bytes
  }

  /** Trustee t has shares, and the chain holds every one of them. */
  predicate Contributed(c: Config, chain: Chain, t: string) {
    Mine(c, t) != [] && forall i :: 0 <= i < |Mine(c, t)| ==> Held(chain, Mine(c, t)[i])
  }

  // ----- what is published -------------------------------------------------

  /** The signatures a publish sends: those of submitted trustees, in order; a
      tally without any goes out as it is. */
  function Kept(signatures: seq<Signature>, submitted: set<string>): (kept: seq<Signature>)
    ensures forall s :: s in kept <==> s in signatures && s.trustee in submitted
    ensures |kept| <= |signatures|
  {
    if signatures == [] then []
    else
      var n := |signatures| - 1;
      assert forall s :: s in signatures <==> s in signatures[..n] || s == signatures[n];
      Kept(signatures[..n], submitted) + if signatures[n].trustee in submitted then [signatures[n]] else []
  }

  datatype RosterRow = RosterRow(id: string, submitted: bool)

  method TallyToPublish(signatures: seq<Signature>, roster: seq<RosterRow>) returns (kept: seq<Signature>)
    ensures kept == Kept(signatures, set i | 0 <= i < |roster| && roster[i].submitted :: roster[i].id)
  {
    ghost var all := set i | 0 <= i < |roster| && roster[i].submitted :: roster[i].id;
    if signatures == [] {
      return signatures;
    }
    var submitted: set<string> := {};
    var i := 0;
    while i < |roster|
      invariant 0 <= i <= |roster|
      invariant submitted == set k | 0 <= k < i && roster[k].submitted :: roster[k].id
    {
      if roster[i].submitted {
        submitted := submitted + {roster[i].id};
      }
      i := i + 1;
    }
    assert submitted == all;
    kept := [];
    i := 0;
    while i < |signatures|
      invariant 0 <= i <= |signatures| && kept == Kept(signatures[..i], submitted)
    {
      assert signatures[..i + 1][..i] == signatures[..i];
      if signatures[i].trustee in submitted {
        kept := kept + [signatures[i]];
      }
      i := i + 1;
    }
    assert signatures[..i] == signatures;
  }

  // ----- the protocol ------------------------------------------------------

  /** ceremony.json. */
  datatype Record = Record(submitted: set<string>, published: bool)

  /** A read-modify-write of the record. After `Seen`, a publish goes on with
      what its poll saw. */
  datatype Update =
    | Create
    | Mark(trustee: string)
    | Seen(ids: set<string>, view: Option<set<string>>)
    | MarkPublished

  /** One console action. Sending and Probing stand before share i of trustee t;
      Polling probes share j of todo[0]. */
  datatype Actor =
    | Idle
    | Probing(t: string, i: nat)
    | Sending(t: string, i: nat)
    | Polling(local: set<string>, todo: seq<string>, j: nat, seen: set<string>, publish: bool)
    | Gate(view: set<string>)
    | Publishing(view: set<string>)
    | Locking(update: Update)
    | Holding(update: Update, loaded: Record)

  datatype Publication = Publication(view: set<string>, signatures: seq<Signature>)

  /** limbo: shares whose submission was lost and may still commit. forgetful:
      history, set when a read of an existing record failed. */
  datatype State = State(
    chain: Chain, limbo: set<Share>, file: Option<Record>, lock: Option<nat>, actors: nat -> Actor,
    sent: seq<Publication>, forgetful: bool)

  const INITIAL := State(map[], {}, None, None, _ => Idle, [], false)

  datatype Answer = Committed | CommittedUnreported | Refused | Lost

  /** BeginCreate ends a start, which the ledger lets through once; BeginRewrite
      ends a resume, which an existing record admits only when the window's end
      stamp was lost. */
  datatype Step =
    | BeginCreate(a: nat)
    | BeginRewrite(a: nat)
    | BeginSubmit(a: nat, trustee: string)
    | Probe(a: nat, readOk: bool)
    | Send(a: nat, answer: Answer)
    | Land(share: Share)
    | BeginPoll(a: nat, publish: bool, connects: bool, order: seq<string>)
    | PollProbe(a: nat, readOk: bool)
    | EndPoll(a: nat)
    | Decide(a: nat)
    | SendTally(a: nat, accepted: bool)
    | Lock(a: nat, readFails: bool)
    | Write(a: nat, ok: bool)
    | Fail(a: nat)
    | Crash

  /** A missing or unreadable record reads as a fresh one. */
  function Load(c: Config, file: Option<Record>, readFails: bool): Record {
    if file.None? || readFails then Record({}, false) else file.value.(submitted := file.value.submitted * c.roster)
  }

  function Applied(c: Config, loaded: Record, u: Update): Record {
    match u
    case Create => loaded
    case Mark(t) => loaded.(submitted := loaded.submitted + ({t} * c.roster))
    case Seen(ids, _) => loaded.(submitted := loaded.submitted + (ids * c.roster))
    case MarkPublished => loaded.(published := true)
  }

  /** Where an action goes on after its update. */
  function After(u: Update): Actor {
    if u.Seen? && u.view.Some? then Gate(u.view.value) else Idle
  }

  /** Only a finished start may create the record; these two need it to exist. */
  predicate NeedsRecord(u: Update) {
    u.Mark? || u.Seen?
  }

  function SetActor(s: State, a: nat, x: Actor): State {
    s.(actors := (b: nat) => if b == a then x else s.actors(b))
  }

  function PerformProbe(c: Config, s: State, a: nat, readOk: bool): State
    requires s.actors(a).Probing?
  {
    var x := s.actors(a);
    var mine := Mine(c, x.t);
    if x.i >= |mine| then SetActor(s, a, Locking(Mark(x.t)))
    else if !readOk || KeyOf(mine[x.i]) !in s.chain then SetActor(s, a, Sending(x.t, x.i))
    else if Held(s.chain, mine[x.i]) then SetActor(s, a, Probing(x.t, x.i + 1))
    else SetActor(s, a, Idle)
  }

  /** The chain takes the first share for its key and refuses any other. */
  function PerformSend(c: Config, s: State, a: nat, answer: Answer): State
    requires s.actors(a).Sending?
  {
    var x := s.actors(a);
    var mine := Mine(c, x.t);
    if x.i >= |mine| then s
    else
      var share := mine[x.i];
      var free := KeyOf(share) !in s.chain;
      match answer
      case Committed =>
        if free then SetActor(s.(chain := s.chain[KeyOf(share) := share.bytes]), a, Probing(x.t, x.i + 1)) else SetActor(s, a, Idle)
      case CommittedUnreported =>
        if free then SetActor(s.(chain := s.chain[KeyOf(share) := share.bytes]), a, Idle) else SetActor(s, a, Idle)
      case Refused => SetActor(s, a, Idle)
      case Lost => SetActor(s.(limbo := s.limbo + {share}), a, Idle)
  }

  function PerformPollProbe(c: Config, s: State, a: nat, readOk: bool): State
    requires s.actors(a).Polling? && s.actors(a).todo != []
  {
    var x := s.actors(a);
    var t := x.todo[0];
    var mine := Mine(c, t);
    if x.j >= |mine| then
      SetActor(s, a, x.(todo := x.todo[1..], j := 0, seen := if mine == [] then x.seen else x.seen + {t}))
    else if readOk && Held(s.chain, mine[x.j]) then SetActor(s, a, x.(j := x.j + 1))
    else SetActor(s, a, x.(todo := x.todo[1..], j := 0))
  }

  function PerformEndPoll(s: State, a: nat): State
    requires s.actors(a).Polling?
  {
    var x := s.actors(a);
    var view := x.local + x.seen;
    if x.seen != {} then SetActor(s, a, Locking(Seen(x.seen, if x.publish then Some(view) else None)))
    else if x.publish then SetActor(s, a, Gate(view))
    else SetActor(s, a, Idle)
  }

  function PerformLock(c: Config, s: State, a: nat, readFails: bool): State
    requires s.actors(a).Locking?
  {
    var u := s.actors(a).update;
    if NeedsRecord(u) && s.file.None? then SetActor(s, a, After(u))
    else
      SetActor(s, a, Holding(u, Load(c, s.file, readFails)))
      .(lock := Some(a), forgetful := s.forgetful || (readFails && s.file.Some?))
  }

  function PerformWrite(c: Config, s: State, a: nat, ok: bool): State
    requires s.actors(a).Holding?
  {
    var x := s.actors(a);
    SetActor(s, a, After(x.update)).(lock := None, file := if ok then Some(Applied(c, x.loaded, x.update)) else s.file)
  }

  predicate Enabled(c: Config, s: State, step: Step) {
    match step
    case BeginCreate(a) => s.actors(a).Idle? && s.file.None?
    case BeginRewrite(a) => s.actors(a).Idle?
    case BeginSubmit(a, _) => s.actors(a).Idle?
    case Probe(a, _) => s.actors(a).Probing?
    case Send(a, _) => s.actors(a).Sending?
    case Land(share) => share in s.limbo && KeyOf(share) !in s.chain
    case BeginPoll(a, _, _, order) => s.actors(a).Idle? && forall t :: t in order ==> t in c.roster
    case PollProbe(a, _) => s.actors(a).Polling? && s.actors(a).todo != []
    case EndPoll(a) => s.actors(a).Polling? && s.actors(a).todo == []
    case Decide(a) => s.actors(a).Gate?
    case SendTally(a, _) => s.actors(a).Publishing?
    case Lock(a, _) => s.actors(a).Locking? && s.lock.None?
    case Write(a, _) => s.actors(a).Holding?
    case Fail(a) => !s.actors(a).Holding?
    case Crash => true
  }

  function Perform(c: Config, s: State, step: Step): State {
    if !Enabled(c, s, step) then s
    else
      match step
      case BeginCreate(a) => SetActor(s, a, Locking(Create))
      case BeginRewrite(a) => SetActor(s, a, Locking(Create))
      case BeginSubmit(a, t) => if Mine(c, t) == [] then s else SetActor(s, a, Probing(t, 0))
      case Probe(a, readOk) => PerformProbe(c, s, a, readOk)
      case Send(a, answer) => PerformSend(c, s, a, answer)
      case Land(share) => s.(chain := s.chain[KeyOf(share) := share.bytes])
      case BeginPoll(a, publish, connects, order) =>
        SetActor(s, a, Polling(Load(c, s.file, false).submitted, if connects then order else [], 0, {}, publish))
      case PollProbe(a, readOk) => PerformPollProbe(c, s, a, readOk)
      case EndPoll(a) => PerformEndPoll(s, a)
      case Decide(a) =>
        var view := s.actors(a).view;
        SetActor(s, a, if |view| >= c.threshold then Publishing(view) else Idle)
      case SendTally(a, accepted) =>
        var view := s.actors(a).view;
        SetActor(s.(sent := s.sent + [Publication(view, Kept(c.signatures, view))]), a,
                 if accepted then Locking(MarkPublished) else Idle)
      case Lock(a, readFails) => PerformLock(c, s, a, readFails)
      case Write(a, ok) => PerformWrite(c, s, a, ok)
      case Fail(a) => SetActor(s, a, Idle)
      case Crash => s.(actors := _ => Idle, lock := None)
  }

  function Run(c: Config, steps: seq<Step>): State {
    if steps == [] then INITIAL else Perform(c, Run(c, steps[..|steps| - 1]), steps[|steps| - 1])
  }

  // ----- invariants --------------------------------------------------------

  /** Every one of these trustees is on the roster and has contributed. */
  ghost predicate AllContributed(c: Config, chain: Chain, ids: set<string>) {
    forall t :: t in ids ==> t in c.roster && Contributed(c, chain, t)
  }

  ghost predicate HeldUpTo(c: Config, chain: Chain, t: string, i: nat) {
    forall j :: 0 <= j < i && j < |Mine(c, t)| ==> Held(chain, Mine(c, t)[j])
  }

  ghost predicate UpdateOk(c: Config, chain: Chain, u: Update) {
    match u
    case Mark(t) => Contributed(c, chain, t)
    case Seen(ids, view) => AllContributed(c, chain, ids) && (view.Some? ==> AllContributed(c, chain, view.value))
    case _ => true
  }

  ghost predicate ActorOk(c: Config, chain: Chain, x: Actor) {
    match x
    case Idle => true
    case Probing(t, i) => Mine(c, t) != [] && HeldUpTo(c, chain, t, i)
    case Sending(t, i) => Mine(c, t) != [] && HeldUpTo(c, chain, t, i)
    case Polling(local, todo, j, seen, _) =>
      && AllContributed(c, chain, local) && AllContributed(c, chain, seen)
      && (forall t :: t in todo ==> t in c.roster) && (todo != [] ==> HeldUpTo(c, chain, todo[0], j))
    case Gate(view) => AllContributed(c, chain, view)
    case Publishing(view) => AllContributed(c, chain, view) && |view| >= c.threshold
    case Locking(u) => UpdateOk(c, chain, u)
    case Holding(u, loaded) => UpdateOk(c, chain, u) && AllContributed(c, chain, loaded.submitted)
  }

  ghost predicate Sound(c: Config, s: State) {
    && (forall a: nat :: ActorOk(c, s.chain, s.actors(a)))
    && (s.file.Some? ==> AllContributed(c, s.chain, s.file.value.submitted))
    && forall i :: 0 <= i < |s.sent| ==> PublicationOk(c, s.chain, s.sent[i])
  }

  ghost predicate PublicationOk(c: Config, chain: Chain, p: Publication) {
    AllContributed(c, chain, p.view) && |p.view| >= c.threshold && p.signatures == Kept(c.signatures, p.view)
  }

  /** One writer at a time, and it holds what the file says. */
  ghost predicate Exclusive(c: Config, s: State) {
    && (forall a: nat :: s.actors(a).Holding? ==> s.lock == Some(a))
    && (!s.forgetful ==> forall a: nat :: s.actors(a).Holding? ==> s.actors(a).loaded == Load(c, s.file, false))
  }

  ghost predicate Extends(chain: Chain, chain': Chain) {
    forall k :: k in chain ==> k in chain' && chain'[k] == chain[k]
  }

  /** A share on the chain is never replaced. */
  lemma ChainOnlyGrows(c: Config, s: State, step: Step)
    ensures Extends(s.chain, Perform(c, s, step).chain)
  {
  }

  lemma ContributedGrows(c: Config, chain: Chain, chain': Chain)
    requires Extends(chain, chain')
    ensures forall t :: Contributed(c, chain, t) ==> Contributed(c, chain', t)
    ensures forall x :: ActorOk(c, chain, x) ==> ActorOk(c, chain', x)
    ensures forall p :: PublicationOk(c, chain, p) ==> PublicationOk(c, chain', p)
    ensures forall ids :: AllContributed(c, chain, ids) ==> AllContributed(c, chain', ids)
  {
    hide Mine, Kept;
    forall t | Contributed(c, chain, t) ensures Contributed(c, chain', t) {
    }
    forall ids | AllContributed(c, chain, ids) ensures AllContributed(c, chain', ids) {
    }
    forall t: string, i: nat | HeldUpTo(c, chain, t, i) ensures HeldUpTo(c, chain', t, i) {
    }
    hide Contributed, AllContributed, HeldUpTo;
    forall x | ActorOk(c, chain, x) ensures ActorOk(c, chain', x) {
    }
  }

  /** Replacing one actor by a sound one keeps the whole state sound. */
  lemma SetActorSound(c: Config, s: State, a: nat, x: Actor)
    requires Sound(c, s) && ActorOk(c, s.chain, x)
    ensures Sound(c, SetActor(s, a, x))
  {
    hide ActorOk, PublicationOk, AllContributed;
  }

  /** Sound states stay sound while the chain grows. */
  lemma GrowSound(c: Config, s: State, chain: Chain)
    requires Sound(c, s) && Extends(s.chain, chain)
    ensures Sound(c, s.(chain := chain))
  {
    ContributedGrows(c, s.chain, chain);
    hide ActorOk, PublicationOk, AllContributed, Extends;
  }

  lemma ProbeSound(c: Config, s: State, a: nat, readOk: bool)
    requires Sound(c, s) && s.actors(a).Probing?
    ensures Sound(c, PerformProbe(c, s, a, readOk))
  {
    var x := s.actors(a);
    assert ActorOk(c, s.chain, x);
    hide Mine, Sound, Held;
    var y := if x.i >= |Mine(c, x.t)| then Locking(Mark(x.t))
             else if !readOk || KeyOf(Mine(c, x.t)[x.i]) !in s.chain then Sending(x.t, x.i)
             else if Held(s.chain, Mine(c, x.t)[x.i]) then Probing(x.t, x.i + 1)
             else Idle;
    SetActorSound(c, s, a, y);
  }

  lemma SendSound(c: Config, s: State, a: nat, answer: Answer)
    requires Sound(c, s) && s.actors(a).Sending?
    ensures Sound(c, PerformSend(c, s, a, answer))
  {
    var x := s.actors(a);
    assert ActorOk(c, s.chain, x);
    SetActorSound(c, s, a, Idle);
    if x.i < |Mine(c, x.t)| && KeyOf(Mine(c, x.t)[x.i]) !in s.chain {
      var share := Mine(c, x.t)[x.i];
      var chain := s.chain[KeyOf(share) := share.bytes];
      GrowSound(c, s, chain);
      var grown := s.(chain := chain);
      assert ActorOk(c, chain, x);
      assert HeldUpTo(c, chain, x.t, x.i + 1);
      hide Mine, Sound, HeldUpTo, Held;
      SetActorSound(c, grown, a, Probing(x.t, x.i + 1));
      SetActorSound(c, grown, a, Idle);
    }
  }

  lemma PollSound(c: Config, s: State, a: nat, readOk: bool)
    requires Sound(c, s) && s.actors(a).Polling? && s.actors(a).todo != []
    ensures Sound(c, PerformPollProbe(c, s, a, readOk))
  {
    var x := s.actors(a);
    var t := x.todo[0];
    assert ActorOk(c, s.chain, x) && t in x.todo;
    hide Mine, Sound, Held;
    var skip := x.(todo := x.todo[1..], j := 0);
    assert ActorOk(c, s.chain, skip);
    if x.j >= |Mine(c, t)| && Mine(c, t) != [] {
      assert Contributed(c, s.chain, t);
    }
    var found := x.(todo := x.todo[1..], j := 0, seen := if Mine(c, t) == [] then x.seen else x.seen + {t});
    var next := x.(j := x.j + 1);
    if x.j >= |Mine(c, t)| {
      SetActorSound(c, s, a, found);
    } else if readOk && Held(s.chain, Mine(c, t)[x.j]) {
      SetActorSound(c, s, a, next);
    } else {
      SetActorSound(c, s, a, skip);
    }
  }

  lemma EndPollSound(c: Config, s: State, a: nat)
    requires Sound(c, s) && s.actors(a).Polling?
    ensures Sound(c, PerformEndPoll(s, a))
  {
    var x := s.actors(a);
    assert ActorOk(c, s.chain, x);
    var view := x.local + x.seen;
    assert AllContributed(c, s.chain, view);
    hide Sound, Contributed;
    SetActorSound(c, s, a, Locking(Seen(x.seen, if x.publish then Some(view) else None)));
    SetActorSound(c, s, a, Gate(view));
    SetActorSound(c, s, a, Idle);
  }

  lemma LockSound(c: Config, s: State, a: nat, readFails: bool)
    requires Sound(c, s) && s.actors(a).Locking?
    ensures Sound(c, PerformLock(c, s, a, readFails))
  {
    var u := s.actors(a).update;
    assert ActorOk(c, s.chain, s.actors(a));
    var loaded := Load(c, s.file, readFails);
    assert AllContributed(c, s.chain, loaded.submitted);
    hide Contributed;
    SetActorSound(c, s, a, After(u));
    SetActorSound(c, s, a, Holding(u, loaded));
    hide ActorOk, PublicationOk, AllContributed;
  }

  lemma WriteSound(c: Config, s: State, a: nat, ok: bool)
    requires Sound(c, s) && s.actors(a).Holding?
    ensures Sound(c, PerformWrite(c, s, a, ok))
  {
    var x := s.actors(a);
    assert ActorOk(c, s.chain, x);
    assert AllContributed(c, s.chain, Applied(c, x.loaded, x.update).submitted);
    hide Contributed;
    SetActorSound(c, s, a, After(x.update));
    hide ActorOk, PublicationOk, AllContributed, Applied, After;
  }

  lemma GateSound(c: Config, s: State, a: nat)
    requires Sound(c, s) && s.actors(a).Gate?
    ensures Sound(c, Perform(c, s, Decide(a)))
  {
    var view := s.actors(a).view;
    assert ActorOk(c, s.chain, s.actors(a));
    hide Sound, AllContributed;
    SetActorSound(c, s, a, if |view| >= c.threshold then Publishing(view) else Idle);
  }

  lemma TallySound(c: Config, s: State, a: nat, accepted: bool)
    requires Sound(c, s) && s.actors(a).Publishing?
    ensures Sound(c, Perform(c, s, SendTally(a, accepted)))
  {
    var view := s.actors(a).view;
    assert ActorOk(c, s.chain, s.actors(a));
    hide AllContributed, Kept;
    var next := s.(sent := s.sent + [Publication(view, Kept(c.signatures, view))]);
    assert Sound(c, next);
    SetActorSound(c, next, a, if accepted then Locking(MarkPublished) else Idle);
  }

  lemma BeginPollSound(c: Config, s: State, step: Step)
    requires Sound(c, s) && step.BeginPoll? && Enabled(c, s, step)
    ensures Sound(c, Perform(c, s, step))
  {
    var local := Load(c, s.file, false).submitted;
    assert AllContributed(c, s.chain, local);
    hide Sound, Contributed;
    SetActorSound(c, s, step.a, Polling(local, if step.connects then step.order else [], 0, {}, step.publish));
  }

  lemma StepSound(c: Config, s: State, step: Step)
    requires Sound(c, s)
    ensures Sound(c, Perform(c, s, step))
  {
    hide Sound, PerformProbe, PerformSend, PerformPollProbe, PerformEndPoll, PerformLock, PerformWrite, Mine, Kept;
    if Enabled(c, s, step) {
      match step
      case BeginCreate(a) => SetActorSound(c, s, a, Locking(Create));
      case BeginRewrite(a) => SetActorSound(c, s, a, Locking(Create));
      case BeginSubmit(a, t) =>
        if Mine(c, t) != [] {
          SetActorSound(c, s, a, Probing(t, 0));
        }
      case Probe(a, readOk) => ProbeSound(c, s, a, readOk);
      case Send(a, answer) => SendSound(c, s, a, answer);
      case Land(share) => GrowSound(c, s, s.chain[KeyOf(share) := share.bytes]);
      case BeginPoll(_, _, _, _) => BeginPollSound(c, s, step);
      case PollProbe(a, readOk) => PollSound(c, s, a, readOk);
      case EndPoll(a) => EndPollSound(c, s, a);
      case Decide(a) => GateSound(c, s, a);
      case SendTally(a, accepted) => TallySound(c, s, a, accepted);
      case Lock(a, readFails) => LockSound(c, s, a, readFails);
      case Write(a, ok) => WriteSound(c, s, a, ok);
      case Fail(a) => SetActorSound(c, s, a, Idle);
      case Crash => CrashSound(c, s);
    }
  }

  lemma CrashSound(c: Config, s: State)
    requires Sound(c, s)
    ensures Sound(c, s.(actors := _ => Idle, lock := None))
  {
    hide AllContributed, PublicationOk;
  }

  lemma {:induction false} RunSound(c: Config, steps: seq<Step>)
    ensures Sound(c, Run(c, steps))
  {
    if steps != [] {
      RunSound(c, steps[..|steps| - 1]);
      StepSound(c, Run(c, steps[..|steps| - 1]), steps[|steps| - 1]);
    }
  }

  /** In every run: a trustee recorded as submitted has every one of its bundle
      shares on the chain, byte for byte. */
  lemma RecordedMeansOnChain(c: Config, steps: seq<Step>, t: string)
    requires Run(c, steps).file.Some? && t in Run(c, steps).file.value.submitted
    ensures t in c.roster && Contributed(c, Run(c, steps).chain, t)
    ensures forall p :: p in c.shares && p.trustee == t ==> Held(Run(c, steps).chain, p)
  {
    RunSound(c, steps);
    var chain := Run(c, steps).chain;
    forall p | p in c.shares && p.trustee == t ensures Held(chain, p) {
      assert p in Mine(c, t);
    }
  }

  /** In every run: a tally goes out only with at least `threshold` contributors
      behind it, carrying exactly their signatures. */
  lemma PublicationsAreBacked(c: Config, steps: seq<Step>, i: nat)
    requires i < |Run(c, steps).sent|
    ensures var p := Run(c, steps).sent[i];
            && |p.view| >= c.threshold && (forall t :: t in p.view ==> Contributed(c, Run(c, steps).chain, t))
            && forall s :: s in p.signatures <==> s in c.signatures && s.trustee in p.view
  {
    RunSound(c, steps);
    assert PublicationOk(c, Run(c, steps).chain, Run(c, steps).sent[i]);
  }

  // ----- progress is not lost ----------------------------------------------

  function Recorded(s: State): set<string> {
    if s.file.None? then {} else s.file.value.submitted
  }

  /** The file's ids are on the roster, so a reload drops none. */
  ghost predicate OnRoster(c: Config, s: State) {
    Recorded(s) <= c.roster
  }

  lemma StepExclusive(c: Config, s: State, step: Step)
    requires Exclusive(c, s) && OnRoster(c, s)
    ensures Exclusive(c, Perform(c, s, step))
    ensures !Perform(c, s, step).forgetful ==> Recorded(s) <= Recorded(Perform(c, s, step))
  {
    hide Mine, Kept, Held;
    if Enabled(c, s, step) && step.Write? {
      WriteExclusive(c, s, step.a, step.ok);
    }
  }

  lemma WriteExclusive(c: Config, s: State, a: nat, ok: bool)
    requires Exclusive(c, s) && OnRoster(c, s) && s.actors(a).Holding?
    ensures Exclusive(c, PerformWrite(c, s, a, ok))
    ensures !s.forgetful ==> Recorded(s) <= Recorded(PerformWrite(c, s, a, ok))
  {
  }

  lemma {:induction false} RunExclusive(c: Config, steps: seq<Step>)
    ensures Exclusive(c, Run(c, steps)) && OnRoster(c, Run(c, steps))
  {
    if steps != [] {
      var front := steps[..|steps| - 1];
      RunExclusive(c, front);
      StepExclusive(c, Run(c, front), steps[|steps| - 1]);
      RunSound(c, steps);
      RosterHolds(c, Run(c, steps));
    }
  }

  lemma RosterHolds(c: Config, s: State)
    requires Sound(c, s)
    ensures OnRoster(c, s)
  {
  }

  lemma ForgetfulStays(c: Config, s: State, step: Step)
    ensures s.forgetful ==> Perform(c, s, step).forgetful
  {
    hide Mine, Kept, Held;
  }

  /** However the writers interleave, recorded progress only grows, as long as no
      read of the existing record failed. */
  lemma {:induction false} ProgressIsKept(c: Config, steps: seq<Step>, k: nat)
    requires k <= |steps| && !Run(c, steps).forgetful
    ensures Recorded(Run(c, steps[..k])) <= Recorded(Run(c, steps))
  {
    if k == |steps| {
      assert steps[..k] == steps;
    } else {
      var front := steps[..|steps| - 1];
      var s, step := Run(c, front), steps[|steps| - 1];
      RunExclusive(c, front);
      hide Perform, Exclusive, OnRoster;
      ForgetfulStays(c, s, step);
      StepExclusive(c, s, step);
      ProgressIsKept(c, front, k);
      assert front[..k] == steps[..k];
    }
  }

  /** What an update adds to the recorded ids. */
  function Adds(c: Config, u: Update): set<string> {
    match u
    case Mark(t) => {t} * c.roster
    case Seen(ids, _) => ids * c.roster
    case _ => {}
  }

  /** Whoever writes after failing to read the existing record, a submit, a poll
      or a publish: the record keeps what the write adds, and nothing else. So
      that write keeps the recorded progress exactly when it adds all of it. */
  lemma UnreadableRecordForgets(c: Config, s: State, a: nat)
    requires s.lock.None? && s.file.Some? && s.actors(a).Locking?
    ensures var u, after := s.actors(a).update, Perform(c, Perform(c, s, Lock(a, true)), Write(a, true));
            && Recorded(after) == Adds(c, u) && after.forgetful
            && (Recorded(s) <= Recorded(after) <==> Recorded(s) <= Adds(c, u))
  {
    var held := Perform(c, s, Lock(a, true));
    assert held == PerformLock(c, s, a, true);
    assert Perform(c, held, Write(a, true)) == PerformWrite(c, held, a, true);
    hide Perform;
  }

  lemma Follow(c: Config, steps: seq<Step>, step: Step)
    ensures Run(c, steps + [step]) == Perform(c, Run(c, steps), step)
  {
    assert (steps + [step])[..|steps|] == steps;
  }

  // ----- how progress is lost ----------------------------------------------

  function Repeat(step: Step, n: nat): (steps: seq<Step>)
    ensures |steps| == n
  {
    if n == 0 then [] else Repeat(step, n - 1) + [step]
  }

  /** Trustee t submits once more over console action a, and the record cannot be
      read when it is marked. */
  function Resubmission(c: Config, t: string, a: nat): seq<Step> {
    [BeginSubmit(a, t)] + Repeat(Probe(a, true), |Mine(c, t)| + 1) + [Lock(a, true)] + [Write(a, true)]
  }

  /** s differs from the earlier moment only in its actors; action a stands at x. */
  ghost predicate Only(earlier: State, s: State, a: nat, x: Actor) {
    s.chain == earlier.chain && s.file == earlier.file && s.lock == earlier.lock && s.actors(a) == x
  }

  /** A probe of a share the chain holds moves on to the next one. */
  lemma ProbeSkips(c: Config, s: State, a: nat, t: string, i: nat)
    requires s.actors(a) == Probing(t, i) && i < |Mine(c, t)| && Contributed(c, s.chain, t)
    ensures Only(s, Perform(c, s, Probe(a, true)), a, Probing(t, i + 1))
  {
    assert Held(s.chain, Mine(c, t)[i]);
    hide Mine;
    assert Perform(c, s, Probe(a, true)) == PerformProbe(c, s, a, true);
  }

  lemma {:induction false} ProbesSkip(c: Config, steps: seq<Step>, a: nat, t: string, i: nat)
    requires Run(c, steps).actors(a) == Probing(t, 0) && Contributed(c, Run(c, steps).chain, t) && i <= |Mine(c, t)|
    ensures Only(Run(c, steps), Run(c, steps + Repeat(Probe(a, true), i)), a, Probing(t, i))
  {
    if i == 0 {
      assert steps + Repeat(Probe(a, true), 0) == steps;
    } else {
      var before := steps + Repeat(Probe(a, true), i - 1);
      assert steps + Repeat(Probe(a, true), i) == before + [Probe(a, true)];
      hide Run, Mine, Perform, Contributed, Repeat;
      ProbesSkip(c, steps, a, t, i - 1);
      Follow(c, before, Probe(a, true));
      ProbeSkips(c, Run(c, before), a, t, i - 1);
    }
  }

  /** From every reachable moment with t recorded, a free lock and an idle action:
      when t submits again and the record cannot be read as it is marked, t alone
      stays recorded. Progress is lost exactly when anyone else was recorded. */
  lemma ResubmissionForgets(c: Config, steps: seq<Step>, a: nat, t: string)
    requires var s := Run(c, steps); t in Recorded(s) && s.lock.None? && s.actors(a).Idle?
    ensures var s, after := Run(c, steps), Run(c, steps + Resubmission(c, t, a));
            && Recorded(after) == {t} && after.chain == s.chain
            && (Recorded(s) <= Recorded(after) <==> Recorded(s) == {t})
  {
    var s := Run(c, steps);
    RecordedMeansOnChain(c, steps, t);
    var n := |Mine(c, t)|;
    var begun := steps + [BeginSubmit(a, t)];
    var skipped := begun + Repeat(Probe(a, true), n);
    var probed := skipped + [Probe(a, true)];
    assert steps + Resubmission(c, t, a) == probed + [Lock(a, true)] + [Write(a, true)] by {
      assert begun + Repeat(Probe(a, true), n + 1) == probed;
    }
    hide Run, Mine, Repeat, Held, Resubmission, Perform, Contributed, Adds;
    Follow(c, steps, BeginSubmit(a, t));
    SubmitBegins(c, s, a, t);
    ProbesSkip(c, begun, a, t, n);
    Follow(c, skipped, Probe(a, true));
    ProbesEnd(c, Run(c, skipped), a, t);
    Follow(c, probed, Lock(a, true));
    Follow(c, probed + [Lock(a, true)], Write(a, true));
    UnreadableRecordForgets(c, Run(c, probed), a);
    MarkAdds(c, t);
    ForgottenChain(c, Run(c, probed), a);
  }

  lemma MarkAdds(c: Config, t: string)
    requires t in c.roster
    ensures Adds(c, Mark(t)) == {t}
  {
  }

  lemma SubmitBegins(c: Config, s: State, a: nat, t: string)
    requires s.actors(a).Idle? && Mine(c, t) != []
    ensures Only(s, Perform(c, s, BeginSubmit(a, t)), a, Probing(t, 0))
  {
  }

  lemma ProbesEnd(c: Config, s: State, a: nat, t: string)
    requires s.actors(a) == Probing(t, |Mine(c, t)|)
    ensures Only(s, Perform(c, s, Probe(a, true)), a, Locking(Mark(t)))
  {
    hide Mine, Held;
    assert Perform(c, s, Probe(a, true)) == PerformProbe(c, s, a, true);
  }

  lemma ForgottenChain(c: Config, s: State, a: nat)
    ensures Perform(c, Perform(c, s, Lock(a, true)), Write(a, true)).chain == s.chain
  {
    hide PerformProbe, PerformSend, PerformPollProbe, PerformEndPoll, Mine, Kept, Held;
  }

  /** A publish does so too: its mark finds the record unreadable and empties it. */
  lemma PublishForgets(c: Config, steps: seq<Step>, a: nat)
    requires var s := Run(c, steps); s.actors(a).Publishing? && s.lock.None? && s.file.Some?
    ensures Recorded(Run(c, steps + [SendTally(a, true)] + [Lock(a, true)] + [Write(a, true)])) == {}
  {
    var sent := steps + [SendTally(a, true)];
    hide Run, Kept;
    Follow(c, steps, SendTally(a, true));
    assert Only(Run(c, steps), Run(c, sent), a, Locking(MarkPublished));
    Follow(c, sent, Lock(a, true));
    Follow(c, sent + [Lock(a, true)], Write(a, true));
    hide Perform;
    UnreadableRecordForgets(c, Run(c, sent), a);
  }

  // ----- such moments are reached ------------------------------------------

  lemma Take(c: Config, steps: seq<Step>, s: State, step: Step) returns (steps': seq<Step>, s': State)
    requires Run(c, steps) == s
    ensures Run(c, steps') == s' == Perform(c, s, step)
  {
    Follow(c, steps, step);
    return steps + [step], Perform(c, s, step);
  }

  /** Console action 0 rests, with this record and a free lock. */
  ghost predicate Resting(s: State, recorded: set<string>) {
    s.actors(0) == Idle && s.lock.None? && s.file == Some(Record(recorded, false))
  }

  /** A trustee with one share, not on the chain yet, submits it. */
  lemma Submits(c: Config, steps: seq<Step>, s: State, share: Share, recorded: set<string>)
    returns (steps': seq<Step>, s': State)
    requires Run(c, steps) == s && Resting(s, recorded) && recorded <= c.roster
    requires Mine(c, share.trustee) == [share] && share.trustee in c.roster && KeyOf(share) !in s.chain
    ensures Run(c, steps') == s' && Resting(s', recorded + {share.trustee}) && s'.chain == s.chain[KeyOf(share) := share.bytes]
  {
    var t := share.trustee;
    Sent(c, s, share);
    var sent := Perform(c, Perform(c, Perform(c, s, BeginSubmit(0, t)), Probe(0, true)), Send(0, Committed));
    Marked(c, sent, share, recorded);
    steps', s' := steps, s;
    hide Perform, Resting, Mine;
    steps', s' := Take(c, steps', s', BeginSubmit(0, t));
    steps', s' := Take(c, steps', s', Probe(0, true));
    steps', s' := Take(c, steps', s', Send(0, Committed));
    steps', s' := Take(c, steps', s', Probe(0, true));
    steps', s' := Take(c, steps', s', Lock(0, false));
    steps', s' := Take(c, steps', s', Write(0, true));
  }

  lemma Sent(c: Config, s: State, share: Share)
    requires s.actors(0) == Idle && Mine(c, share.trustee) == [share] && KeyOf(share) !in s.chain
    ensures var t := Perform(c, Perform(c, Perform(c, s, BeginSubmit(0, share.trustee)), Probe(0, true)), Send(0, Committed));
            && t.actors(0) == Probing(share.trustee, 1) && t.lock == s.lock && t.file == s.file
            && t.chain == s.chain[KeyOf(share) := share.bytes]
  {
    hide Mine, Kept;
    var a := Perform(c, s, BeginSubmit(0, share.trustee));
    assert a.actors(0) == Probing(share.trustee, 0);
    var b := Perform(c, a, Probe(0, true));
    assert b.actors(0) == Sending(share.trustee, 0);
  }

  lemma Marked(c: Config, s: State, share: Share, recorded: set<string>)
    requires s.actors(0) == Probing(share.trustee, 1) && s.lock.None? && s.file == Some(Record(recorded, false))
    requires Mine(c, share.trustee) == [share] && share.trustee in c.roster && recorded <= c.roster
    ensures var t := Perform(c, Perform(c, Perform(c, s, Probe(0, true)), Lock(0, false)), Write(0, true));
            Resting(t, recorded + {share.trustee}) && t.chain == s.chain
  {
    hide Mine, Kept;
    var a := Perform(c, s, Probe(0, true));
    assert a.actors(0) == Locking(Mark(share.trustee));
    var b := Perform(c, a, Lock(0, false));
    assert recorded * c.roster == recorded && {share.trustee} * c.roster == {share.trustee};
    assert b.actors(0) == Holding(Mark(share.trustee), Record(recorded, false));
  }

  lemma Created(c: Config) returns (steps: seq<Step>, s: State)
    ensures Run(c, steps) == s && Resting(s, {}) && s.chain == map[]
  {
    hide Mine, Kept;
    steps, s := [], INITIAL;
    steps, s := Take(c, steps, s, BeginCreate(0));
    assert s.actors(0) == Locking(Create);
    steps, s := Take(c, steps, s, Lock(0, false));
    assert s.actors(0) == Holding(Create, Record({}, false));
    steps, s := Take(c, steps, s, Write(0, true));
  }

  /** Two trustees submit, the first submits again over an unreadable record, and
      the second is no longer recorded, though its share stays on the chain. */
  lemma ProgressToLose(c: Config, p: Share, r: Share)
    requires c.shares == [p, r] && p.trustee != r.trustee && {p.trustee, r.trustee} <= c.roster
    ensures exists steps, more ::
              && Recorded(Run(c, steps)) == {p.trustee, r.trustee}
              && Recorded(Run(c, steps + more)) == {p.trustee} && Held(Run(c, steps + more).chain, r)
  {
    TwoShares(c, p, r);
    var steps, s := Created(c);
    steps, s := Submits(c, steps, s, p, {});
    steps, s := Submits(c, steps, s, r, {} + {p.trustee});
    hide Run, Mine, Perform;
    assert Recorded(s) == {p.trustee, r.trustee};
    ResubmissionForgets(c, steps, 0, p.trustee);
    assert Held(s.chain, r);
  }

  lemma TwoShares(c: Config, p: Share, r: Share)
    requires c.shares == [p, r] && p.trustee != r.trustee
    ensures Mine(c, p.trustee) == [p] && Mine(c, r.trustee) == [r]
  {
    SharesSnoc([], p, p.trustee);
    SharesSnoc([], p, r.trustee);
    SharesSnoc([p], r, p.trustee);
    SharesSnoc([p], r, r.trustee);
    assert SharesOf([], p.trustee) == SharesOf([], r.trustee) == [];
    hide SharesOf;
    assert [] + [p] == [p] && [p] + [r] == [p, r];
  }

  lemma SharesSnoc(shares: seq<Share>, share: Share, t: string)
    ensures SharesOf(shares + [share], t) == SharesOf(shares, t) + if share.trustee == t then [share] else []
  {
    assert (shares + [share])[..|shares|] == shares;
  }
}
