/** Any number of calls of getValidAccessToken, from any number of processes, against a server that
    rotates refresh tokens: the calls share the files and the directory lock.
 */
module OAuthRuns {
  import opened Text
  import opened OAuthFiles

  type CallId = nat

  /** The server accepts only the token it issued last, and nothing once the chain is revoked. */
  datatype Server = Server(newest: Token, revoked: bool, issued: set<Token>)

  datatype World = World(files: Files, lock: Option<CallId>, calls: map<CallId, Call>, server: Server)

  datatype Event =
    | Begin(c: CallId, minimumValidity: int, now: int, dirOk: bool)
    | Tick(c: CallId, now: int, dirOk: bool)
    | Acquire(c: CallId)
    | GiveUp(c: CallId)
    | Resume(c: CallId, now: int)
    | ServerReplies(c: CallId, reply: Reply)
    | ReplyLost(c: CallId, rotated: Option<Token>, retryable: bool)
    | Process(c: CallId, now: int, writeOk: bool)
    | Release(c: CallId)
    | Login(access: string, refresh: Token, expiresAt: int)
    | Revoke

  predicate NewToken(s: Server, token: Token) {
    token != "" && token !in s.issued
  }

  predicate MayReply(s: Server, posted: Token, reply: Reply) {
    match reply
    case Grant(access, refresh, _) =>
      posted == s.newest && !s.revoked && access != "" && (refresh.Some? ==> NewToken(s, refresh.value))
    case HttpError(_, invalidGrant) => invalidGrant ==> posted != s.newest || s.revoked
  }

  predicate Enabled(w: World, e: Event) {
    match e
    case Begin(c, _, _, _) => c !in w.calls
    case Tick(c, _, _) => c !in w.calls
    case Acquire(c) => c in w.calls && w.calls[c].WaitingForLock? && w.lock.None?
    case GiveUp(c) => c in w.calls && w.calls[c].WaitingForLock?
    case Resume(c, _) => c in w.calls && w.calls[c].HoldingLock?
    case ServerReplies(c, reply) =>
      c in w.calls && w.calls[c].Posting? && MayReply(w.server, w.calls[c].credentials.refresh, reply)
    case ReplyLost(c, refresh, _) =>
      && c in w.calls && w.calls[c].Posting?
      && MayReply(w.server, w.calls[c].credentials.refresh, Grant("lost", refresh, 0))
    case Process(c, now, _) => c in w.calls && w.calls[c].Answered? && now > 0
    case Release(c) => c in w.calls && w.calls[c].Releasing?
    case Login(access, refresh, expiresAt) => access != "" && NewToken(w.server, refresh) && expiresAt != 0
    case Revoke => true
  }

  function Rotated(s: Server, refresh: Option<Token>): Server {
    if refresh.Some? then s.(newest := refresh.value, issued := s.issued + {refresh.value}) else s
  }

  function Replied(w: World, c: CallId, reply: Reply, refresh: Option<Token>): World
    requires c in w.calls && w.calls[c].Posting?
  {
    w.(calls := w.calls[c := Answered(w.calls[c].credentials, w.calls[c].attempt, reply)],
       server := Rotated(w.server, refresh))
  }

  function Moved(w: World, c: CallId, step: (Files, Call)): World {
    w.(files := step.0, calls := w.calls[c := step.1])
  }

  function Step(w: World, e: Event): World
    requires Enabled(w, e)
  {
    match e
    case Begin(c, minimumValidity, now, dirOk) => Moved(w, c, StartCall(w.files, minimumValidity, now, dirOk))
    case Tick(c, now, dirOk) =>
      var (files, call) := StartTick(w.files, now, dirOk);
      if call.Some? then Moved(w, c, (files, call.value)) else w.(files := files)
    case Acquire(c) => w.(lock := Some(c), calls := w.calls[c := HoldingLock(w.calls[c].minimumValidity)])
    case GiveUp(c) => w.(calls := w.calls[c := Done(Threw)])
    case Resume(c, now) => Moved(w, c, ResumeWithLock(w.files, w.calls[c].minimumValidity, now))
    case ServerReplies(c, reply) => Replied(w, c, reply, if reply.Grant? then reply.refresh else None)
    case ReplyLost(c, refresh, retryable) => Replied(w, c, HttpError(retryable, false), refresh)
    case Process(c, now, writeOk) =>
      Moved(w, c, ResumeWithReply(w.files, w.calls[c].credentials, w.calls[c].attempt, w.calls[c].reply, now, writeOk))
    case Release(c) => w.(lock := None, calls := w.calls[c := Done(w.calls[c].result)])
    case Login(access, refresh, expiresAt) =>
      w.(files := Save(w.files, TokenSet(access, refresh, expiresAt)),
         server := Server(refresh, false, w.server.issued + {refresh}))
    case Revoke => w.(server := w.server.(revoked := true))
  }

  // ---- The invariant ----

  predicate InCriticalSection(call: Call) {
    call.HoldingLock? || call.Posting? || call.Answered? || call.Releasing?
  }

  predicate AliveOnDisk(f: Files) {
    ReadCredentials(f).Some? ==> !MarkedDead(f, ReadCredentials(f).value.refresh)
  }

  predicate UnderWay(call: Call) {
    call.Posting? || call.Answered?
  }

  /** While a request is under way the token on disk is not marked dead.  It is the one of the
      request, unless a login has put another in its place. */
  predicate RequestOk(f: Files, call: Call) {
    UnderWay(call) ==>
      && Usable(call.credentials) && ReadCredentials(f).Some? && AliveOnDisk(f)
      && (ReadCredentials(f).value == call.credentials
          || ReadCredentials(f).value.refresh != call.credentials.refresh)
  }

  /** A grant under way names a token that is not the one on disk. */
  predicate GrantOk(call: Call) {
    call.Answered? && call.reply.Grant? ==>
      call.reply.access != "" &&
      (call.reply.refresh.Some? ==>
         call.reply.refresh.value != "" && call.reply.refresh.value != call.credentials.refresh)
  }

  ghost predicate Inv(w: World) {
    && w.server.newest in w.server.issued
    && (w.lock.Some? ==> w.lock.value in w.calls)
    && (ReadCredentials(w.files).Some? ==> ReadCredentials(w.files).value.refresh in w.server.issued)
    && (w.files.marker.MarkerOf? ==> w.files.marker.marker.hash.token in w.server.issued)
    && (forall c :: c in w.calls ==>
          && (InCriticalSection(w.calls[c]) <==> w.lock == Some(c))
          && RequestOk(w.files, w.calls[c])
          && GrantOk(w.calls[c])
          && (UnderWay(w.calls[c]) ==> w.calls[c].credentials.refresh in w.server.issued)
          && (w.calls[c].Answered? && w.calls[c].reply.Grant? && w.calls[c].reply.refresh.Some? ==>
                w.calls[c].reply.refresh.value in w.server.issued))
  }

  /** The step of a call outside the critical section leaves the credentials alone, and takes away
      no marker of the token on disk. */
  lemma {:induction false} OutsideStep(f: Files, minimumValidity: int, now: int, dirOk: bool)
    ensures var (f', call) := StartCall(f, minimumValidity, now, dirOk);
            && f'.credentials == f.credentials && !InCriticalSection(call)
            && (ReadCredentials(f).Some? ==>
                  var t := ReadCredentials(f).value.refresh; (MarkedDead(f', t) <==> MarkedDead(f, t)))
    ensures var (f', call) := StartTick(f, now, dirOk);
            && f'.credentials == f.credentials && (call.Some? ==> !InCriticalSection(call.value))
            && (ReadCredentials(f).Some? ==>
                  var t := ReadCredentials(f).value.refresh; (MarkedDead(f', t) <==> MarkedDead(f, t)))
  {
  }

  lemma {:induction false} OutsideKeepsInv(w: World, e: Event)
    requires Inv(w) && Enabled(w, e) && (e.Begin? || e.Tick?)
    ensures Inv(Step(w, e))
  {
    match e
    case Begin(c, minimumValidity, now, dirOk) => OutsideStep(w.files, minimumValidity, now, dirOk);
    case Tick(c, now, dirOk) => OutsideStep(w.files, 0, now, dirOk);
  }

  lemma {:induction false} LockKeepsInv(w: World, e: Event)
    requires Inv(w) && Enabled(w, e) && (e.Acquire? || e.GiveUp? || e.Release?)
    ensures Inv(Step(w, e))
  {
  }

  lemma {:induction false} ResumeKeepsInv(w: World, e: Event)
    requires Inv(w) && Enabled(w, e) && e.Resume?
    ensures Inv(Step(w, e))
  {
  }

  lemma {:induction false} ReplyKeepsInv(w: World, e: Event)
    requires Inv(w) && Enabled(w, e) && (e.ServerReplies? || e.ReplyLost?)
    ensures Inv(Step(w, e))
  {
  }

  lemma {:induction false} ProcessKeepsInv(w: World, e: Event)
    requires Inv(w) && Enabled(w, e) && e.Process?
    ensures Inv(Step(w, e))
  {
  }

  lemma {:induction false} LoginKeepsInv(w: World, e: Event)
    requires Inv(w) && Enabled(w, e) && e.Login?
    ensures Inv(Step(w, e))
  {
  }

  lemma {:induction false} StepKeepsInv(w: World, e: Event)
    requires Inv(w) && Enabled(w, e)
    ensures Inv(Step(w, e))
  {
    match e
    case Begin(_, _, _, _) => OutsideKeepsInv(w, e);
    case Tick(_, _, _) => OutsideKeepsInv(w, e);
    case Acquire(_) => LockKeepsInv(w, e);
    case GiveUp(_) => LockKeepsInv(w, e);
    case Release(_) => LockKeepsInv(w, e);
    case Resume(_, _) => ResumeKeepsInv(w, e);
    case ServerReplies(_, _) => ReplyKeepsInv(w, e);
    case ReplyLost(_, _, _) => ReplyKeepsInv(w, e);
    case Process(_, _, _) => ProcessKeepsInv(w, e);
    case Login(_, _, _) => LoginKeepsInv(w, e);
    case Revoke =>
  }

  // ---- Runs ----

  ghost predicate CanRun(w: World, events: seq<Event>)
    decreases |events|
  {
    events == [] || (Enabled(w, events[0]) && CanRun(Step(w, events[0]), events[1..]))
  }

  ghost function Run(w: World, events: seq<Event>): World
    requires CanRun(w, events)
    decreases |events|
  {
    if events == [] then w else Run(Step(w, events[0]), events[1..])
  }

  lemma {:induction false} RunCons(w: World, e: Event, rest: seq<Event>)
    requires Enabled(w, e) && CanRun(Step(w, e), rest)
    ensures CanRun(w, [e] + rest) && Run(w, [e] + rest) == Run(Step(w, e), rest)
  {
    assert ([e] + rest)[1..] == rest;
  }

  /** Served by the server, a request ends with the new tokens on disk and the lock free. */
  lemma {:induction false} RequestGoesThrough(w: World, c: CallId, now: int, access: string, refresh: Token,
        lifetimeSeconds: nat)
      returns (events: seq<Event>)
    requires c in w.calls && w.calls[c].Posting? && w.calls[c].credentials.refresh == w.server.newest
    requires !w.server.revoked && now > 0 && access != "" && NewToken(w.server, refresh)
    ensures CanRun(w, events)
    ensures var w' := Run(w, events);
            && c in w'.calls && w'.calls[c] == Done(AccessToken(access, true)) && w'.lock.None?
            && w'.server.newest == refresh && ReadCredentials(w'.files).Some?
            && ReadCredentials(w'.files).value.refresh == refresh
            && ReadCredentials(w'.files).value.access == access
            && ReadCredentials(w'.files).value.expiresAt == now + lifetimeSeconds * 1000
  {
    var e1 := ServerReplies(c, Grant(access, Some(refresh), lifetimeSeconds));
    var e2, e3 := Process(c, now, true), Release(c);
    var w1 := Step(w, e1);
    var w2 := Step(w1, e2);
    RunCons(w2, e3, []);
    RunCons(w1, e2, [e3] + []);
    RunCons(w, e1, [e2] + ([e3] + []));
    events := [e1] + ([e2] + ([e3] + []));
  }

  /** A call that finds the token due is not kept from refreshing it: it can get the lock, post the
      newest token, save what it is granted and hand it out. */
  lemma {:induction false} RefreshGoesThrough(w: World, c: CallId, minimumValidity: nat, now: int, access: string,
        refresh: Token, lifetimeSeconds: nat)
      returns (events: seq<Event>)
    requires w.lock.None? && c !in w.calls && ReadCredentials(w.files).Some? && AliveOnDisk(w.files)
    requires ReadCredentials(w.files).value.refresh == w.server.newest && !w.server.revoked
    requires now >= ReadCredentials(w.files).value.expiresAt - minimumValidity
    requires now > 0 && access != "" && NewToken(w.server, refresh)
    ensures CanRun(w, events)
    ensures var w' := Run(w, events);
            && c in w'.calls && w'.calls[c] == Done(AccessToken(access, true)) && w'.lock.None?
            && w'.server.newest == refresh && ReadCredentials(w'.files).Some?
            && ReadCredentials(w'.files).value.refresh == refresh
            && ReadCredentials(w'.files).value.access == access
            && ReadCredentials(w'.files).value.expiresAt == now + lifetimeSeconds * 1000
  {
    var e1, e2, e3 := Begin(c, minimumValidity, now, true), Acquire(c), Resume(c, now);
    var w1 := Step(w, e1);
    var w2 := Step(w1, e2);
    var w3 := Step(w2, e3);
    var rest := RequestGoesThrough(w3, c, now, access, refresh, lifetimeSeconds);
    RunCons(w2, e3, rest);
    RunCons(w1, e2, [e3] + rest);
    RunCons(w, e1, [e2] + ([e3] + rest));
    events := [e1] + ([e2] + ([e3] + rest));
  }

  /** A login puts its own tokens on disk, and the server's chain starts anew with them. */
  lemma {:induction false} LoginIsRead(w: World, access: string, refresh: Token, expiresAt: int)
    requires Enabled(w, Login(access, refresh, expiresAt))
    ensures var w' := Step(w, Login(access, refresh, expiresAt));
            && ReadCredentials(w'.files).Some? && ReadCredentials(w'.files).value.access == access
            && ReadCredentials(w'.files).value.refresh == refresh == w'.server.newest
            && ReadCredentials(w'.files).value.expiresAt == expiresAt && !w'.server.revoked
            && w'.calls == w.calls && w'.lock == w.lock
  {
  }

  /** The proactive check starts such a call exactly when the token on disk is unmarked and has less
      than two hours left. */
  lemma {:induction false} TickStartsCallIff(w: World, c: CallId, now: int)
    requires c !in w.calls
    ensures var w' := Step(w, Tick(c, now, true));
            && (c in w'.calls <==>
                  ReadCredentials(w.files).Some? && AliveOnDisk(w.files)
                  && now >= ReadCredentials(w.files).value.expiresAt - 7_200_000)
            && (c in w'.calls ==> w'.calls[c] == WaitingForLock(7_200_000))
            && w'.files.credentials == w.files.credentials && w'.lock == w.lock && w'.server == w.server
  {
  }

  // ---- The newest token is on disk ----

  /** A grant has arrived and is not saved yet. */
  predicate GrantUnderWay(w: World) {
    && w.lock.Some? && w.lock.value in w.calls
    && w.calls[w.lock.value].Answered? && w.calls[w.lock.value].reply.Grant?
  }

  /** The token that will be on disk once the grant under way, if any, is saved. */
  ghost function Upcoming(w: World): Token
    requires Inv(w) && ReadCredentials(w.files).Some?
  {
    if GrantUnderWay(w) && w.calls[w.lock.value].reply.refresh.Some? then w.calls[w.lock.value].reply.refresh.value
    else ReadCredentials(w.files).value.refresh
  }

  ghost predicate InSync(w: World)
    requires Inv(w)
  {
    && (ReadCredentials(w.files).Some? ==> Upcoming(w) == w.server.newest)
    && (GrantUnderWay(w) ==> ReadCredentials(w.files) == Some(w.calls[w.lock.value].credentials))
  }

  /** A rotation must not be lost: neither its reply on the way, nor the write that saves it; nor
      may a login be overwritten by a grant that is under way. */
  predicate Benign(w: World, e: Event)
    requires Enabled(w, e)
  {
    match e
    case ReplyLost(_, rotated, _) => rotated.None?
    case Process(c, _, writeOk) => w.calls[c].reply.Grant? && w.calls[c].reply.refresh.Some? ==> writeOk
    case Login(_, _, _) => !GrantUnderWay(w)
    case _ => true
  }

  lemma {:induction false} OutsideKeepsSync(w: World, e: Event)
    requires Inv(w) && InSync(w) && Enabled(w, e) && (e.Begin? || e.Tick?)
    ensures Inv(Step(w, e)) && InSync(Step(w, e))
  {
    StepKeepsInv(w, e);
    match e
    case Begin(c, minimumValidity, now, dirOk) => OutsideStep(w.files, minimumValidity, now, dirOk);
    case Tick(c, now, dirOk) => OutsideStep(w.files, 0, now, dirOk);
  }

  /** The newest token stays the one on disk exactly as long as no rotation is lost. */
  lemma {:induction false} SyncIsLostExactlyWithARotation(w: World, e: Event)
    requires Inv(w) && InSync(w) && Enabled(w, e)
    ensures Inv(Step(w, e))
    ensures InSync(Step(w, e)) <==> Benign(w, e)
  {
    StepKeepsInv(w, e);
    if e.Begin? || e.Tick? {
      OutsideKeepsSync(w, e);
    }
  }

  ghost predicate AllBenign(w: World, events: seq<Event>)
    requires CanRun(w, events)
    decreases |events|
  {
    events == [] || (Benign(w, events[0]) && AllBenign(Step(w, events[0]), events[1..]))
  }

  /** For every interleaving in which no rotation is lost, whenever the lock is free the refresh
      token on disk is the newest the server has issued; and a request carries no other, unless a
      login replaced the one it carries while it was under way. */
  lemma {:induction false} NewestTokenOnDisk(w: World, events: seq<Event>)
    requires Inv(w) && InSync(w) && CanRun(w, events) && AllBenign(w, events)
    ensures var w' := Run(w, events);
            && Inv(w')
            && (w'.lock.None? && ReadCredentials(w'.files).Some? ==>
                  ReadCredentials(w'.files).value.refresh == w'.server.newest)
            && (forall c :: c in w'.calls && w'.calls[c].Posting? && !Superseded(w', c) ==>
                  w'.calls[c].credentials.refresh == w'.server.newest)
    decreases |events|
  {
    if events != [] {
      SyncIsLostExactlyWithARotation(w, events[0]);
      NewestTokenOnDisk(Step(w, events[0]), events[1..]);
    }
  }

  /** The request under way carries other credentials than those on disk. */
  predicate Superseded(w: World, c: CallId) {
    c in w.calls && UnderWay(w.calls[c]) && ReadCredentials(w.files) != Some(w.calls[c].credentials)
  }

  ghost predicate NoneSuperseded(w: World) {
    forall c :: !Superseded(w, c)
  }

  predicate RequestUnderWay(w: World) {
    w.lock.Some? && w.lock.value in w.calls && UnderWay(w.calls[w.lock.value])
  }

  lemma {:induction false} StaysCurrent(w: World, e: Event, c: CallId)
    requires Inv(w) && !Superseded(w, c) && Enabled(w, e)
    requires !(e.Login? && RequestUnderWay(w))
    ensures !Superseded(Step(w, e), c)
  {
    match e
    case Begin(_, minimumValidity, now, dirOk) => OutsideStep(w.files, minimumValidity, now, dirOk);
    case Tick(_, now, dirOk) => OutsideStep(w.files, 0, now, dirOk);
    case _ =>
  }

  /** A request is superseded exactly by a login while it is under way. */
  lemma {:induction false} OnlyLoginSupersedes(w: World, e: Event)
    requires Inv(w) && NoneSuperseded(w) && Enabled(w, e)
    ensures NoneSuperseded(Step(w, e)) <==> !(e.Login? && RequestUnderWay(w))
  {
    if e.Login? && RequestUnderWay(w) {
      assert RequestOk(w.files, w.calls[w.lock.value]);
      assert Superseded(Step(w, e), w.lock.value);
    } else {
      forall c ensures !Superseded(Step(w, e), c) {
        StaysCurrent(w, e, c);
      }
    }
  }

  ghost predicate AllUndisturbed(w: World, events: seq<Event>)
    requires CanRun(w, events)
    decreases |events|
  {
    events == [] ||
    (!(events[0].Login? && RequestUnderWay(w)) && AllUndisturbed(Step(w, events[0]), events[1..]))
  }

  lemma {:induction false} UndisturbedRunsSupersedeNone(w: World, events: seq<Event>)
    requires Inv(w) && NoneSuperseded(w) && CanRun(w, events) && AllUndisturbed(w, events)
    ensures NoneSuperseded(Run(w, events))
    decreases |events|
  {
    if events != [] {
      StepKeepsInv(w, events[0]);
      OnlyLoginSupersedes(w, events[0]);
      UndisturbedRunsSupersedeNone(Step(w, events[0]), events[1..]);
    }
  }

  /** So if moreover nobody logs in while a request is under way, no request ever carries a
      rotated-out token. */
  lemma {:induction false} NewestTokenPosted(w: World, events: seq<Event>, c: CallId)
    requires Inv(w) && InSync(w) && NoneSuperseded(w) && CanRun(w, events)
    requires AllBenign(w, events) && AllUndisturbed(w, events)
    ensures var w' := Run(w, events);
            c in w'.calls && w'.calls[c].Posting? ==> w'.calls[c].credentials.refresh == w'.server.newest
  {
    NewestTokenOnDisk(w, events);
    UndisturbedRunsSupersedeNone(w, events);
    assert !Superseded(Run(w, events), c);
  }

  /** A rejection of the credentials on disk that is on its way comes from a revoked chain. */
  ghost predicate RejectionsAreTrue(w: World) {
    forall c :: c in w.calls && w.calls[c].Answered? && !Superseded(w, c)
                && w.calls[c].reply.HttpError? && w.calls[c].reply.invalidGrant ==>
      w.server.revoked
  }

  lemma {:induction false} StepKeepsRejectionsTrue(w: World, e: Event)
    requires Inv(w) && InSync(w) && RejectionsAreTrue(w) && Enabled(w, e)
    ensures RejectionsAreTrue(Step(w, e))
  {
    match e
    case Begin(c, minimumValidity, now, dirOk) => OutsideStep(w.files, minimumValidity, now, dirOk);
    case Tick(c, now, dirOk) => OutsideStep(w.files, 0, now, dirOk);
    case _ =>
  }

  /** So the processes never declare their own chain dead by racing each other: it is marked dead
      only after the server has revoked it. */
  lemma {:induction false} OnlyRevokedChainsDie(w: World, events: seq<Event>, e: Event)
    requires Inv(w) && InSync(w) && RejectionsAreTrue(w)
    requires CanRun(w, events) && AllBenign(w, events)
    requires Enabled(Run(w, events), e)
    ensures var w1 := Run(w, events);
            ReadCredentials(w1.files).Some? ==>
              var t := ReadCredentials(w1.files).value.refresh;
              MarkedDead(Step(w1, e).files, t) && !MarkedDead(w1.files, t) ==> w1.server.revoked
    decreases |events|
  {
    if events == [] {
      if ReadCredentials(w.files).Some? {
        DyingStep(w, e);
      }
    } else {
      SyncIsLostExactlyWithARotation(w, events[0]);
      StepKeepsRejectionsTrue(w, events[0]);
      OnlyRevokedChainsDie(Step(w, events[0]), events[1..], e);
    }
  }

  lemma {:induction false} DyingStep(w: World, e: Event)
    requires Inv(w) && RejectionsAreTrue(w) && Enabled(w, e) && ReadCredentials(w.files).Some?
    ensures var t := ReadCredentials(w.files).value.refresh;
            MarkedDead(Step(w, e).files, t) && !MarkedDead(w.files, t) ==> w.server.revoked
  {
    match e
    case Begin(c, minimumValidity, now, dirOk) => OutsideStep(w.files, minimumValidity, now, dirOk);
    case Tick(c, now, dirOk) => OutsideStep(w.files, 0, now, dirOk);
    case _ =>
  }

  /** The token on disk is marked dead though the server has revoked nothing. */
  ghost predicate DeadWithoutCause(w: World) {
    && !w.server.revoked
    && ReadCredentials(w.files).Some? && MarkedDead(w.files, ReadCredentials(w.files).value.refresh)
  }

  /** The request of a call that carries an outdated token, or one of a revoked chain, is rejected,
      and its chain marked dead. */
  lemma {:induction false} RejectedRequestDies(w: World, c: CallId, now: int) returns (events: seq<Event>)
    requires Inv(w) && now > 0
    requires c in w.calls && w.calls[c].Posting? && !Superseded(w, c)
    requires w.calls[c].credentials.refresh != w.server.newest || w.server.revoked
    ensures CanRun(w, events) && Run(w, events).server == w.server
    ensures ReadCredentials(w.files).Some? && ReadCredentials(Run(w, events).files) == ReadCredentials(w.files)
    ensures MarkedDead(Run(w, events).files, ReadCredentials(w.files).value.refresh)
  {
    var e1, e2 := ServerReplies(c, HttpError(false, true)), Process(c, now, true);
    events := [e1] + [e2];
    var w1 := Step(w, e1);
    assert RequestOk(w.files, w.calls[c]);
    RunCons(w1, e2, []);
    assert [e2] + [] == [e2];
    RunCons(w, e1, [e2]);
  }

  lemma {:induction false} OutdatedRequestDies(w: World, c: CallId, now: int) returns (events: seq<Event>)
    requires Inv(w) && !w.server.revoked && now > 0
    requires c in w.calls && w.calls[c].Posting? && !Superseded(w, c)
    requires w.calls[c].credentials.refresh != w.server.newest
    ensures CanRun(w, events) && DeadWithoutCause(Run(w, events))
    ensures ReadCredentials(Run(w, events).files) == ReadCredentials(w.files)
  {
    events := RejectedRequestDies(w, c, now);
  }

  /** A chain that the server revokes is marked dead with the next call that gets the lock. */
  lemma {:induction false} RevokedChainDies(w: World, c: CallId, now: int) returns (events: seq<Event>)
    requires Inv(w) && now > 0 && c in w.calls && w.calls[c].Posting? && !Superseded(w, c)
    ensures CanRun(Step(w, Revoke), events)
    ensures var w' := Run(Step(w, Revoke), events);
            && w'.server.revoked && ReadCredentials(w'.files).Some?
            && MarkedDead(w'.files, ReadCredentials(w'.files).value.refresh)
  {
    assert Enabled(w, Revoke);
    StepKeepsInv(w, Revoke);
    var w1 := Step(w, Revoke);
    assert !Superseded(w1, c);
    events := RejectedRequestDies(w1, c, now);
  }

  /** So is that of a new call, once the lock is free. */
  lemma {:induction false} NewCallDies(w: World, c: CallId, now: int) returns (events: seq<Event>)
    requires Inv(w) && !w.server.revoked && now > 0
    requires w.lock.None? && c !in w.calls
    requires ReadCredentials(w.files).Some? && AliveOnDisk(w.files)
    requires ReadCredentials(w.files).value.refresh != w.server.newest
    ensures CanRun(w, events) && DeadWithoutCause(Run(w, events))
    ensures ReadCredentials(Run(w, events).files) == ReadCredentials(w.files)
  {
    var expiresAt := ReadCredentials(w.files).value.expiresAt;
    var e1 := Begin(c, if expiresAt > now then expiresAt - now else 0, now, true);
    var e2, e3 := Acquire(c), Resume(c, now);
    var w1 := Step(w, e1);
    var w2 := Step(w1, e2);
    var w3 := Step(w2, e3);
    StepKeepsInv(w, e1);
    StepKeepsInv(w1, e2);
    StepKeepsInv(w2, e3);
    var rest := OutdatedRequestDies(w3, c, now);
    RunCons(w2, e3, rest);
    RunCons(w1, e2, [e3] + rest);
    RunCons(w, e1, [e2] + ([e3] + rest));
    events := [e1] + ([e2] + ([e3] + rest));
  }

  lemma {:induction false} NextCallDies(w: World, c: CallId, next: CallId, now: int) returns (events: seq<Event>)
    requires Inv(w) && !w.server.revoked && now > 0
    requires c in w.calls && w.calls[c].Releasing? && next !in w.calls
    requires ReadCredentials(w.files).Some? && AliveOnDisk(w.files)
    requires ReadCredentials(w.files).value.refresh != w.server.newest
    ensures CanRun(w, events) && DeadWithoutCause(Run(w, events))
    ensures ReadCredentials(Run(w, events).files) == ReadCredentials(w.files)
  {
    var e := Release(c);
    StepKeepsInv(w, e);
    var rest := NewCallDies(Step(w, e), next, now);
    RunCons(w, e, rest);
    events := [e] + rest;
  }

  /** A reply that is lost is taken for a failure: it is retried, or thrown to the caller. */
  lemma {:induction false} LostReplyDies(w: World, c: CallId, next: CallId, now: int) returns (events: seq<Event>)
    requires Inv(w) && !w.server.revoked && now > 0
    requires c in w.calls && w.calls[c].Answered? && next !in w.calls
    requires w.calls[c].reply.HttpError? && !w.calls[c].reply.invalidGrant && !Superseded(w, c)
    requires w.calls[c].credentials.refresh != w.server.newest
    ensures CanRun(w, events) && DeadWithoutCause(Run(w, events))
    ensures ReadCredentials(Run(w, events).files) == ReadCredentials(w.files)
  {
    var e := Process(c, now, true);
    var w' := Step(w, e);
    StepKeepsInv(w, e);
    assert RequestOk(w.files, w.calls[c]);
    var rest;
    if w.calls[c].reply.retryable && w.calls[c].attempt < MAX_ATTEMPTS {
      rest := OutdatedRequestDies(w', c, now);
    } else {
      rest := NextCallDies(w', c, next, now);
    }
    RunCons(w, e, rest);
    events := [e] + rest;
  }

  /** So does a login that the grant under way overwrites. */
  lemma {:induction false} OverwrittenLoginDies(w: World, c: CallId, next: CallId, now: int)
      returns (events: seq<Event>)
    requires Inv(w) && !w.server.revoked && now > 0
    requires c in w.calls && w.calls[c].Answered? && w.calls[c].reply.Grant? && next !in w.calls
    requires w.calls[c].credentials.refresh != w.server.newest
    requires w.calls[c].reply.refresh != Some(w.server.newest)
    ensures CanRun(w, events) && DeadWithoutCause(Run(w, events))
  {
    var e := Process(c, now, true);
    var w' := Step(w, e);
    StepKeepsInv(w, e);
    assert RequestOk(w.files, w.calls[c]) && GrantOk(w.calls[c]);
    var rest := NextCallDies(w', c, next, now);
    RunCons(w, e, rest);
    events := [e] + rest;
  }

  /** With a lost rotation it is different: after any event that loses one, a reply on whichever
      attempt, a failed save or a login overwritten, the run can go on so that the token on disk is
      marked dead though nobody revoked it. */
  lemma {:induction false} LostRotationKillsTheChain(w: World, e: Event, next: CallId, now: int)
      returns (events: seq<Event>)
    requires Inv(w) && InSync(w) && !w.server.revoked && now > 0
    requires Enabled(w, e) && !Benign(w, e) && next !in w.calls
    ensures CanRun(Step(w, e), events) && DeadWithoutCause(Run(Step(w, e), events))
    ensures !e.Login? ==> ReadCredentials(Run(Step(w, e), events).files) == ReadCredentials(w.files)
  {
    var w' := Step(w, e);
    StepKeepsInv(w, e);
    if e.Login? {
      events := OverwrittenLoginDies(w', w.lock.value, next, now);
    } else {
      assert RequestOk(w.files, w.calls[e.c]);
      if e.ReplyLost? {
        events := LostReplyDies(w', e.c, next, now);
      } else {
        events := NextCallDies(w', e.c, next, now);
      }
    }
  }

  // ---- A dead token is left alone ----

  predicate OnDisk(w: World, t: Token) {
    ReadCredentials(w.files).Some? && ReadCredentials(w.files).value.refresh == t
  }

  lemma {:induction false} DeadStaysMarked(w: World, e: Event, t: Token)
    requires Inv(w) && Enabled(w, e)
    requires OnDisk(w, t) && MarkedDead(w.files, t)
    requires OnDisk(Step(w, e), t)
    ensures MarkedDead(Step(w, e).files, t)
  {
    match e
    case Begin(c, minimumValidity, now, dirOk) => OutsideStep(w.files, minimumValidity, now, dirOk);
    case Tick(c, now, dirOk) => OutsideStep(w.files, 0, now, dirOk);
    case _ =>
  }

  ghost predicate StaysOnDisk(w: World, events: seq<Event>, t: Token)
    requires CanRun(w, events)
    decreases |events|
  {
    OnDisk(w, t) && (events == [] || StaysOnDisk(Step(w, events[0]), events[1..], t))
  }

  ghost predicate NeverPosts(w: World, events: seq<Event>, t: Token)
    requires CanRun(w, events)
    decreases |events|
  {
    && (forall c :: c in w.calls && w.calls[c].Posting? ==> w.calls[c].credentials.refresh != t)
    && (events == [] || NeverPosts(Step(w, events[0]), events[1..], t))
  }

  /** Once a refresh token is marked dead, no process posts it while it stays on disk, whatever
      else happens, lost replies included. */
  lemma {:induction false} DeadTokenIsNeverPosted(w: World, events: seq<Event>, t: Token)
    requires Inv(w) && CanRun(w, events)
    requires MarkedDead(w.files, t) && StaysOnDisk(w, events, t)
    ensures NeverPosts(w, events, t) && MarkedDead(Run(w, events).files, t)
    decreases |events|
  {
    if events != [] {
      var w' := Step(w, events[0]);
      DeadStaysMarked(w, events[0], t);
      StepKeepsInv(w, events[0]);
      DeadTokenIsNeverPosted(w', events[1..], t);
    }
  }

  // ---- What callers get ----

  /** An access token handed out without a refresh is the one on disk, and is either valid for as
      long as was asked, or the last one of a dead chain that is still outside the expiry buffer. */
  ghost predicate OldTokenOk(f: Files, f': Files, access: string, minimumValidity: int, now: int) {
    && ReadCredentials(f).Some?
    && var c := ReadCredentials(f).value;
    && access == c.access
    && (now < c.expiresAt - minimumValidity
        || (MarkedDead(f', c.refresh) && now < c.expiresAt - TOKEN_EXPIRY_BUFFER_MS))
  }

  lemma {:induction false} CallersGetValidTokens(f: Files, minimumValidity: int, now: int, dirOk: bool)
    ensures var (f', call) := StartCall(f, minimumValidity, now, dirOk);
            call.Done? && call.result.AccessToken? ==>
              !call.result.refreshed && OldTokenOk(f, f', call.result.access, minimumValidity, now)
    ensures var (f', call) := ResumeWithLock(f, minimumValidity, now);
            call.Releasing? && call.result.AccessToken? ==>
              !call.result.refreshed && OldTokenOk(f, f', call.result.access, minimumValidity, now)
  {
  }

  lemma {:induction false} RejectedCallersGetValidTokens(w: World, c: CallId, now: int, writeOk: bool)
    requires Inv(w) && Enabled(w, Process(c, now, writeOk))
    ensures var call := Step(w, Process(c, now, writeOk)).calls[c];
            call.Releasing? && call.result.AccessToken? ==>
              if call.result.refreshed
              then w.calls[c].reply.Grant? && call.result.access == w.calls[c].reply.access
              else
                var asked := w.calls[c].credentials;
                && call.result.access == asked.access && now < asked.expiresAt - TOKEN_EXPIRY_BUFFER_MS
                && MarkedDead(Step(w, Process(c, now, writeOk)).files, asked.refresh)
  {
  }

  // ---- One refresh serves everybody ----

  /** A stretch of time from `start` to `end` in which nobody asks for more than `validity`, writes
      succeed, nobody logs in, and what is granted outlasts the stretch by `validity`.  Replies may be
      lost. */
  predicate Calm(e: Event, start: int, end: int, validity: int) {
    match e
    case Begin(_, minimumValidity, now, _) => minimumValidity <= validity && start <= now <= end
    case Tick(_, now, _) => PROACTIVE_REFRESH_MIN_VALIDITY_MS <= validity && start <= now <= end
    case Resume(_, now) => start <= now <= end
    case ServerReplies(_, reply) => Lasting(reply, start, end, validity)
    case Process(_, now, writeOk) => start <= now <= end && writeOk
    case Login(_, _, _) => false
    case _ => true
  }

  predicate Lasting(reply: Reply, start: int, end: int, validity: int) {
    reply.Grant? ==> start + reply.lifetimeSeconds * 1000 > end + validity
  }

  /** Nobody who waits has asked for more than `validity`. */
  ghost predicate ModestWaiters(w: World, validity: int) {
    forall c :: c in w.calls ==>
      (w.calls[c].WaitingForLock? || w.calls[c].HoldingLock? ==> w.calls[c].minimumValidity <= validity)
  }

  predicate LongLived(f: Files, end: int, validity: int) {
    ReadCredentials(f).Some? && ReadCredentials(f).value.expiresAt > end + validity
  }

  /** The grant has come: it is on disk, unmarked, and nobody is posting, or its receiver is about to
      save it. */
  ghost predicate Settled(w: World, start: int, end: int, validity: int)
    requires Inv(w)
  {
    if w.lock.Some? && w.calls[w.lock.value].Answered? then
      w.calls[w.lock.value].reply.Grant? && Lasting(w.calls[w.lock.value].reply, start, end, validity)
    else
      LongLived(w.files, end, validity) && AliveOnDisk(w.files) && (w.lock.Some? ==> !w.calls[w.lock.value].Posting?)
  }

  lemma {:induction false} CalmKeepsModest(w: World, e: Event, start: int, end: int, validity: int)
    requires Inv(w) && Enabled(w, e) && ModestWaiters(w, validity) && Calm(e, start, end, validity)
    ensures ModestWaiters(Step(w, e), validity)
  {
  }

  lemma {:induction false} SettledStays(w: World, e: Event, start: int, end: int, validity: int)
    requires Inv(w) && Enabled(w, e) && 0 < start <= end
    requires ModestWaiters(w, validity) && Calm(e, start, end, validity)
    requires Settled(w, start, end, validity)
    ensures Inv(Step(w, e)) && Settled(Step(w, e), start, end, validity)
    ensures !e.ServerReplies?
  {
    StepKeepsInv(w, e);
    match e
    case Begin(c, minimumValidity, now, dirOk) => OutsideStep(w.files, minimumValidity, now, dirOk);
    case Tick(c, now, dirOk) => OutsideStep(w.files, 0, now, dirOk);
    case _ =>
  }

  lemma {:induction false} GrantSettles(w: World, e: Event, start: int, end: int, validity: int)
    requires Inv(w) && Enabled(w, e)
    requires e.ServerReplies? && e.reply.Grant? && Calm(e, start, end, validity)
    ensures Inv(Step(w, e)) && Settled(Step(w, e), start, end, validity)
  {
    StepKeepsInv(w, e);
  }

  /** Nobody posts, and whoever gets the lock is handed the token on disk at once. */
  ghost predicate Served(w: World, events: seq<Event>)
    requires CanRun(w, events)
    decreases |events|
  {
    && (forall c :: c in w.calls ==> !w.calls[c].Posting?)
    && (events == [] ||
        var e, w' := events[0], Step(w, events[0]);
        && (e.Resume? ==>
              && ReadCredentials(w.files).Some?
              && w'.calls[e.c] == Releasing(AccessToken(ReadCredentials(w.files).value.access, false)))
        && Served(w', events[1..]))
  }

  lemma {:induction false} SettledServes(w: World, e: Event, start: int, end: int, validity: int)
    requires Inv(w) && Enabled(w, e) && ModestWaiters(w, validity) && Calm(e, start, end, validity)
    requires Settled(w, start, end, validity)
    ensures e.Resume? ==>
              && ReadCredentials(w.files).Some?
              && Step(w, e).calls[e.c] == Releasing(AccessToken(ReadCredentials(w.files).value.access, false))
  {
  }

  ghost predicate AllCalm(events: seq<Event>, start: int, end: int, validity: int) {
    forall k :: 0 <= k < |events| ==> Calm(events[k], start, end, validity)
  }

  function Replies(events: seq<Event>): nat {
    if events == [] then 0 else (if events[0].ServerReplies? then 1 else 0) + Replies(events[1..])
  }

  function Grants(events: seq<Event>): nat {
    if events == [] then 0
    else (if events[0].ServerReplies? && events[0].reply.Grant? then 1 else 0) + Grants(events[1..])
  }

  /** After the grant, nobody reaches the server any more: all who waited are handed the token on
      disk, and no further reply arrives. */
  lemma {:induction false} NoRequestAfterGrant(w: World, events: seq<Event>, start: int, end: int, validity: int)
    requires Inv(w) && CanRun(w, events) && 0 < start <= end
    requires ModestWaiters(w, validity) && AllCalm(events, start, end, validity)
    requires Settled(w, start, end, validity)
    ensures Served(w, events)
    ensures Replies(events) == 0 && Grants(events) == 0
    decreases |events|
  {
    if events != [] {
      var w' := Step(w, events[0]);
      assert Calm(events[0], start, end, validity);
      assert forall k :: 0 <= k < |events[1..]| ==> events[1..][k] == events[k + 1];
      SettledStays(w, events[0], start, end, validity);
      SettledServes(w, events[0], start, end, validity);
      CalmKeepsModest(w, events[0], start, end, validity);
      NoRequestAfterGrant(w', events[1..], start, end, validity);
    }
  }

  /** However many calls find the token due at once, the server grants one refresh. */
  lemma {:induction false} OneRefreshServesAll(w: World, events: seq<Event>, start: int, end: int, validity: int)
    requires Inv(w) && CanRun(w, events) && 0 < start <= end
    requires ModestWaiters(w, validity) && AllCalm(events, start, end, validity)
    ensures Grants(events) <= 1
    decreases |events|
  {
    if events != [] {
      var e := events[0];
      var w' := Step(w, e);
      assert Calm(e, start, end, validity);
      assert forall k :: 0 <= k < |events[1..]| ==> events[1..][k] == events[k + 1];
      StepKeepsInv(w, e);
      CalmKeepsModest(w, e, start, end, validity);
      if e.ServerReplies? && e.reply.Grant? {
        GrantSettles(w, e, start, end, validity);
        NoRequestAfterGrant(w', events[1..], start, end, validity);
      } else {
        OneRefreshServesAll(w', events[1..], start, end, validity);
      }
    }
  }
}
