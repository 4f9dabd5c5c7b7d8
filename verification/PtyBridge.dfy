/** The bridge between a WebSocket and a PTY in a sandbox, as an event loop sees it: the parts of
    `bridgePty` between its awaits and the close handler interleave with the outside world.
 */
module PtyBridge {
  import opened Text

  type Ws = nat
  type Pid = nat

  /** How far the `bridgePty` call of a socket has come.  `made` is the PTY the sandbox has
      created for a call that has not been resumed yet. */
  datatype Call =
    | NotCalled
    | Connecting
    | Creating(made: Option<Pid>)
    | KillingOrphan(pid: Pid)
    | Returned

  datatype Socket = Socket(open: bool, closeHandled: bool, call: Call)

  /** Who answers for a PTY that lives. */
  datatype Owner = OfCall(ws: Ws) | OfEntry(ws: Ws) | OfKill | Leaked

  /** `kills` are the close handler's kills still under way, `live` the PTYs that run, and `used`
      the process ids handed out so far. */
  datatype World = World(sockets: map<Ws, Socket>, bridges: map<Ws, Pid>, kills: set<Pid>, live: map<Pid, Owner>,
                         used: set<Pid>)

  const NewWorld := World(map[], map[], {}, map[], {})

  datatype Event =
    | Opened(ws: Ws)
    | Connected(ws: Ws)
    | ConnectFailed(ws: Ws, errorThrows: bool)
    | PtyMade(ws: Ws, pid: Pid)
    | CreateResumed(ws: Ws, greetingThrows: bool, errorThrows: bool)
    | CreateFailed(ws: Ws, errorThrows: bool)
    | OrphanKilled(ws: Ws, ok: bool)
    | SocketClosed(ws: Ws)
    | CloseHandled(ws: Ws)
    | KillEnded(pid: Pid, ok: bool)
    | ProcessExited(pid: Pid)

  /** When an event can happen. */
  predicate Enabled(w: World, e: Event) {
    match e
    case Opened(ws) => ws !in w.sockets
    case Connected(ws) => ws in w.sockets && w.sockets[ws].call == Connecting
    case ConnectFailed(ws, _) => ws in w.sockets && w.sockets[ws].call == Connecting
    case PtyMade(ws, pid) => ws in w.sockets && w.sockets[ws].call == Creating(None) && pid !in w.used
    case CreateResumed(ws, _, _) => ws in w.sockets && w.sockets[ws].call.Creating? && w.sockets[ws].call.made.Some?
    case CreateFailed(ws, _) => ws in w.sockets && w.sockets[ws].call.Creating?
    case OrphanKilled(ws, _) => ws in w.sockets && w.sockets[ws].call.KillingOrphan?
    case SocketClosed(ws) => ws in w.sockets && w.sockets[ws].open
    case CloseHandled(ws) => ws in w.sockets && !w.sockets[ws].open && !w.sockets[ws].closeHandled
    case KillEnded(pid, _) => pid in w.kills
    case ProcessExited(pid) => pid in w.live
  }

  function WithCall(w: World, ws: Ws, call: Call): World
    requires ws in w.sockets
  {
    w.(sockets := w.sockets[ws := w.sockets[ws].(call := call)])
  }

  /** The end of a call that failed: the error is sent and the socket closed, unless sending throws,
      which skips the closing. */
  function ReportAndReturn(w: World, ws: Ws, errorThrows: bool): World
    requires ws in w.sockets
  {
    w.(sockets := w.sockets[ws := w.sockets[ws].(open := w.sockets[ws].open && errorThrows, call := Returned)])
  }

  function Reassign(live: map<Pid, Owner>, pid: Pid, owner: Owner): map<Pid, Owner> {
    if pid in live then live[pid := owner] else live
  }

  function KillResult(live: map<Pid, Owner>, pid: Pid, ok: bool): map<Pid, Owner> {
    if ok then live - {pid} else Reassign(live, pid, Leaked)
  }

  /** `pty.create` has returned: the guard against a socket that closed meanwhile, the greeting,
      and the entry, without an await between them. */
  function ResumeAfterCreate(w: World, ws: Ws, pid: Pid, greetingThrows: bool, errorThrows: bool): World
    requires ws in w.sockets
  {
    if !w.sockets[ws].open then WithCall(w, ws, KillingOrphan(pid))
    else if greetingThrows then ReportAndReturn(w, ws, errorThrows).(live := Reassign(w.live, pid, Leaked))
    else WithCall(w, ws, Returned).(bridges := w.bridges[ws := pid], live := Reassign(w.live, pid, OfEntry(ws)))
  }

  function HandleClose(w: World, ws: Ws): World
    requires ws in w.sockets
  {
    var w' := w.(sockets := w.sockets[ws := w.sockets[ws].(closeHandled := true)]);
    if ws !in w.bridges then w'
    else w'.(bridges := w.bridges - {ws}, kills := w.kills + {w.bridges[ws]},
             live := Reassign(w.live, w.bridges[ws], OfKill))
  }

  function Step(w: World, e: Event): World
    requires Enabled(w, e)
  {
    match e
    case Opened(ws) => w.(sockets := w.sockets[ws := Socket(true, false, Connecting)])
    case Connected(ws) => WithCall(w, ws, Creating(None))
    case ConnectFailed(ws, errorThrows) => ReportAndReturn(w, ws, errorThrows)
    case PtyMade(ws, pid) =>
      WithCall(w, ws, Creating(Some(pid))).(live := w.live[pid := OfCall(ws)], used := w.used + {pid})
    case CreateResumed(ws, greetingThrows, errorThrows) =>
      ResumeAfterCreate(w, ws, w.sockets[ws].call.made.value, greetingThrows, errorThrows)
    case CreateFailed(ws, errorThrows) =>
      var made := w.sockets[ws].call.made;
      ReportAndReturn(w, ws, errorThrows).(live := if made.Some? then Reassign(w.live, made.value, Leaked) else w.live)
    case OrphanKilled(ws, ok) =>
      WithCall(w, ws, Returned).(live := KillResult(w.live, w.sockets[ws].call.pid, ok))
    case SocketClosed(ws) => w.(sockets := w.sockets[ws := w.sockets[ws].(open := false)])
    case CloseHandled(ws) => HandleClose(w, ws)
    case KillEnded(pid, ok) => w.(kills := w.kills - {pid}, live := KillResult(w.live, pid, ok))
    case ProcessExited(pid) => w.(live := w.live - {pid})
  }

  // ---- Ownership ----

  /** The PTY a call still running has created. */
  function Held(call: Call): Option<Pid> {
    match call
    case Creating(made) => made
    case KillingOrphan(pid) => Some(pid)
    case _ => None
  }

  /** The owner recorded for a PTY is the one that holds it. */
  predicate Holds(w: World, pid: Pid, owner: Owner) {
    match owner
    case OfCall(ws) => ws in w.sockets && Held(w.sockets[ws].call) == Some(pid)
    case OfEntry(ws) => ws in w.bridges && w.bridges[ws] == pid
    case OfKill => pid in w.kills
    case Leaked => true
  }

  ghost predicate Inv(w: World) {
    // Every living PTY has its owner, ...
    && (forall pid :: pid in w.live ==> pid in w.used && Holds(w, pid, w.live[pid]))
    // ... whoever holds a living PTY is its owner, ...
    && (forall ws :: ws in w.sockets ==>
          var held := Held(w.sockets[ws].call);
          held.Some? ==> held.value in w.used && (held.value in w.live ==> w.live[held.value] == OfCall(ws)))
    && (forall ws :: ws in w.bridges ==>
          w.bridges[ws] in w.used && (w.bridges[ws] in w.live ==> w.live[w.bridges[ws]] == OfEntry(ws)))
    && (forall pid :: pid in w.kills ==> pid in w.used && (pid in w.live ==> w.live[pid] == OfKill))
    // ... and an entry belongs to a socket whose call has returned and whose close is not handled.
    && (forall ws :: ws in w.bridges ==>
          ws in w.sockets && w.sockets[ws].call == Returned && !w.sockets[ws].closeHandled)
    && (forall ws :: ws in w.sockets && w.sockets[ws].closeHandled ==> !w.sockets[ws].open)
  }

  lemma {:induction false} ResumedLateKeepsInv(w: World, ws: Ws, pid: Pid, greetingThrows: bool,
        errorThrows: bool)
    requires Inv(w) && ws in w.sockets && w.sockets[ws].call == Creating(Some(pid))
    requires !w.sockets[ws].open || greetingThrows
    ensures Inv(ResumeAfterCreate(w, ws, pid, greetingThrows, errorThrows))
  {
  }

  lemma {:induction false} ResumedKeepsInv(w: World, ws: Ws, pid: Pid, errorThrows: bool)
    requires Inv(w) && ws in w.sockets && w.sockets[ws].call == Creating(Some(pid))
    requires w.sockets[ws].open
    ensures Inv(ResumeAfterCreate(w, ws, pid, false, errorThrows))
  {
  }

  lemma {:induction false} CloseKeepsInv(w: World, ws: Ws)
    requires Inv(w) && Enabled(w, CloseHandled(ws))
    ensures Inv(HandleClose(w, ws))
  {
  }

  lemma {:induction false} CreateFailedKeepsInv(w: World, e: Event)
    requires Inv(w) && Enabled(w, e) && e.CreateFailed?
    ensures Inv(Step(w, e))
  {
  }

  lemma {:induction false} OrphanKillKeepsInv(w: World, ws: Ws, ok: bool)
    requires Inv(w) && Enabled(w, OrphanKilled(ws, ok))
    ensures Inv(Step(w, OrphanKilled(ws, ok)))
  {
  }

  lemma {:induction false} KillKeepsInv(w: World, pid: Pid, ok: bool)
    requires Inv(w) && Enabled(w, KillEnded(pid, ok))
    ensures Inv(Step(w, KillEnded(pid, ok)))
  {
  }

  lemma {:induction false} MadeKeepsInv(w: World, e: Event)
    requires Inv(w) && Enabled(w, e) && e.PtyMade?
    ensures Inv(Step(w, e))
  {
  }

  lemma {:induction false} SocketKeepsInv(w: World, e: Event)
    requires Inv(w) && Enabled(w, e) && (e.Opened? || e.Connected? || e.ConnectFailed? || e.SocketClosed?)
    ensures Inv(Step(w, e))
  {
  }

  lemma {:induction false} StepKeepsInv(w: World, e: Event)
    requires Inv(w) && Enabled(w, e)
    ensures Inv(Step(w, e))
  {
    match e
    case CreateResumed(ws, greetingThrows, errorThrows) =>
      var pid := w.sockets[ws].call.made.value;
      if !w.sockets[ws].open || greetingThrows {
        ResumedLateKeepsInv(w, ws, pid, greetingThrows, errorThrows);
      } else {
        ResumedKeepsInv(w, ws, pid, errorThrows);
      }
    case CloseHandled(ws) => CloseKeepsInv(w, ws);
    case CreateFailed(_, _) => CreateFailedKeepsInv(w, e);
    case OrphanKilled(ws, ok) => OrphanKillKeepsInv(w, ws, ok);
    case KillEnded(pid, ok) => KillKeepsInv(w, pid, ok);
    case PtyMade(_, _) => MadeKeepsInv(w, e);
    case ProcessExited(_) =>
    case _ => SocketKeepsInv(w, e);
  }

  // ---- Leaks ----

  predicate IsLeaked(w: World, pid: Pid) {
    pid in w.live && w.live[pid] == Leaked
  }

  /** The event drops a living PTY: a greeting throws, a creation fails after all, or a kill does. */
  predicate Drops(w: World, e: Event, pid: Pid)
    requires Enabled(w, e)
  {
    pid in w.live &&
    match e
    case CreateResumed(ws, greetingThrows, _) =>
      greetingThrows && w.sockets[ws].open && w.sockets[ws].call.made == Some(pid)
    case CreateFailed(ws, _) => w.sockets[ws].call.made == Some(pid)
    case OrphanKilled(ws, ok) => !ok && w.sockets[ws].call.pid == pid
    case KillEnded(killed, ok) => !ok && killed == pid
    case _ => false
  }

  /** A PTY becomes leaked exactly when such an event drops it. */
  lemma {:induction false} LeaksExactlyWhenDropped(w: World, e: Event, pid: Pid)
    requires Inv(w) && Enabled(w, e) && !IsLeaked(w, pid)
    ensures IsLeaked(Step(w, e), pid) <==> Drops(w, e, pid)
  {
  }

  /** And then nothing in the bridge ends it any more. */
  lemma {:induction false} LeakedStaysLeaked(w: World, e: Event, pid: Pid)
    requires Inv(w) && Enabled(w, e) && IsLeaked(w, pid) && e != ProcessExited(pid)
    ensures IsLeaked(Step(w, e), pid)
  {
  }

  /** Only the process itself can still end it. */
  lemma {:induction false} LeakedMayExit(w: World, pid: Pid)
    requires IsLeaked(w, pid)
    ensures Enabled(w, ProcessExited(pid)) && pid !in Step(w, ProcessExited(pid)).live
  {
  }

  // ---- Runs ----

  ghost predicate CanRun(w: World, events: seq<Event>)
    decreases |events|
  {
    events == [] || (Enabled(w, events[0]) && CanRun(Step(w, events[0]), events[1..]))
  }

  ghost function Run(w: World, events: seq<Event>): World
    requires CanRun(w, events)
    decreases |events|
  {
    if events == [] then w else Run(Step(w, events[0]), events[1..])
  }

  /** Sends do not throw, kills succeed, and a failed creation has created nothing. */
  ghost predicate Smooth(w: World, events: seq<Event>)
    requires CanRun(w, events)
    decreases |events|
  {
    events == [] ||
    ((forall pid :: !Drops(w, events[0], pid)) && Smooth(Step(w, events[0]), events[1..]))
  }

  lemma {:induction false} RunsKeepInv(w: World, events: seq<Event>)
    requires Inv(w) && CanRun(w, events)
    ensures Inv(Run(w, events))
    decreases |events|
  {
    if events != [] {
      StepKeepsInv(w, events[0]);
      RunsKeepInv(Step(w, events[0]), events[1..]);
    }
  }

  lemma {:induction false} SmoothRunsLeakNothing(w: World, events: seq<Event>)
    requires Inv(w) && CanRun(w, events) && Smooth(w, events)
    requires forall pid :: !IsLeaked(w, pid)
    ensures forall pid :: !IsLeaked(Run(w, events), pid)
    decreases |events|
  {
    if events != [] {
      var w' := Step(w, events[0]);
      forall pid ensures !IsLeaked(w', pid) {
        assert !Drops(w, events[0], pid);
        LeaksExactlyWhenDropped(w, events[0], pid);
      }
      StepKeepsInv(w, events[0]);
      SmoothRunsLeakNothing(w', events[1..]);
    }
  }

  lemma {:induction false} LeaksLast(w: World, events: seq<Event>, pid: Pid)
    requires Inv(w) && CanRun(w, events) && IsLeaked(w, pid)
    requires ProcessExited(pid) !in events
    ensures IsLeaked(Run(w, events), pid)
    decreases |events|
  {
    if events != [] {
      LeakedStaysLeaked(w, events[0], pid);
      StepKeepsInv(w, events[0]);
      LeaksLast(Step(w, events[0]), events[1..], pid);
    }
  }

  /** In every interleaving, each living PTY belongs to a call still running, to an entry whose
      close has not been handled, or to a kill under way. */
  lemma {:induction false} EveryPtyIsOwned(events: seq<Event>, pid: Pid)
    requires CanRun(NewWorld, events) && Smooth(NewWorld, events)
    requires pid in Run(NewWorld, events).live
    ensures var w := Run(NewWorld, events);
            || (exists ws :: ws in w.sockets && Held(w.sockets[ws].call) == Some(pid))
            || (exists ws :: ws in w.bridges && w.bridges[ws] == pid && ws in w.sockets && !w.sockets[ws].closeHandled)
            || pid in w.kills
  {
    RunsKeepInv(NewWorld, events);
    SmoothRunsLeakNothing(NewWorld, events);
    var w := Run(NewWorld, events);
    assert !IsLeaked(w, pid);
    assert Holds(w, pid, w.live[pid]);
  }

  /** Nothing is under way: calls have returned, kills have ended, closes are handled. */
  ghost predicate Quiet(w: World) {
    && w.kills == {}
    && forall ws :: ws in w.sockets ==>
         w.sockets[ws].call == Returned && (w.sockets[ws].open || w.sockets[ws].closeHandled)
  }

  /** So no PTY outlives its socket: once things are quiet, every PTY that lives is bridged to a
      socket that is open. */
  lemma {:induction false} NoPtyOutlivesItsSocket(events: seq<Event>, pid: Pid)
    requires CanRun(NewWorld, events) && Smooth(NewWorld, events)
    requires var w := Run(NewWorld, events); Quiet(w) && pid in w.live
    ensures var w := Run(NewWorld, events);
            exists ws :: ws in w.bridges && w.bridges[ws] == pid && ws in w.sockets && w.sockets[ws].open
  {
    EveryPtyIsOwned(events, pid);
  }

  lemma {:induction false} RunCons(w: World, e: Event, rest: seq<Event>)
    requires Enabled(w, e) && CanRun(Step(w, e), rest)
    ensures CanRun(w, [e] + rest) && Run(w, [e] + rest) == Run(Step(w, e), rest)
  {
    assert ([e] + rest)[1..] == rest;
  }

  /** A socket that stays open is bridged to the PTY made for it. */
  lemma {:induction false} SocketGetsPty(w: World, ws: Ws, pid: Pid) returns (events: seq<Event>)
    requires ws !in w.sockets && pid !in w.used
    ensures CanRun(w, events)
    ensures var w' := Run(w, events);
            && ws in w'.sockets && w'.sockets[ws] == Socket(true, false, Returned)
            && w'.bridges == w.bridges[ws := pid] && pid in w'.live && w'.kills == w.kills
  {
    var e1, e2, e3, e4 := Opened(ws), Connected(ws), PtyMade(ws, pid), CreateResumed(ws, false, false);
    var w1 := Step(w, e1);
    var w2 := Step(w1, e2);
    var w3 := Step(w2, e3);
    RunCons(w3, e4, []);
    RunCons(w2, e3, [e4] + []);
    RunCons(w1, e2, [e3] + ([e4] + []));
    RunCons(w, e1, [e2] + ([e3] + ([e4] + [])));
    events := [e1] + ([e2] + ([e3] + ([e4] + [])));
  }

  /** One that closes while its PTY is being made gets none: the PTY is killed, and the call ends. */
  lemma {:induction false} LateSocketGetsNone(w: World, ws: Ws, pid: Pid) returns (events: seq<Event>)
    requires ws in w.sockets && w.sockets[ws].open && w.sockets[ws].call == Creating(None) && pid !in w.used
    ensures CanRun(w, events)
    ensures var w' := Run(w, events);
            && ws in w'.sockets && !w'.sockets[ws].open && w'.sockets[ws].call == Returned
            && pid in w'.used && pid !in w'.live && w'.bridges == w.bridges
  {
    var e1, e2 := PtyMade(ws, pid), SocketClosed(ws);
    var e3, e4 := CreateResumed(ws, false, false), OrphanKilled(ws, true);
    var w1 := Step(w, e1);
    var w2 := Step(w1, e2);
    var w3 := Step(w2, e3);
    RunCons(w3, e4, []);
    RunCons(w2, e3, [e4] + []);
    RunCons(w1, e2, [e3] + ([e4] + []));
    RunCons(w, e1, [e2] + ([e3] + ([e4] + [])));
    events := [e1] + ([e2] + ([e3] + ([e4] + [])));
  }

  /** And when it closes, that PTY is killed and its entry gone. */
  lemma {:induction false} ClosedSocketLosesPty(w: World, ws: Ws) returns (events: seq<Event>)
    requires ws in w.sockets && w.sockets[ws].open && !w.sockets[ws].closeHandled && ws in w.bridges
    ensures CanRun(w, events)
    ensures var w' := Run(w, events);
            ws !in w'.bridges && w.bridges[ws] !in w'.live && w.bridges[ws] !in w'.kills
  {
    var e1, e2, e3 := SocketClosed(ws), CloseHandled(ws), KillEnded(w.bridges[ws], true);
    var w1 := Step(w, e1);
    var w2 := Step(w1, e2);
    RunCons(w2, e3, []);
    RunCons(w1, e2, [e3] + []);
    RunCons(w, e1, [e2] + ([e3] + []));
    events := [e1] + ([e2] + ([e3] + []));
  }

  // ---- The program ----

  class Bridges {
    var sockets: map<Ws, Socket>
    var activeBridges: map<Ws, Pid>
    var kills: set<Pid>
    var live: map<Pid, Owner>
    var used: set<Pid>

    ghost function View(): World
      reads this
    {
      World(sockets, activeBridges, kills, live, used)
    }

    constructor ()
      ensures View() == NewWorld
    {
      sockets, activeBridges, kills, live, used := map[], map[], {}, map[], {};
    }

    /** `bridgePty`, up to the wait for the sandbox. */
    method BridgePty(ws: Ws)
      requires Enabled(View(), Opened(ws))
      modifies this
      ensures View() == Step(old(View()), Opened(ws))
      ensures live == old(live) && activeBridges == old(activeBridges)
    {
      sockets := sockets[ws := Socket(true, false, Connecting)];
    }

    method ReportError(ws: Ws, errorThrows: bool)
      requires ws in sockets
      modifies this
      ensures View() == ReportAndReturn(old(View()), ws, errorThrows)
      ensures sockets[ws].call == Returned && (!errorThrows ==> !sockets[ws].open)
      ensures live == old(live) && activeBridges == old(activeBridges)
    {
      sockets := sockets[ws := sockets[ws].(call := Returned)];
      if !errorThrows {
        sockets := sockets[ws := sockets[ws].(open := false)];
      }
    }

    /** `bridgePty`, from the sandbox's answer to the wait for the PTY. */
    method AfterConnect(ws: Ws, ok: bool, errorThrows: bool)
      requires Enabled(View(), Connected(ws))
      modifies this
      ensures View() == Step(old(View()), if ok then Connected(ws) else ConnectFailed(ws, errorThrows))
      ensures sockets[ws].call == if ok then Creating(None) else Returned
      ensures live == old(live) && activeBridges == old(activeBridges)
    {
      if !ok {
        ReportError(ws, errorThrows);
        return;
      }
      sockets := sockets[ws := sockets[ws].(call := Creating(None))];
    }

    /** `bridgePty`, from the created PTY on. */
    method AfterCreate(ws: Ws, greetingThrows: bool, errorThrows: bool)
      requires Enabled(View(), CreateResumed(ws, greetingThrows, errorThrows))
      modifies this
      ensures View() == Step(old(View()), CreateResumed(ws, greetingThrows, errorThrows))
      ensures live.Keys == old(live).Keys && kills == old(kills)
      ensures var pid := old(sockets)[ws].call.made.value;
              if !old(sockets)[ws].open
              then sockets[ws].call == KillingOrphan(pid) && activeBridges == old(activeBridges)
              else sockets[ws].call == Returned
                   && activeBridges == if greetingThrows then old(activeBridges) else old(activeBridges)[ws := pid]
    {
      var pid := sockets[ws].call.made.value;
      if !sockets[ws].open {
        sockets := sockets[ws := sockets[ws].(call := KillingOrphan(pid))];
        return;
      }
      if greetingThrows {
        ReportError(ws, errorThrows);
        live := Reassign(live, pid, Leaked);
        return;
      }
      sockets := sockets[ws := sockets[ws].(call := Returned)];
      activeBridges := activeBridges[ws := pid];
      live := Reassign(live, pid, OfEntry(ws));
    }

    /** `bridgePty`, when the creation is reported as failed, though it may have made a PTY. */
    method AfterCreateFailed(ws: Ws, errorThrows: bool)
      requires Enabled(View(), CreateFailed(ws, errorThrows))
      modifies this
      ensures View() == Step(old(View()), CreateFailed(ws, errorThrows))
      ensures live.Keys == old(live).Keys && activeBridges == old(activeBridges)
      ensures sockets[ws].call == Returned
    {
      var made := sockets[ws].call.made;
      ReportError(ws, errorThrows);
      if made.Some? {
        live := Reassign(live, made.value, Leaked);
      }
    }

    method OnClose(ws: Ws)
      requires Enabled(View(), CloseHandled(ws))
      modifies this
      ensures View() == Step(old(View()), CloseHandled(ws))
      ensures sockets == old(sockets)[ws := old(sockets)[ws].(closeHandled := true)]
      ensures ws !in activeBridges && live.Keys == old(live).Keys
      ensures ws in old(activeBridges) ==> old(activeBridges)[ws] in kills
      ensures forall other :: other in old(activeBridges) && other != ws ==>
                other in activeBridges && activeBridges[other] == old(activeBridges)[other]
    {
      sockets := sockets[ws := sockets[ws].(closeHandled := true)];
      if ws !in activeBridges {
        return;
      }
      var pid := activeBridges[ws];
      kills := kills + {pid};
      live := Reassign(live, pid, OfKill);
      activeBridges := activeBridges - {ws};
    }
  }
}
