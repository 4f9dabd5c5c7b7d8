/** Runs of the deployer: any number of servers and workers act on the task tables, and builds
    record releases that later builds may reuse.
 */
module DeployRuns {
  import opened Text
  import opened DeployTasks

  datatype Release = Release(build: TaskId, application: string, fingerprint: string, artifact: Artifact,
                             recorder: Token)

  /** The claim a token stands for: its row, when the lease was last committed, and the release the
      worker has recorded. */
  datatype Worker = Worker(id: TaskId, lastCommit: int, recorded: Option<Release>)

  datatype World = World(rows: Table, releases: seq<Release>, workers: map<Token, Worker>)

  const NewWorld := World(map[], [], map[])

  datatype Event =
    | DoEnqueue(id: TaskId, row: Row)
    | DoExpire(target: Target, now: int)
    | DoClaim(target: Target, server: Server, locked: set<TaskId>, id: TaskId, token: Token, now: int)
    | DoRenew(token: Token, now: int)
    | DoRecord(token: Token, fingerprint: string, artifact: Artifact)
    | DoSucceed(token: Token, now: int)
    | DoFail(id: TaskId, token: Token, message: string, now: int)

  ghost predicate IsFreshRow(row: Row) {
    row.status == Pending && row.attempts == 0 && row.token == None && row.artifact == None
  }

  /** A release can be recorded once for each build. */
  predicate HasRelease(releases: seq<Release>, build: TaskId) {
    exists k :: 0 <= k < |releases| && releases[k].build == build
  }

  /** Workers renew and finish their own claims; a build records its release before it reports
      success.  Failing a row takes any token: the reconciler reads it from the row. */
  ghost predicate Enabled(w: World, e: Event) {
    match e
    case DoEnqueue(id, row) => id !in w.rows && IsFreshRow(row)
    case DoExpire(_, _) => true
    case DoClaim(target, server, locked, id, token, _) =>
      token !in w.workers && IsNext(w.rows, target, server, locked, id) && !SlotTaken(w.rows, id)
    case DoRenew(token, _) => token in w.workers
    case DoRecord(token, _, _) =>
      && token in w.workers && w.workers[token].recorded.None?
      && w.workers[token].id in w.rows && w.rows[w.workers[token].id].target == Build
      && !HasRelease(w.releases, w.workers[token].id)
    case DoSucceed(token, _) =>
      && token in w.workers && w.workers[token].id in w.rows
      && (w.rows[w.workers[token].id].target == Build ==> w.workers[token].recorded.Some?)
    case DoFail(_, _, _, _) => true
  }

  function ArtifactOf(worker: Worker): Option<Artifact> {
    match worker.recorded case None => None case Some(release) => Some(release.artifact)
  }

  ghost function Step(w: World, e: Event): World
    requires Enabled(w, e)
  {
    match e
    case DoEnqueue(id, row) => w.(rows := w.rows[id := row])
    case DoExpire(target, now) => w.(rows := ExpireStale(w.rows, target, now))
    case DoClaim(_, _, _, id, token, now) =>
      w.(rows := w.rows[id := Claimed(w.rows[id], token, now)], workers := w.workers[token := Worker(id, now, None)])
    case DoRenew(token, now) =>
      var worker := w.workers[token];
      if HoldsLease(w.rows, worker.id, token)
      then w.(rows := Renew(w.rows, worker.id, token, now), workers := w.workers[token := worker.(lastCommit := now)])
      else w
    case DoRecord(token, fingerprint, artifact) =>
      var worker := w.workers[token];
      var release := Release(worker.id, w.rows[worker.id].owner, fingerprint, artifact, token);
      w.(releases := w.releases + [release], workers := w.workers[token := worker.(recorded := Some(release))])
    case DoSucceed(token, now) =>
      w.(rows := MarkSucceeded(w.rows, w.workers[token].id, token, ArtifactOf(w.workers[token]), now))
    case DoFail(id, token, message, now) => w.(rows := MarkFailed(w.rows, id, token, message, now))
  }

  // ---- The invariant ----

  /** A row carries a token exactly once it has been claimed, which happens once. */
  ghost predicate RowOk(w: World, id: TaskId)
    requires id in w.rows
  {
    var row := w.rows[id];
    && (row.token.Some? ==> row.attempts == 1 && row.token.value in w.workers && w.workers[row.token.value].id == id)
    && (row.token.None? ==> row.attempts == 0 && row.status != Running && row.status != Succeeded)
    && (row.status == Pending ==> row.token.None?)
    && (row.status == Running ==>
          row.leaseExpiresAt == Some(w.workers[row.token.value].lastCommit + LEASE_DURATION_SECONDS))
    && (row.status == Succeeded && row.target == Build ==>
          w.workers[row.token.value].recorded.Some? && row.artifact == ArtifactOf(w.workers[row.token.value]))
  }

  ghost predicate WorkerOk(w: World, token: Token)
    requires token in w.workers
  {
    var worker := w.workers[token];
    && worker.id in w.rows && w.rows[worker.id].token == Some(token)
    && (worker.recorded.Some? ==> worker.recorded.value in w.releases)
  }

  ghost predicate ReleaseOk(w: World, r: Release) {
    && r.recorder in w.workers && w.workers[r.recorder].recorded == Some(r) && w.workers[r.recorder].id == r.build
    && r.build in w.rows && w.rows[r.build].owner == r.application && w.rows[r.build].target == Build
  }

  ghost predicate Inv(w: World) {
    && (forall id :: id in w.rows ==> RowOk(w, id))
    && (forall token :: token in w.workers ==> WorkerOk(w, token))
    && (forall r :: r in w.releases ==> ReleaseOk(w, r))
  }

  lemma {:induction false} ExpireKeepsInv(w: World, target: Target, now: int)
    requires Inv(w)
    ensures Inv(Step(w, DoExpire(target, now)))
  {
    var w' := Step(w, DoExpire(target, now));
    forall id | id in w'.rows ensures RowOk(w', id) {
      assert RowOk(w, id);
    }
    forall token | token in w'.workers ensures WorkerOk(w', token) {
      assert WorkerOk(w, token);
    }
    forall r | r in w'.releases ensures ReleaseOk(w', r) {
      assert ReleaseOk(w, r);
    }
  }

  lemma {:induction false} ClaimKeepsInv(w: World, e: Event)
    requires Inv(w) && e.DoClaim? && Enabled(w, e)
    ensures Inv(Step(w, e))
  {
    var w' := Step(w, e);
    forall id | id in w'.rows ensures RowOk(w', id) {
      assert RowOk(w, id);
    }
    forall token | token in w'.workers ensures WorkerOk(w', token) {
      assert token != e.token ==> WorkerOk(w, token);
      assert RowOk(w, e.id);
    }
    forall r | r in w'.releases ensures ReleaseOk(w', r) {
      assert ReleaseOk(w, r);
    }
  }

  lemma {:induction false} RenewKeepsInv(w: World, token: Token, now: int)
    requires Inv(w) && Enabled(w, DoRenew(token, now))
    ensures Inv(Step(w, DoRenew(token, now)))
  {
    var w' := Step(w, DoRenew(token, now));
    forall id | id in w'.rows ensures RowOk(w', id) {
      assert RowOk(w, id);
    }
    forall other | other in w'.workers ensures WorkerOk(w', other) {
      assert WorkerOk(w, other);
    }
    forall r | r in w'.releases ensures ReleaseOk(w', r) {
      assert ReleaseOk(w, r);
    }
  }

  lemma {:induction false} RecordKeepsInv(w: World, token: Token, fingerprint: string, artifact: Artifact)
    requires Inv(w) && Enabled(w, DoRecord(token, fingerprint, artifact))
    ensures Inv(Step(w, DoRecord(token, fingerprint, artifact)))
  {
    var w' := Step(w, DoRecord(token, fingerprint, artifact));
    forall id | id in w'.rows ensures RowOk(w', id) {
      assert RowOk(w, id);
    }
    forall other | other in w'.workers ensures WorkerOk(w', other) {
      assert WorkerOk(w, other);
    }
    forall r | r in w'.releases ensures ReleaseOk(w', r) {
      assert r in w.releases ==> ReleaseOk(w, r);
    }
  }

  lemma {:induction false} FinishKeepsInv(w: World, e: Event)
    requires Inv(w) && (e.DoSucceed? || e.DoFail?) && Enabled(w, e)
    ensures Inv(Step(w, e))
  {
    var w' := Step(w, e);
    forall id | id in w'.rows ensures RowOk(w', id) {
      assert RowOk(w, id);
    }
    forall token | token in w'.workers ensures WorkerOk(w', token) {
      assert WorkerOk(w, token);
    }
    forall r | r in w'.releases ensures ReleaseOk(w', r) {
      assert ReleaseOk(w, r);
    }
  }

  lemma {:induction false} EnqueueKeepsInv(w: World, e: Event)
    requires Inv(w) && e.DoEnqueue? && Enabled(w, e)
    ensures Inv(Step(w, e))
  {
  }

  lemma {:induction false} StepKeepsInv(w: World, e: Event)
    requires Inv(w) && Enabled(w, e)
    ensures Inv(Step(w, e))
  {
    match e
    case DoEnqueue(_, _) => EnqueueKeepsInv(w, e);
    case DoExpire(target, now) => ExpireKeepsInv(w, target, now);
    case DoClaim(_, _, _, _, _, _) => ClaimKeepsInv(w, e);
    case DoRenew(token, now) => RenewKeepsInv(w, token, now);
    case DoRecord(token, fingerprint, artifact) => RecordKeepsInv(w, token, fingerprint, artifact);
    case DoSucceed(_, _) => FinishKeepsInv(w, e);
    case DoFail(_, _, _, _) => FinishKeepsInv(w, e);
  }

  // ---- Runs ----

  ghost predicate CanRun(w: World, events: seq<Event>)
    decreases |events|
  {
    events == [] || (Enabled(w, events[0]) && CanRun(Step(w, events[0]), events[1..]))
  }

  ghost function Run(w: World, events: seq<Event>): World
    requires CanRun(w, events)
    decreases |events|
  {
    if events == [] then w else Run(Step(w, events[0]), events[1..])
  }

  lemma {:induction false} RunsKeepInv(w: World, events: seq<Event>)
    requires Inv(w) && CanRun(w, events)
    ensures Inv(Run(w, events))
    decreases |events|
  {
    if events != [] {
      StepKeepsInv(w, events[0]);
      RunsKeepInv(Step(w, events[0]), events[1..]);
    }
  }

  // ---- Fencing ----

  /** A row changes only by being claimed, by running out of its lease, or by its current token
      while it runs. */
  lemma {:induction false} RowsAreFenced(w: World, e: Event, id: TaskId)
    requires Inv(w) && Enabled(w, e) && id in w.rows
    ensures var w' := Step(w, e);
            id in w'.rows &&
            (w'.rows[id] == w.rows[id]
             || (w.rows[id].status == Pending && e.DoClaim? && e.id == id && w'.rows[id].token == Some(e.token))
             || (e.DoExpire? && IsStale(w.rows[id], e.target, e.now))
             || (w.rows[id].status == Running && (e.DoRenew? || e.DoSucceed? || e.DoFail?)
                 && w.rows[id].token == Some(e.token)))
  {
  }

  /** Every claim has a token of its own: no two rows share one. */
  lemma {:induction false} TokensAreUnique(w: World, id: TaskId, other: TaskId)
    requires Inv(w) && id in w.rows && other in w.rows
    requires w.rows[id].token.Some? && w.rows[other].token == w.rows[id].token
    ensures id == other
  {
    assert RowOk(w, id) && RowOk(w, other);
  }

  /** What has ended never changes again. */
  lemma {:induction false} TerminalRowsStay(w: World, events: seq<Event>, id: TaskId)
    requires Inv(w) && CanRun(w, events)
    requires id in w.rows && w.rows[id].status != Pending && w.rows[id].status != Running
    ensures var w' := Run(w, events); id in w'.rows && w'.rows[id] == w.rows[id]
    decreases |events|
  {
    if events != [] {
      RowsAreFenced(w, events[0], id);
      StepKeepsInv(w, events[0]);
      TerminalRowsStay(Step(w, events[0]), events[1..], id);
    }
  }

  // ---- One task at a time ----

  /** The unique indexes hold: no two running rows are builds of one application on one server, or
      deployments of one environment. */
  ghost predicate SlotsAreExclusive(w: World) {
    forall id, other ::
      id in w.rows && other in w.rows && id != other
      && w.rows[id].status == Running && w.rows[other].status == Running
      && w.rows[id].target == w.rows[other].target && w.rows[id].owner == w.rows[other].owner ==>
        w.rows[id].target == Build && w.rows[id].server != w.rows[other].server
  }

  /** Where a row belongs never changes, and it begins to run only by being claimed. */
  lemma {:induction false} RowsStayInPlace(w: World, e: Event, id: TaskId)
    requires Inv(w) && Enabled(w, e) && id in Step(w, e).rows
    ensures id in w.rows ==>
              && Step(w, e).rows[id].target == w.rows[id].target && Step(w, e).rows[id].owner == w.rows[id].owner
              && Step(w, e).rows[id].server == w.rows[id].server
    ensures Step(w, e).rows[id].status == Running ==>
              id in w.rows && (w.rows[id].status == Running || (e.DoClaim? && e.id == id))
  {
  }

  lemma {:induction false} StepKeepsSlots(w: World, e: Event)
    requires Inv(w) && SlotsAreExclusive(w) && Enabled(w, e)
    ensures SlotsAreExclusive(Step(w, e))
  {
    var w' := Step(w, e);
    forall id, other | id in w'.rows && other in w'.rows && id != other
        && w'.rows[id].status == Running && w'.rows[other].status == Running
        && w'.rows[id].target == w'.rows[other].target && w'.rows[id].owner == w'.rows[other].owner
      ensures w'.rows[id].target == Build && w'.rows[id].server != w'.rows[other].server
    {
      RowsStayInPlace(w, e, id);
      RowsStayInPlace(w, e, other);
    }
  }

  /** In every run, at most one build of an application runs on a server at a time, and at most one
      deployment of an environment. */
  lemma {:induction false} OneTaskPerSlot(w: World, events: seq<Event>)
    requires Inv(w) && SlotsAreExclusive(w) && CanRun(w, events)
    ensures SlotsAreExclusive(Run(w, events))
    decreases |events|
  {
    if events != [] {
      StepKeepsInv(w, events[0]);
      StepKeepsSlots(w, events[0]);
      OneTaskPerSlot(Step(w, events[0]), events[1..]);
    }
  }

  // ---- Claims and exits ----

  predicate Runs(w: World, id: TaskId) {
    id in w.rows && w.rows[id].status == Running
  }

  function One(b: bool): nat { if b then 1 else 0 }

  ghost function Claims(w: World, events: seq<Event>, id: TaskId): nat
    requires CanRun(w, events)
    decreases |events|
  {
    if events == [] then 0
    else
      var w' := Step(w, events[0]);
      One(events[0].DoClaim? && events[0].id == id) + Claims(w', events[1..], id)
  }

  ghost function Exits(w: World, events: seq<Event>, id: TaskId): nat
    requires CanRun(w, events)
    decreases |events|
  {
    if events == [] then 0
    else
      var w' := Step(w, events[0]);
      One(Runs(w, id) && !Runs(w', id)) + Exits(w', events[1..], id)
  }

  lemma {:induction false} StepBalance(w: World, e: Event, id: TaskId)
    requires Inv(w) && Enabled(w, e)
    ensures One(Runs(w, id)) + One(e.DoClaim? && e.id == id)
         == One(Runs(Step(w, e), id)) + One(Runs(w, id) && !Runs(Step(w, e), id))
  {
    if id in w.rows {
      RowsAreFenced(w, e, id);
    }
  }

  /** A row leaves `running` exactly once for each claim, but for the claim that is still running. */
  lemma {:induction false} ExitsBalanceClaims(w: World, events: seq<Event>, id: TaskId)
    requires Inv(w) && CanRun(w, events)
    ensures One(Runs(w, id)) + Claims(w, events, id) == Exits(w, events, id) + One(Runs(Run(w, events), id))
    decreases |events|
  {
    if events != [] {
      StepBalance(w, events[0], id);
      StepKeepsInv(w, events[0]);
      ExitsBalanceClaims(Step(w, events[0]), events[1..], id);
    }
  }

  predicate Unclaimed(w: World, id: TaskId) {
    id !in w.rows || w.rows[id].token.None?
  }

  /** A row is claimed at most once in its life, so at most one completion of it takes effect. */
  lemma {:induction false} ClaimedAtMostOnce(w: World, events: seq<Event>, id: TaskId)
    requires Inv(w) && CanRun(w, events)
    ensures Claims(w, events, id) <= One(Unclaimed(w, id))
    decreases |events|
  {
    if events != [] {
      var w' := Step(w, events[0]);
      StepKeepsInv(w, events[0]);
      ClaimedAtMostOnce(w', events[1..], id);
      if id in w.rows {
        RowsAreFenced(w, events[0], id);
        assert RowOk(w, id);
      }
    }
  }

  lemma {:induction false} OneCompletion(events: seq<Event>, id: TaskId)
    requires CanRun(NewWorld, events)
    ensures Exits(NewWorld, events, id) <= Claims(NewWorld, events, id) <= 1
  {
    ExitsBalanceClaims(NewWorld, events, id);
    ClaimedAtMostOnce(NewWorld, events, id);
  }

  // ---- Leases over time ----

  /** A sweep fails a running row exactly when more than fifteen minutes have passed since its
      last committed renewal. */
  lemma {:induction false} SweepFailsExactlyTheLate(w: World, id: TaskId, now: int)
    requires Inv(w) && Runs(w, id)
    ensures w.rows[id].token.Some? && w.rows[id].token.value in w.workers
    ensures !Runs(Step(w, DoExpire(w.rows[id].target, now)), id)
       <==> now > w.workers[w.rows[id].token.value].lastCommit + LEASE_DURATION_SECONDS
  {
    assert RowOk(w, id);
  }

  function TimeOf(e: Event): Option<int> {
    match e
    case DoExpire(_, now) => Some(now)
    case DoClaim(_, _, _, _, _, now) => Some(now)
    case DoRenew(_, now) => Some(now)
    case DoSucceed(_, now) => Some(now)
    case DoFail(_, _, _, now) => Some(now)
    case _ => None
  }

  function ClockAfter(clock: int, e: Event): int {
    match TimeOf(e) case Some(now) => now case None => clock
  }

  /** The database's clock never goes back, from `clock` on; the claim renews at most one interval
      and its delay after its last commit, and has not waited longer at the end; and nobody
      finishes it.  Nothing is said about when servers sweep. */
  ghost predicate Beating(w: World, events: seq<Event>, token: Token, clock: int, delay: nat)
    requires token in w.workers && CanRun(w, events)
    decreases |events|
  {
    var bound := w.workers[token].lastCommit + LEASE_RENEW_INTERVAL + delay;
    if events == [] then clock <= bound
    else
      var e := events[0];
      && clock <= ClockAfter(clock, e)
      && (e.DoRenew? && e.token == token ==> e.now <= bound)
      && !(e.DoSucceed? && e.token == token)
      && !(e.DoFail? && e.token == token)
      && token in Step(w, e).workers
      && Beating(Step(w, e), events[1..], token, ClockAfter(clock, e), delay)
  }

  /** So every event comes before the claim's wait is over. */
  lemma {:induction false} BeatingBoundsClock(w: World, events: seq<Event>, token: Token, clock: int, delay: nat)
    requires CanRun(w, events) && token in w.workers && Beating(w, events, token, clock, delay)
    ensures clock <= w.workers[token].lastCommit + LEASE_RENEW_INTERVAL + delay
    decreases |events|
  {
    if events != [] && !(events[0].DoRenew? && events[0].token == token) {
      BeatingBoundsClock(Step(w, events[0]), events[1..], token, ClockAfter(clock, events[0]), delay);
    }
  }

  /** Whatever the other servers do, and whenever they sweep, a claim whose heartbeat keeps time goes
      on holding its lease. */
  lemma {:induction false} BeatingClaimKeepsLease(w: World, events: seq<Event>, token: Token, clock: int, delay: nat)
    requires Inv(w) && CanRun(w, events)
    requires token in w.workers && HoldsLease(w.rows, w.workers[token].id, token)
    requires LEASE_RENEW_INTERVAL + delay <= LEASE_DURATION_SECONDS
    requires Beating(w, events, token, clock, delay)
    ensures HoldsLease(Run(w, events).rows, w.workers[token].id, token)
    decreases |events|
  {
    if events != [] {
      var e := events[0];
      if e.DoExpire? {
        BeatingBoundsClock(Step(w, e), events[1..], token, e.now, delay);
      }
      StepKeepsInv(w, e);
      HolderStays(w, e, token);
      BeatingClaimKeepsLease(Step(w, e), events[1..], token, ClockAfter(clock, e), delay);
    }
  }

  lemma {:induction false} HolderStays(w: World, e: Event, token: Token)
    requires Inv(w) && Enabled(w, e)
    requires token in w.workers && HoldsLease(w.rows, w.workers[token].id, token)
    requires e.DoExpire? ==> e.now <= w.workers[token].lastCommit + LEASE_DURATION_SECONDS
    requires !(e.DoSucceed? && e.token == token) && !(e.DoFail? && e.token == token)
    ensures token in Step(w, e).workers && Step(w, e).workers[token].id == w.workers[token].id
    ensures HoldsLease(Step(w, e).rows, w.workers[token].id, token)
  {
    assert RowOk(w, w.workers[token].id);
  }

  // ---- Reusable releases ----

  predicate Matches(w: World, r: Release, application: string, fingerprint: string, server: Server) {
    && r.application == application && r.fingerprint == fingerprint
    && r.build in w.rows && w.rows[r.build].server == server && w.rows[r.build].status == Succeeded
  }

  /** The newest release that matches; `n` of the releases are still to be looked at. */
  function FindReusable(w: World, n: nat, application: string, fingerprint: string,
        server: Server): (r: Option<Release>)
    requires n <= |w.releases|
    ensures r.Some? ==>
              exists k :: 0 <= k < n && w.releases[k] == r.value
                          && Matches(w, r.value, application, fingerprint, server)
                          && forall j :: k < j < n ==> !Matches(w, w.releases[j], application, fingerprint, server)
    ensures r.None? ==> forall j :: 0 <= j < n ==> !Matches(w, w.releases[j], application, fingerprint, server)
  {
    if n == 0 then None
    else if Matches(w, w.releases[n - 1], application, fingerprint, server) then Some(w.releases[n - 1])
    else FindReusable(w, n - 1, application, fingerprint, server)
  }

  ghost predicate OneReleaseEach(w: World) {
    forall j, k :: 0 <= j < k < |w.releases| ==> w.releases[j].build != w.releases[k].build
  }

  /** In every run a build has one release at most. */
  lemma {:induction false} OneReleasePerBuild(w: World, events: seq<Event>)
    requires OneReleaseEach(w) && CanRun(w, events)
    ensures OneReleaseEach(Run(w, events))
    decreases |events|
  {
    if events != [] {
      OneReleasePerBuild(Step(w, events[0]), events[1..]);
    }
  }

  /** What its holder makes of a row. */
  lemma {:induction false} HolderActs(w: World, token: Token, message: string, now: int)
    requires token in w.workers && HoldsLease(w.rows, w.workers[token].id, token)
    ensures var id, recorded := w.workers[token].id, w.workers[token].recorded;
            var row := w.rows[id];
            && Step(w, DoRenew(token, now)).rows == w.rows[id := row.(leaseExpiresAt := Some(now + 900))]
            && Step(w, DoRenew(token, now)).workers[token].lastCommit == now
            && Step(w, DoFail(id, token, message, now)).rows
               == w.rows[id := row.(status := Failed, error := Some(message), finishedAt := Some(now))]
            && (recorded.Some? ==>
                  Step(w, DoSucceed(token, now)).rows
                  == w.rows[id := row.(status := Succeeded, artifact := Some(recorded.value.artifact), error := None,
                                       finishedAt := Some(now))])
  {
  }

  /** What is found and what is not, in the columns of the two tables. */
  lemma {:induction false} FoundIffRecorded(w: World, application: string, fingerprint: string, server: Server)
    ensures var found := FindReusable(w, |w.releases|, application, fingerprint, server);
            && (found.None? <==>
                  forall k :: 0 <= k < |w.releases| ==>
                    !(w.releases[k].application == application && w.releases[k].fingerprint == fingerprint
                      && w.releases[k].build in w.rows && w.rows[w.releases[k].build].server == server
                      && w.rows[w.releases[k].build].status == Succeeded))
            && (found.Some? ==>
                  exists k :: 0 <= k < |w.releases| && w.releases[k] == found.value
                    && forall j :: k < j < |w.releases| ==>
                         !(w.releases[j].application == application && w.releases[j].fingerprint == fingerprint
                           && w.releases[j].build in w.rows && w.rows[w.releases[j].build].server == server
                           && w.rows[w.releases[j].build].status == Succeeded))
  {
    var n := |w.releases|;
    assert forall k :: 0 <= k < n ==>
        (Matches(w, w.releases[k], application, fingerprint, server) <==>
           w.releases[k].application == application && w.releases[k].fingerprint == fingerprint
           && w.releases[k].build in w.rows && w.rows[w.releases[k].build].server == server
           && w.rows[w.releases[k].build].status == Succeeded);
  }

  lemma {:induction false} RunCons(w: World, e: Event, rest: seq<Event>)
    requires Enabled(w, e) && CanRun(Step(w, e), rest)
    ensures CanRun(w, [e] + rest) && Run(w, [e] + rest) == Run(Step(w, e), rest)
  {
    assert ([e] + rest)[1..] == rest;
  }

  /** The worker that holds a build's lease is never kept from recording its one release. */
  lemma {:induction false} HolderMayRecord(w: World, token: Token, fingerprint: string, artifact: Artifact)
    requires Inv(w) && token in w.workers && w.workers[token].recorded.None?
    requires HoldsLease(w.rows, w.workers[token].id, token) && w.rows[w.workers[token].id].target == Build
    ensures Enabled(w, DoRecord(token, fingerprint, artifact))
  {
    forall k | 0 <= k < |w.releases| ensures w.releases[k].build != w.workers[token].id {
      assert ReleaseOk(w, w.releases[k]) && WorkerOk(w, w.releases[k].recorder);
    }
  }

  /** A build that is claimed, records its release and reports success is reused from then on. */
  lemma {:induction false} FinishedBuildIsReused(id: TaskId, row: Row, token: Token, fingerprint: string,
        artifact: Artifact, now: int)
      returns (events: seq<Event>)
    requires IsFreshRow(row) && row.target == Build
    ensures CanRun(NewWorld, events)
    ensures var w := Run(NewWorld, events);
            && id in w.rows && w.rows[id].status == Succeeded && w.rows[id].artifact == Some(artifact)
            && FindReusable(w, |w.releases|, row.owner, fingerprint, row.server)
               == Some(Release(id, row.owner, fingerprint, artifact, token))
  {
    var e1, e2 := DoEnqueue(id, row), DoClaim(Build, row.server, {}, id, token, now);
    var e3, e4 := DoRecord(token, fingerprint, artifact), DoSucceed(token, now);
    var w1 := Step(NewWorld, e1);
    assert IsNext(w1.rows, Build, row.server, {}, id) && !SlotTaken(w1.rows, id);
    var w2 := Step(w1, e2);
    var w3 := Step(w2, e3);
    var w4 := Step(w3, e4);
    RunCons(w3, e4, []);
    RunCons(w2, e3, [e4] + []);
    RunCons(w1, e2, [e3] + ([e4] + []));
    RunCons(NewWorld, e1, [e2] + ([e3] + ([e4] + [])));
    events := [e1] + ([e2] + ([e3] + ([e4] + [])));
    assert w4.releases == [Release(id, row.owner, fingerprint, artifact, token)];
    assert Matches(w4, w4.releases[0], row.owner, fingerprint, row.server);
  }

  /** In every run, a release that is found was recorded by the worker whose claim completed the
      build, on the asked server, and describes what that build reported. */
  lemma {:induction false} ReusedReleaseIsSound(events: seq<Event>, application: string, fingerprint: string,
        server: Server)
    requires CanRun(NewWorld, events)
    ensures var w := Run(NewWorld, events);
            var found := FindReusable(w, |w.releases|, application, fingerprint, server);
            found.Some? ==>
              var r := found.value;
              && r.application == application && r.fingerprint == fingerprint
              && r.build in w.rows && w.rows[r.build].server == server && w.rows[r.build].owner == application
              && w.rows[r.build].status == Succeeded
              && w.rows[r.build].token == Some(r.recorder)
              && w.rows[r.build].artifact == Some(r.artifact)
  {
    RunsKeepInv(NewWorld, events);
    var w := Run(NewWorld, events);
    var found := FindReusable(w, |w.releases|, application, fingerprint, server);
    if found.Some? {
      var r := found.value;
      assert ReleaseOk(w, r);
      assert RowOk(w, r.build) && WorkerOk(w, r.recorder);
    }
  }

  /** A worker that has lost its lease has a claim whose row does not run under its token. */
  ghost predicate LostLease(w: World, token: Token) {
    token in w.workers && !HoldsLease(w.rows, w.workers[token].id, token)
    && !(w.workers[token].id in w.rows && w.rows[w.workers[token].id].status == Succeeded)
  }

  /** The release of a worker that lost its lease before it could report success is never found,
      however the run goes on. */
  lemma {:induction false} LostReleaseIsNeverReused(w: World, events: seq<Event>, token: Token,
                                 application: string, fingerprint: string, server: Server)
    requires Inv(w) && CanRun(w, events) && LostLease(w, token)
    ensures var w' := Run(w, events);
            var found := FindReusable(w', |w'.releases|, application, fingerprint, server);
            found.Some? ==> found.value.recorder != token
  {
    var id := w.workers[token].id;
    assert WorkerOk(w, token) && RowOk(w, id);
    TerminalRowsStay(w, events, id);
    WorkerKeepsRow(w, events, token);
    RunsKeepInv(w, events);
    var w' := Run(w, events);
    var found := FindReusable(w', |w'.releases|, application, fingerprint, server);
    if found.Some? {
      assert ReleaseOk(w', found.value);
    }
  }

  lemma {:induction false} WorkerKeepsRow(w: World, events: seq<Event>, token: Token)
    requires CanRun(w, events) && token in w.workers
    ensures token in Run(w, events).workers && Run(w, events).workers[token].id == w.workers[token].id
    decreases |events|
  {
    if events != [] {
      WorkerKeepsRow(Step(w, events[0]), events[1..], token);
    }
  }
}
