/** The deployer's task tables: builds and deployments that many servers claim, renew, expire and
    finish.  Every SQL statement is one guarded step on the table.
 */
module DeployTasks {
  import opened Text

  type TaskId = string
  type Token = string
  type Server = string

  const LEASE_DURATION_SECONDS: int := 15 * 60
  const LEASE_RENEW_INTERVAL: int := 60
  const EXPIRED_MESSAGE := "lease expired before completion"

  /** Which of the two tables a row is in. */
  datatype Target = Build | Deployment

  datatype Status = Pending | Running | Succeeded | Failed | Cancelled

  /** What a build leaves behind. */
  datatype Artifact = Artifact(gitSha: string, commitMessage: string, snapshot: string, ref: string, digest: string)

  /** `owner` is the application of a build and the environment of a deployment; the server of a
      deployment is that of its environment. */
  datatype Row = Row(target: Target, server: Server, owner: string, createdAt: int, status: Status, attempts: nat,
                     token: Option<Token>, leaseExpiresAt: Option<int>, startedAt: Option<int>,
                     finishedAt: Option<int>, error: Option<string>, artifact: Option<Artifact>)

  type Table = map<TaskId, Row>

  // ---- The statements ----

  predicate IsStale(row: Row, target: Target, now: int) {
    row.target == target && row.status == Running && row.leaseExpiresAt.Some? && row.leaseExpiresAt.value < now
  }

  function Expired(row: Row, now: int): Row {
    row.(status := Failed, finishedAt := Some(now),
         error := if row.error.None? || row.error.value == "" then Some(EXPIRED_MESSAGE) else row.error)
  }

  function ExpireStale(t: Table, target: Target, now: int): Table {
    map id | id in t :: if IsStale(t[id], target, now) then Expired(t[id], now) else t[id]
  }

  /** Rows another transaction has locked are skipped. */
  predicate Claimable(t: Table, target: Target, server: Server, locked: set<TaskId>, id: TaskId) {
    id in t && t[id].target == target && t[id].status == Pending && t[id].server == server && id !in locked
  }

  /** The oldest row that can be claimed; among equally old ones any. */
  ghost predicate IsNext(t: Table, target: Target, server: Server, locked: set<TaskId>, id: TaskId) {
    && Claimable(t, target, server, locked, id)
    && forall other :: Claimable(t, target, server, locked, other) ==> t[id].createdAt <= t[other].createdAt
  }

  /** The unique indexes on running rows: one build per application and server, one deployment per
      environment. */
  predicate SameSlot(a: Row, b: Row) {
    a.target == b.target && a.owner == b.owner && (a.target == Build ==> a.server == b.server)
  }

  predicate SlotTaken(t: Table, id: TaskId)
    requires id in t
  {
    exists other :: other in t && other != id && t[other].status == Running && SameSlot(t[other], t[id])
  }

  function Claimed(row: Row, token: Token, now: int): Row {
    row.(status := Running, startedAt := Some(now), attempts := row.attempts + 1, token := Some(token),
         leaseExpiresAt := Some(now + LEASE_DURATION_SECONDS))
  }

  predicate HoldsLease(t: Table, id: TaskId, token: Token) {
    id in t && t[id].status == Running && t[id].token == Some(token)
  }

  function Renew(t: Table, id: TaskId, token: Token, now: int): Table {
    if HoldsLease(t, id, token) then t[id := t[id].(leaseExpiresAt := Some(now + LEASE_DURATION_SECONDS))] else t
  }

  function MarkSucceeded(t: Table, id: TaskId, token: Token, artifact: Option<Artifact>, now: int): Table {
    if HoldsLease(t, id, token)
    then t[id := t[id].(status := Succeeded, artifact := artifact, error := None, finishedAt := Some(now))]
    else t
  }

  function MarkFailed(t: Table, id: TaskId, token: Token, message: string, now: int): Table {
    if HoldsLease(t, id, token)
    then t[id := t[id].(status := Failed, error := Some(message), finishedAt := Some(now))]
    else t
  }

  datatype ClaimResult = NothingToClaim | SlotViolation(id: TaskId) | Claim(id: TaskId)

  class TaskStore {
    var rows: Table

    constructor ()
      ensures rows == map[]
    {
      rows := map[];
    }

    /** In both tables the running rows whose lease has run out fail now, with the message of the
        sweep unless they have one already; no other row and nothing else in a row changes. */
    method ExpireStaleTasks(now: int)
      modifies this
      ensures rows.Keys == old(rows).Keys
      ensures forall id :: id in rows ==>
                var row := old(rows)[id];
                var stale := row.status == Running && row.leaseExpiresAt.Some? && row.leaseExpiresAt.value < now;
                if !stale then rows[id] == row
                else
                  && rows[id].status == Failed && rows[id].finishedAt == Some(now)
                  && rows[id].error.Some? && rows[id].error.value != ""
                  && (row.error.Some? && row.error.value != "" ==> rows[id].error == row.error)
                  && (row.error.None? || row.error.value == "" ==> rows[id].error == Some(EXPIRED_MESSAGE))
                  && rows[id].(status := row.status, finishedAt := row.finishedAt, error := row.error) == row
    {
      rows := ExpireStale(rows, Build, now);
      rows := ExpireStale(rows, Deployment, now);
    }

    /** The oldest claimable row, found by looking at every row. */
    method FindNext(target: Target, server: Server, locked: set<TaskId>) returns (best: Option<TaskId>)
      ensures best.None? ==> forall id :: !Claimable(rows, target, server, locked, id)
      ensures best.Some? ==> IsNext(rows, target, server, locked, best.value)
      ensures best.Some? ==>
                var row := rows[best.value];
                && row.target == target && row.server == server && row.status == Pending && best.value !in locked
                && (forall id :: id in rows && id !in locked && rows[id].status == Pending
                                 && rows[id].target == target && rows[id].server == server ==>
                      row.createdAt <= rows[id].createdAt)
      ensures best.None? ==>
                forall id :: id in rows && id !in locked && rows[id].target == target && rows[id].server == server ==>
                  rows[id].status != Pending
    {
      best := None;
      var unseen := rows.Keys;
      while unseen != {}
        invariant unseen <= rows.Keys
        invariant best.None? ==> forall id :: id !in unseen ==> !Claimable(rows, target, server, locked, id)
        invariant best.Some? ==> Claimable(rows, target, server, locked, best.value)
        invariant best.Some? ==> forall id :: id !in unseen && Claimable(rows, target, server, locked, id) ==>
                    rows[best.value].createdAt <= rows[id].createdAt
        decreases |unseen|
      {
        var id :| id in unseen;
        unseen := unseen - {id};
        if Claimable(rows, target, server, locked, id)
           && (best.None? || rows[id].createdAt < rows[best.value].createdAt) {
          best := Some(id);
        }
      }
      assert best.None? ==> forall id :: id in rows ==> !Claimable(rows, target, server, locked, id);
    }

    /** Claiming fails as a whole when the row's slot already has a running row: another build of the
        same application on the same server, or another deployment of the same environment. */
    method ClaimNext(target: Target, server: Server, locked: set<TaskId>, token: Token, now: int)
      returns (r: ClaimResult)
      modifies this
      ensures r.NothingToClaim? ==> (forall id :: !Claimable(rows, target, server, locked, id)) && rows == old(rows)
      ensures !r.NothingToClaim? ==> IsNext(old(rows), target, server, locked, r.id)
      ensures r.SlotViolation? ==> SlotTaken(old(rows), r.id) && rows == old(rows)
      ensures r.Claim? ==> !SlotTaken(old(rows), r.id)
                           && rows == old(rows)[r.id := Claimed(old(rows)[r.id], token, now)]
      ensures r.Claim? ==>
                var row, was := rows[r.id], old(rows)[r.id];
                && was.status == Pending && row.status == Running && row.token == Some(token)
                && row.startedAt == Some(now) && row.leaseExpiresAt == Some(now + 900)
                && row.attempts == was.attempts + 1
                && row.target == was.target && row.owner == was.owner && row.server == was.server
      ensures !r.NothingToClaim? ==>
                var row := old(rows)[r.id];
                r.SlotViolation? <==>
                  exists other :: other in old(rows) && other != r.id && old(rows)[other].status == Running
                    && old(rows)[other].target == row.target && old(rows)[other].owner == row.owner
                    && (row.target == Build ==> old(rows)[other].server == row.server)
    {
      var next := FindNext(target, server, locked);
      if next.None? {
        return NothingToClaim;
      }
      var id := next.value;
      if SlotTaken(rows, id) {
        return SlotViolation(id);
      }
      rows := rows[id := Claimed(rows[id], token, now)];
      return Claim(id);
    }

    /** The transitions report an error when no row was changed. */
    method RenewLease(id: TaskId, token: Token, now: int) returns (ok: bool)
      modifies this
      ensures ok == HoldsLease(old(rows), id, token)
      ensures rows == Renew(old(rows), id, token, now)
      ensures ok <==> id in old(rows) && old(rows)[id].status == Running && old(rows)[id].token == Some(token)
      ensures ok ==> rows[id] == old(rows)[id].(leaseExpiresAt := Some(now + 900))
      ensures !ok ==> rows == old(rows)
      ensures forall other :: other in rows && other != id ==> other in old(rows) && rows[other] == old(rows)[other]
    {
      ok := id in rows && rows[id].status == Running && rows[id].token == Some(token);
      if ok {
        rows := rows[id := rows[id].(leaseExpiresAt := Some(now + LEASE_DURATION_SECONDS))];
      }
    }

    method Succeed(id: TaskId, token: Token, artifact: Option<Artifact>, now: int) returns (ok: bool)
      modifies this
      ensures ok == HoldsLease(old(rows), id, token)
      ensures rows == MarkSucceeded(old(rows), id, token, artifact, now)
      ensures ok <==> id in old(rows) && old(rows)[id].status == Running && old(rows)[id].token == Some(token)
      ensures ok ==> rows[id] == old(rows)[id].(status := Status.Succeeded, artifact := artifact, error := None,
                                                finishedAt := Some(now))
      ensures !HoldsLease(rows, id, token) && (!ok ==> rows == old(rows))
      ensures forall other :: other in rows && other != id ==> other in old(rows) && rows[other] == old(rows)[other]
    {
      ok := id in rows && rows[id].status == Running && rows[id].token == Some(token);
      if ok {
        rows := rows[id := rows[id].(status := Succeeded, artifact := artifact, error := None,
                                     finishedAt := Some(now))];
      }
    }

    method Fail(id: TaskId, token: Token, message: string, now: int) returns (ok: bool)
      modifies this
      ensures ok == HoldsLease(old(rows), id, token)
      ensures rows == MarkFailed(old(rows), id, token, message, now)
      ensures ok <==> id in old(rows) && old(rows)[id].status == Running && old(rows)[id].token == Some(token)
      ensures ok ==> rows[id] == old(rows)[id].(status := Status.Failed, error := Some(message),
                                                finishedAt := Some(now))
      ensures !HoldsLease(rows, id, token) && (!ok ==> rows == old(rows))
      ensures forall other :: other in rows && other != id ==> other in old(rows) && rows[other] == old(rows)[other]
    {
      ok := id in rows && rows[id].status == Running && rows[id].token == Some(token);
      if ok {
        rows := rows[id := rows[id].(status := Failed, error := Some(message), finishedAt := Some(now))];
      }
    }

    /** The heartbeat around a piece of work: the work and the renewal timer race, other servers
        sweep the table meanwhile.  A refused renewal drops the work. */
    method WithLeaseHeartbeat(id: TaskId, token: Token, wakes: seq<Wake>) returns (r: HeartbeatResult)
      modifies this
      ensures (rows, r) == Heartbeat(old(rows), id, token, wakes)
    {
      var i := 0;
      assert wakes[0..] == wakes;
      while i < |wakes|
        invariant i <= |wakes|
        invariant Heartbeat(rows, id, token, wakes[i..]) == Heartbeat(old(rows), id, token, wakes)
      {
        assert wakes[i..][1..] == wakes[i + 1..];
        match wakes[i] {
          case WorkDone(ok) =>
            return Finished(ok);
          case Timer(now) =>
            var renewed := RenewLease(id, token, now);
            if !renewed {
              return LeaseLost;
            }
          case Sweep(target, now) =>
            rows := ExpireStale(rows, target, now);
        }
        i := i + 1;
      }
      return StillRunning;
    }
  }

  /** What wakes the heartbeat loop, or happens to the table while it sleeps. */
  datatype Wake = WorkDone(ok: bool) | Timer(now: int) | Sweep(target: Target, now: int)

  datatype HeartbeatResult = Finished(ok: bool) | LeaseLost | StillRunning

  function Heartbeat(t: Table, id: TaskId, token: Token, wakes: seq<Wake>): (Table, HeartbeatResult)
    decreases |wakes|
  {
    if wakes == [] then (t, StillRunning)
    else
      match wakes[0]
      case WorkDone(ok) => (t, Finished(ok))
      case Timer(now) =>
        if HoldsLease(t, id, token) then Heartbeat(Renew(t, id, token, now), id, token, wakes[1..]) else (t, LeaseLost)
      case Sweep(target, now) => Heartbeat(ExpireStale(t, target, now), id, token, wakes[1..])
  }

  /** A clock that never goes back, from `clock` on; every renewal at most `bound` seconds after the
      one before; and the wait under way at the end, or ended by the work, not yet longer than
      that.  Nothing is said about the sweeps of other servers. */
  ghost predicate Schedule(wakes: seq<Wake>, last: int, clock: int, bound: int)
    decreases |wakes|
  {
    if wakes == [] || wakes[0].WorkDone? then clock <= last + bound
    else
      && clock <= wakes[0].now
      && match wakes[0]
         case Timer(now) => now <= last + bound && Schedule(wakes[1..], now, now, bound)
         case Sweep(_, now) => Schedule(wakes[1..], last, now, bound)
  }

  /** So whatever happens does so before the wait is over. */
  lemma {:induction false} ScheduleBoundsClock(wakes: seq<Wake>, last: int, clock: int, bound: int)
    requires Schedule(wakes, last, clock, bound)
    ensures clock <= last + bound
    decreases |wakes|
  {
    if wakes != [] && wakes[0].Sweep? {
      ScheduleBoundsClock(wakes[1..], last, wakes[0].now, bound);
    }
  }

  /** The first thing the work says is that it has ended, well or not. */
  ghost predicate EndsWith(wakes: seq<Wake>, ok: bool) {
    exists k :: 0 <= k < |wakes| && wakes[k] == WorkDone(ok) && forall j :: 0 <= j < k ==> !wakes[j].WorkDone?
  }

  lemma {:induction false} EndsLater(wakes: seq<Wake>, ok: bool)
    requires wakes != []
    ensures if wakes[0].WorkDone? then EndsWith(wakes, ok) <==> wakes[0] == WorkDone(ok)
            else EndsWith(wakes, ok) <==> EndsWith(wakes[1..], ok)
  {
    if !wakes[0].WorkDone? {
      var rest := wakes[1..];
      if k :| 0 <= k < |wakes| && wakes[k] == WorkDone(ok) && forall j :: 0 <= j < k ==> !wakes[j].WorkDone? {
        assert rest[k - 1] == WorkDone(ok) && forall j :: 0 <= j < k - 1 ==> rest[j] == wakes[j + 1];
      }
      if k :| 0 <= k < |rest| && rest[k] == WorkDone(ok) && forall j :: 0 <= j < k ==> !rest[j].WorkDone? {
        assert wakes[k + 1] == WorkDone(ok);
        assert forall j :: 0 < j < k + 1 ==> wakes[j] == rest[j - 1];
      }
    }
  }

  /** While each wait of sixty seconds plus its delay ends in a committed renewal before the lease
      runs out, the heartbeat never loses the lease, whenever other servers sweep, and what it returns
      is the end of the work, which holds the lease. */
  lemma {:induction false} PunctualHeartbeat(t: Table, id: TaskId, token: Token, last: int, clock: int, delay: nat,
        wakes: seq<Wake>)
    requires HoldsLease(t, id, token) && t[id].leaseExpiresAt == Some(last + 900)
    requires 60 + delay <= 900
    requires Schedule(wakes, last, clock, 60 + delay)
    ensures var (t', r) := Heartbeat(t, id, token, wakes); r != LeaseLost && HoldsLease(t', id, token)
    ensures var r := Heartbeat(t, id, token, wakes).1;
            forall ok :: r == Finished(ok) <==> EndsWith(wakes, ok)
    decreases |wakes|
  {
    if wakes != [] {
      EndsLater(wakes, true);
      EndsLater(wakes, false);
      match wakes[0]
      case WorkDone(_) =>
      case Timer(now) =>
        PunctualHeartbeat(Renew(t, id, token, now), id, token, now, now, delay, wakes[1..]);
      case Sweep(target, now) =>
        ScheduleBoundsClock(wakes[1..], last, now, 60 + delay);
        PunctualHeartbeat(ExpireStale(t, target, now), id, token, last, now, delay, wakes[1..]);
    }
  }

  /** Once the lease is lost, the next renewal ends the work: nothing is renewed or finished after
      it. */
  lemma {:induction false} LostLeaseEndsWork(t: Table, id: TaskId, token: Token, wakes: seq<Wake>)
    requires !HoldsLease(t, id, token)
    ensures var (t', r) := Heartbeat(t, id, token, wakes); !HoldsLease(t', id, token)
    ensures forall k :: 0 <= k < |wakes| && wakes[k].Timer? && (forall j :: 0 <= j < k ==> !wakes[j].WorkDone?) ==>
              Heartbeat(t, id, token, wakes).1 == LeaseLost
    decreases |wakes|
  {
    if wakes != [] && wakes[0].Sweep? {
      var t' := ExpireStale(t, wakes[0].target, wakes[0].now);
      LostLeaseEndsWork(t', id, token, wakes[1..]);
      forall k | 0 <= k < |wakes| && wakes[k].Timer? && (forall j :: 0 <= j < k ==> !wakes[j].WorkDone?)
        ensures Heartbeat(t, id, token, wakes).1 == LeaseLost
      {
        assert wakes[1..][k - 1] == wakes[k];
        assert forall j :: 0 <= j < k - 1 ==> wakes[1..][j] == wakes[j + 1];
      }
    }
  }

  /** With one second more of delay the lease can be lost. */
  lemma {:induction false} LateHeartbeatIsLost(t: Table, id: TaskId, token: Token, last: int)
    requires HoldsLease(t, id, token) && t[id].leaseExpiresAt == Some(last + LEASE_DURATION_SECONDS)
    ensures var late := last + LEASE_DURATION_SECONDS + 1;
            Heartbeat(t, id, token, [Sweep(t[id].target, late), Timer(late)]).1 == LeaseLost
  {
    var late := last + LEASE_DURATION_SECONDS + 1;
    var wakes := [Sweep(t[id].target, late), Timer(late)];
    var t' := ExpireStale(t, t[id].target, late);
    assert wakes[1..] == [Timer(late)];
    assert !HoldsLease(t', id, token);
    assert Heartbeat(t', id, token, wakes[1..]) == (t', LeaseLost);
  }
}
