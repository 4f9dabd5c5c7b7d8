/** Replacing the container of an environment, with the previous one set aside for a rollback.
    Every docker command can fail, or take effect and still be reported as a failure.
 */
module ContainerRollback {
  import opened Text

  type Name = string
  type Id = nat

  datatype Container = Container(id: Id, running: bool)

  /** The containers by name, and whether the systemd unit of an earlier deployment is up. */
  datatype Host = Host(containers: map<Name, Container>, legacyUp: bool)

  /** What happens when a command is run.  `Late` takes effect, but the log line after it cannot be
      written, so it reports an error.  With `Lost` the lease runs out while the command is under
      way, and the work that waits for it is dropped. */
  datatype Effect = Works | Refused | Late | Lost(tookEffect: bool)

  predicate Applied(e: Effect) {
    e.Works? || e.Late? || (e.Lost? && e.tookEffect)
  }

  // ---- docker ----

  function Rename(h: Host, current: Name, next: Name, e: Effect): (Host, bool) {
    if Applied(e) && current in h.containers && next !in h.containers
    then (h.(containers := (h.containers - {current})[next := h.containers[current]]), e.Works?)
    else (h, false)
  }

  function SetRunning(h: Host, name: Name, running: bool, e: Effect): (Host, bool) {
    if Applied(e) && name in h.containers
    then (h.(containers := h.containers[name := h.containers[name].(running := running)]), e.Works?)
    else (h, false)
  }

  /** How looking for a container and removing it go. */
  datatype Removal = Removal(look: Effect, remove: Effect)

  function RemoveIfExists(h: Host, name: Name, r: Removal): (Host, bool) {
    if !r.look.Works? then (h, false)
    else if name !in h.containers then (h, true)
    else if !Applied(r.remove) then (h, false)
    else (h.(containers := h.containers - {name}), r.remove.Works?)
  }

  /** `docker run` can fail and leave a container that does not run. */
  function RunNew(h: Host, name: Name, id: Id, e: Effect, leftover: bool): (Host, bool) {
    if name in h.containers then (h, false)
    else if Applied(e) then (h.(containers := h.containers[name := Container(id, true)]), e.Works?)
    else if leftover then (h.(containers := h.containers[name := Container(id, false)]), false)
    else (h, false)
  }

  // ---- The adapter ----

  datatype RollbackState = NoRollback | Rollback(saved: Name)

  function SavedName(name: Name, deployment: string): Name {
    name + "-rollback-" + deployment
  }

  lemma {:induction false} SavedIsAnotherName(name: Name, deployment: string)
    ensures SavedName(name, deployment) != name
  {
    assert |SavedName(name, deployment)| > |name|;
  }

  datatype PrepareScript = PrepareScript(
    look: Effect, rename: Effect, stop: Effect, renameBack: Effect, stopLegacy: Effect)

  /** Sets the container aside.  If it cannot be stopped it gets its name back, unless the lease
      is lost at that moment.  The result is None for an error. */
  function PrepareContainer(h: Host, name: Name, saved: Name, sc: PrepareScript): (Host, Option<RollbackState>) {
    if !sc.look.Works? then (h, None)
    else if name !in h.containers then (h, Some(NoRollback))
    else
      var (h1, renamed) := Rename(h, name, saved, sc.rename);
      if !renamed then (h1, None)
      else
        var (h2, stopped) := SetRunning(h1, saved, false, sc.stop);
        if stopped then (h2, Some(Rollback(saved)))
        else if sc.stop.Lost? then (h2, None)
        else (Rename(h2, saved, name, sc.renameBack).0, None)
  }

  function Prepare(h: Host, name: Name, saved: Name, sc: PrepareScript): (Host, Option<RollbackState>) {
    var (h1, state) := PrepareContainer(h, name, saved, sc);
    if state.None? then (h1, None)
    else (if Applied(sc.stopLegacy) then h1.(legacyUp := false) else h1, if sc.stopLegacy.Works? then state else None)
  }

  /** `noteWritten` says whether the log takes the note that there is no legacy unit to start. */
  datatype RollbackScript = RollbackScript(
    clear: Removal, lookSaved: Effect, lookName: Effect, clearAgain: Removal,
    rename: Effect, start: Effect, startLegacy: Effect, noteWritten: bool)

  function Restore(h: Host, name: Name, saved: Name, sc: RollbackScript): (Host, bool) {
    if !sc.lookSaved.Works? || saved !in h.containers || !sc.lookName.Works? then (h, false)
    else
      var (h1, cleared) := if name in h.containers then RemoveIfExists(h, name, sc.clearAgain) else (h, true);
      if !cleared then (h1, false)
      else
        var (h2, renamed) := Rename(h1, saved, name, sc.rename);
        if !renamed then (h2, false) else SetRunning(h2, name, true, sc.start)
  }

  /** The failed release is removed from the name first, whatever the state says. */
  function RollBack(h: Host, name: Name, state: RollbackState, sc: RollbackScript): (Host, bool) {
    var h1 := RemoveIfExists(h, name, sc.clear).0;
    match state
    case Rollback(saved) => Restore(h1, name, saved, sc)
    case NoRollback =>
      (if Applied(sc.startLegacy) then h1.(legacyUp := true) else h1, sc.startLegacy.Works? || sc.noteWritten)
  }

  function Discard(h: Host, state: RollbackState, r: Removal): Host {
    match state
    case Rollback(saved) => RemoveIfExists(h, saved, r).0
    case NoRollback => h
  }

  // ---- One deployment ----

  /** `readied` says that the stages before the rollback is prepared went well, `healthy` that all
      after the new container's start did, and `rollbackStarts` that the stage of the rollback
      could be opened. */
  datatype Script = Script(
    readied: bool, prepare: PrepareScript, run: Effect, leftover: bool, healthy: bool,
    rollbackStarts: bool, rollback: RollbackScript, discard: Removal)

  datatype Verdict = Succeeded | Failed(rollbackReported: bool)

  function FailAndRollBack(h: Host, name: Name, state: RollbackState, sc: Script): (Host, Verdict) {
    if !sc.rollbackStarts then (h, Failed(false))
    else
      var (h', ok) := RollBack(h, name, state, sc.rollback);
      (h', Failed(ok))
  }

  /** From the new container's start to the end. */
  function Finish(h: Host, name: Name, id: Id, state: RollbackState, sc: Script): (Host, Verdict) {
    var (h1, started) := RunNew(h, name, id, sc.run, sc.leftover);
    if started && sc.healthy then (Discard(h1, state, sc.discard), Succeeded)
    else FailAndRollBack(h1, name, state, sc)
  }

  /** The deploy sequence of the adapter's contract: a rollback follows only a failure that comes
      after the rollback was prepared. */
  function DocumentedDeploy(h: Host, name: Name, deployment: string, id: Id, sc: Script): (Host, Verdict) {
    if !sc.readied then (h, Failed(false))
    else
      var (h1, state) := Prepare(h, name, SavedName(name, deployment), sc.prepare);
      if state.None? then (h1, Failed(false)) else Finish(h1, name, id, state.value, sc)
  }

  /** What the deployer does: it rolls back after every failure, with no state where none was
      returned. */
  function Deploy(h: Host, name: Name, deployment: string, id: Id, sc: Script): (Host, Verdict) {
    if !sc.readied then FailAndRollBack(h, name, NoRollback, sc)
    else
      var (h1, state) := Prepare(h, name, SavedName(name, deployment), sc.prepare);
      if state.None? then FailAndRollBack(h1, name, NoRollback, sc) else Finish(h1, name, id, state.value, sc)
  }

  // ---- What becomes of the previous container ----

  predicate Holds(h: Host, name: Name, id: Id) {
    name in h.containers && h.containers[name].id == id
  }

  predicate InService(h: Host, name: Name, id: Id) {
    name in h.containers && h.containers[name] == Container(id, true)
  }

  /** No other container has the id.  Containers do not come back once removed, so whoever exists
      at the end has existed all along. */
  ghost predicate Exists(h: Host, id: Id) {
    exists name :: Holds(h, name, id)
  }

  ghost predicate OnlyAt(h: Host, name: Name, id: Id) {
    Holds(h, name, id) && forall other :: Holds(h, other, id) ==> other == name
  }

  lemma {:induction false} RenameMoves(h: Host, current: Name, next: Name, id: Id, e: Effect)
    requires OnlyAt(h, current, id) && current != next
    ensures var (h', ok) := Rename(h, current, next, e);
            && (Applied(e) && next !in h.containers ==> OnlyAt(h', next, id) && current !in h'.containers
                                                        && h'.containers[next] == h.containers[current])
            && (!Applied(e) || next in h.containers ==> h' == h && !ok)
            && (ok ==> e.Works?)
  {
    var h' := Rename(h, current, next, e).0;
    if Applied(e) && next !in h.containers {
      assert Holds(h', next, id);
      forall other | Holds(h', other, id) ensures other == next {
        if other != next {
          assert Holds(h, other, id);
        }
      }
    }
  }

  lemma {:induction false} SetRunningStays(h: Host, name: Name, id: Id, running: bool, e: Effect)
    requires OnlyAt(h, name, id)
    ensures var (h', ok) := SetRunning(h, name, running, e);
            && OnlyAt(h', name, id)
            && h'.containers.Keys == h.containers.Keys
            && (ok <==> e.Works?)
            && h'.containers[name].running == if Applied(e) then running else h.containers[name].running
  {
    var h' := SetRunning(h, name, running, e).0;
    assert Holds(h', name, id);
    forall other | Holds(h', other, id) ensures other == name {
      if other != name {
        assert Holds(h, other, id);
      }
    }
  }

  lemma {:induction false} NotElsewhere(h: Host, at: Name, name: Name, id: Id)
    requires OnlyAt(h, at, id) && at != name
    ensures Exists(h, id) && !Holds(h, name, id) && !InService(h, name, id)
  {
    assert Holds(h, at, id);
  }

  /** A removal under another name leaves the container where it is. */
  lemma {:induction false} RemovalElsewhere(h: Host, at: Name, id: Id, name: Name, r: Removal)
    requires OnlyAt(h, at, id) && at != name
    ensures var h' := RemoveIfExists(h, name, r).0;
            OnlyAt(h', at, id) && h'.containers[at] == h.containers[at]
  {
    var h' := RemoveIfExists(h, name, r).0;
    assert Holds(h', at, id);
    forall other | Holds(h', other, id) ensures other == at {
      assert Holds(h, other, id);
    }
  }

  lemma {:induction false} RunElsewhere(h: Host, at: Name, id: Id, name: Name, newId: Id, e: Effect, leftover: bool)
    requires OnlyAt(h, at, id) && at != name && newId != id
    ensures var h' := RunNew(h, name, newId, e, leftover).0;
            OnlyAt(h', at, id) && h'.containers[at] == h.containers[at]
  {
    var h' := RunNew(h, name, newId, e, leftover).0;
    assert Holds(h', at, id);
    forall other | Holds(h', other, id) ensures other == at {
      if other != name {
        assert Holds(h, other, id);
      }
    }
  }

  /** The container is still under its name after a preparation that failed. */
  predicate PrepareLeaves(h: Host, saved: Name, sc: PrepareScript) {
    || !sc.look.Works?
    || !Applied(sc.rename)
    || saved in h.containers
    || (sc.rename.Works? && (sc.stop.Refused? || sc.stop.Late?) && Applied(sc.renameBack))
  }

  /** Every step of the preparation works. */
  predicate PreparationWorks(h: Host, saved: Name, sc: PrepareScript) {
    && sc.look.Works? && sc.rename.Works? && saved !in h.containers
    && sc.stop.Works? && sc.stopLegacy.Works?
  }

  /** The container was stopped before the preparation ended, well or not. */
  predicate StoppedOnTheWay(h: Host, saved: Name, sc: PrepareScript) {
    sc.look.Works? && sc.rename.Works? && saved !in h.containers && Applied(sc.stop)
  }

  lemma {:induction false} PrepareMoves(h: Host, name: Name, saved: Name, id: Id, sc: PrepareScript)
    requires OnlyAt(h, name, id) && name != saved
    ensures var (h', state) := Prepare(h, name, saved, sc);
            && (state.Some? ==> state.value == Rollback(saved) && name !in h'.containers
                                && saved in h'.containers && !h'.containers[saved].running)
            && (state.Some? <==> PreparationWorks(h, saved, sc))
            && (if PrepareLeaves(h, saved, sc)
                then state.None? && OnlyAt(h', name, id)
                     && (h'.containers[name].running <==>
                           h.containers[name].running && !StoppedOnTheWay(h, saved, sc))
                else OnlyAt(h', saved, id) && name !in h'.containers)
  {
    RenameMoves(h, name, saved, id, sc.rename);
    var (h1, renamed) := Rename(h, name, saved, sc.rename);
    if sc.look.Works? && renamed {
      SetRunningStays(h1, saved, id, false, sc.stop);
      var h2 := SetRunning(h1, saved, false, sc.stop).0;
      RenameMoves(h2, saved, name, id, sc.renameBack);
    }
    LegacyIsApart(PrepareContainer(h, name, saved, sc).0, Prepare(h, name, saved, sc).0);
  }

  lemma {:induction false} LegacyIsApart(h: Host, h': Host)
    requires h'.containers == h.containers
    ensures forall name, id :: OnlyAt(h, name, id) <==> OnlyAt(h', name, id)
  {
    assert forall name, id :: Holds(h, name, id) <==> Holds(h', name, id);
  }

  // ---- Restoring ----

  /** When the failed release is out of the way after the first attempt to remove it; `taken` says
      that there is a container to remove. */
  predicate Cleared(taken: bool, sc: RollbackScript) {
    !taken || (sc.clear.look.Works? && Applied(sc.clear.remove))
  }

  /** When every command on the way back does its part: of the two attempts to clear the name one
      is enough, and the very last command may even report an error. */
  predicate RestoreGoesThrough(taken: bool, sc: RollbackScript) {
    && sc.lookSaved.Works?
    && sc.lookName.Works?
    && (Cleared(taken, sc) || (sc.clearAgain.look.Works? && sc.clearAgain.remove.Works?))
    && sc.rename.Works?
    && Applied(sc.start)
  }

  lemma {:induction false} RestoreIff(h: Host, name: Name, saved: Name, id: Id, sc: RollbackScript)
    requires OnlyAt(h, saved, id) && !h.containers[saved].running && name != saved
    ensures var h' := RollBack(h, name, Rollback(saved), sc).0;
            InService(h', name, id) <==> RestoreGoesThrough(name in h.containers, sc)
    ensures RollBack(h, name, Rollback(saved), sc).1
       <==> RestoreGoesThrough(name in h.containers, sc) && sc.start.Works?
    ensures Exists(RollBack(h, name, Rollback(saved), sc).0, id)
  {
    RemovalElsewhere(h, saved, id, name, sc.clear);
    var h1 := RemoveIfExists(h, name, sc.clear).0;
    RemovalElsewhere(h1, saved, id, name, sc.clearAgain);
    var h2 := if name in h1.containers then RemoveIfExists(h1, name, sc.clearAgain).0 else h1;
    RestoreEnd(h2, name, saved, id, sc);
    assert name in h1.containers <==> !Cleared(name in h.containers, sc);
    NotElsewhere(h1, saved, name, id);
    NotElsewhere(h2, saved, name, id);
  }

  lemma {:induction false} RestoreEnd(h: Host, name: Name, saved: Name, id: Id, sc: RollbackScript)
    requires OnlyAt(h, saved, id) && !h.containers[saved].running && name != saved
    ensures var (h1, renamed) := Rename(h, saved, name, sc.rename);
            && Exists(h1, id)
            && (!renamed ==> !InService(h1, name, id))
            && (renamed <==> sc.rename.Works? && name !in h.containers)
            && (renamed ==> Exists(SetRunning(h1, name, true, sc.start).0, id)
                            && (InService(SetRunning(h1, name, true, sc.start).0, name, id) <==> Applied(sc.start)))
  {
    RenameMoves(h, saved, name, id, sc.rename);
    var (h1, renamed) := Rename(h, saved, name, sc.rename);
    if Applied(sc.rename) && name !in h.containers {
      NotElsewhere(h1, name, saved, id);
      SetRunningStays(h1, name, id, true, sc.start);
      if renamed {
        NotElsewhere(SetRunning(h1, name, true, sc.start).0, name, saved, id);
      }
    } else {
      NotElsewhere(h1, saved, name, id);
    }
  }

  lemma {:induction false} SetAside(h: Host, name: Name, saved: Name, id: Id, newId: Id, sc: Script)
    requires OnlyAt(h, name, id) && name != saved && id != newId
    ensures var (h1, state) := Prepare(h, name, saved, sc.prepare);
            var h2 := RunNew(h1, name, newId, sc.run, sc.leftover).0;
            state.Some? ==>
              && state.value == Rollback(saved)
              && OnlyAt(h2, saved, id) && !h2.containers[saved].running
              && (name in h2.containers <==> Applied(sc.run) || sc.leftover)
              && (sc.run.Works? ==> InService(h2, name, newId))
  {
    PrepareMoves(h, name, saved, id, sc.prepare);
    var (h1, state) := Prepare(h, name, saved, sc.prepare);
    if state.Some? {
      RunElsewhere(h1, saved, id, name, newId, sc.run, sc.leftover);
    }
  }

  lemma {:induction false} DiscardRemoves(h: Host, saved: Name, id: Id, r: Removal)
    requires OnlyAt(h, saved, id)
    ensures Exists(Discard(h, Rollback(saved), r), id) <==> !(r.look.Works? && Applied(r.remove))
  {
    var h' := Discard(h, Rollback(saved), r);
    if r.look.Works? && Applied(r.remove) {
      forall other ensures !Holds(h', other, id) {
        assert Holds(h', other, id) ==> Holds(h, other, id);
      }
    } else {
      assert Holds(h', saved, id);
    }
  }

  lemma {:induction false} FinishKeeps(h: Host, name: Name, saved: Name, id: Id, newId: Id, sc: Script)
    requires OnlyAt(h, name, id) && name != saved && id != newId
    requires Prepare(h, name, saved, sc.prepare).1.Some?
    ensures var (h1, state) := Prepare(h, name, saved, sc.prepare);
            var (h', verdict) := Finish(h1, name, newId, state.value, sc);
            && (verdict.Failed? ==>
                  && Exists(h', id)
                  && (InService(h', name, id) <==>
                        sc.rollbackStarts && RestoreGoesThrough(Applied(sc.run) || sc.leftover, sc.rollback)))
            && (verdict.Succeeded? ==>
                  && InService(h', name, newId)
                  && (Exists(h', id) <==> !(sc.discard.look.Works? && Applied(sc.discard.remove))))
  {
    SetAside(h, name, saved, id, newId, sc);
    PrepareMoves(h, name, saved, id, sc.prepare);
    var h1 := Prepare(h, name, saved, sc.prepare).0;
    var (h2, started) := RunNew(h1, name, newId, sc.run, sc.leftover);
    if started && sc.healthy {
      DiscardRemoves(h2, saved, id, sc.discard);
    } else {
      NotElsewhere(h2, saved, name, id);
      RestoreIff(h2, name, saved, id, sc.rollback);
    }
  }

  /** When the previous container runs under its name after a documented deploy that failed: with
      a state, if the rollback's commands do their part; without one, if the container ran, was not
      stopped, and kept its name or got it back. */
  predicate ServiceKept(h: Host, name: Name, saved: Name, sc: Script)
    requires name in h.containers
  {
    if sc.readied && PreparationWorks(h, saved, sc.prepare)
    then sc.rollbackStarts && RestoreGoesThrough(Applied(sc.run) || sc.leftover, sc.rollback)
    else
      && h.containers[name].running
      && (sc.readied ==> PrepareLeaves(h, saved, sc.prepare) && !StoppedOnTheWay(h, saved, sc.prepare))
  }

  /** In every documented deploy, whichever commands fail, the previous container is removed by
      nothing but discard_rollback after a success; and after a failure it is in service exactly
      under the condition above. */
  lemma {:induction false} DocumentedDeployKeepsPrevious(h: Host, name: Name, deployment: string, id: Id, newId: Id,
        sc: Script)
    requires OnlyAt(h, name, id) && id != newId
    ensures var (h', verdict) := DocumentedDeploy(h, name, deployment, newId, sc);
            && (verdict.Failed? ==> Exists(h', id))
            && (verdict.Succeeded? ==>
                  && InService(h', name, newId)
                  && (Exists(h', id) <==> !(sc.discard.look.Works? && Applied(sc.discard.remove))))
            && (verdict.Failed? ==>
                  (InService(h', name, id) <==> ServiceKept(h, name, SavedName(name, deployment), sc)))
  {
    var saved := SavedName(name, deployment);
    SavedIsAnotherName(name, deployment);
    PrepareMoves(h, name, saved, id, sc.prepare);
    var h1 := Prepare(h, name, saved, sc.prepare).0;
    if PreparationWorks(h, saved, sc.prepare) {
      FinishKeeps(h, name, saved, id, newId, sc);
    } else if !PrepareLeaves(h, saved, sc.prepare) {
      NotElsewhere(h1, saved, name, id);
    }
    assert Holds(h, name, id);
  }

  /** The rollback's first command, which is meant for the failed release, takes what has the name. */
  predicate ClearsName(sc: Script) {
    sc.rollbackStarts && sc.rollback.clear.look.Works? && Applied(sc.rollback.clear.remove)
  }

  lemma {:induction false} RollBackWithoutState(h: Host, at: Name, id: Id, name: Name, sc: Script)
    requires OnlyAt(h, at, id)
    ensures var (h', verdict) := FailAndRollBack(h, name, NoRollback, sc);
            && (!Exists(h', id) <==>
                  at == name && ClearsName(sc))
            && (at != name ==> OnlyAt(h', at, id) && !InService(h', name, id))
            && (at == name ==> (InService(h', name, id) <==> h.containers[name].running && !ClearsName(sc)))
            && (name !in h.containers ==> name !in h'.containers)
  {
    var h' := FailAndRollBack(h, name, NoRollback, sc).0;
    var h1 := RemoveIfExists(h, name, sc.rollback.clear).0;
    LegacyIsApart(h1, if Applied(sc.rollback.startLegacy) then h1.(legacyUp := true) else h1);
    if at != name {
      RemovalElsewhere(h, at, id, name, sc.rollback.clear);
      NotElsewhere(h', at, name, id);
    } else if ClearsName(sc) {
      forall other ensures !Holds(h', other, id) {
        assert Holds(h', other, id) ==> Holds(h, other, id);
      }
    } else {
      assert Holds(h', at, id);
    }
  }

  /** What the deployer does differs: after a failure the previous container is gone exactly when
      the failure came while it still had its name, and the rollback's first removal, which is
      meant for the failed release, went through. */
  lemma {:induction false} DeployDestroysPreviousIff(h: Host, name: Name, deployment: string, id: Id, newId: Id,
        sc: Script)
    requires OnlyAt(h, name, id) && id != newId
    ensures var (h', verdict) := Deploy(h, name, deployment, newId, sc);
            verdict.Failed? ==>
              (!Exists(h', id) <==>
                 && (!sc.readied || PrepareLeaves(h, SavedName(name, deployment), sc.prepare))
                 && ClearsName(sc))
  {
    var saved := SavedName(name, deployment);
    SavedIsAnotherName(name, deployment);
    PrepareMoves(h, name, saved, id, sc.prepare);
    var (h1, state) := Prepare(h, name, saved, sc.prepare);
    if !sc.readied {
      RollBackWithoutState(h, name, id, name, sc);
    } else if state.None? {
      RollBackWithoutState(h1, if PrepareLeaves(h, saved, sc.prepare) then name else saved, id, name, sc);
    } else {
      FinishKeeps(h, name, saved, id, newId, sc);
    }
  }

  /** And it is in service after a failure exactly where the contract would have kept it so, but for
      the failures without a state in which the rollback's first removal took it. */
  lemma {:induction false} DeployKeepsServiceIff(h: Host, name: Name, deployment: string, id: Id, newId: Id,
        sc: Script)
    requires OnlyAt(h, name, id) && id != newId
    ensures var saved := SavedName(name, deployment);
            var (h', verdict) := Deploy(h, name, deployment, newId, sc);
            verdict.Failed? ==>
              (InService(h', name, id) <==>
                 && ServiceKept(h, name, saved, sc)
                 && (!(sc.readied && PreparationWorks(h, saved, sc.prepare)) ==> !ClearsName(sc)))
  {
    var saved := SavedName(name, deployment);
    SavedIsAnotherName(name, deployment);
    PrepareMoves(h, name, saved, id, sc.prepare);
    var (h1, state) := Prepare(h, name, saved, sc.prepare);
    if !sc.readied {
      RollBackWithoutState(h, name, id, name, sc);
    } else if state.None? {
      RollBackWithoutState(h1, if PrepareLeaves(h, saved, sc.prepare) then name else saved, id, name, sc);
    } else {
      FinishKeeps(h, name, saved, id, newId, sc);
    }
  }

  /** A stop that takes effect and is reported as an error is answered by renaming the container
      back, and by nothing that starts it: even the documented deploy leaves it stopped. */
  lemma {:induction false} LateStopLeavesContainerStopped(h: Host, name: Name, deployment: string, id: Id, newId: Id,
        sc: Script)
    requires OnlyAt(h, name, id) && InService(h, name, id) && id != newId
    requires SavedName(name, deployment) !in h.containers
    requires sc.readied && sc.prepare.look.Works? && sc.prepare.rename.Works?
    requires sc.prepare.stop.Late? && sc.prepare.renameBack.Works?
    ensures var (h', verdict) := DocumentedDeploy(h, name, deployment, newId, sc);
            verdict.Failed? && name in h'.containers && h'.containers[name] == Container(id, false)
  {
    SavedIsAnotherName(name, deployment);
    PrepareMoves(h, name, SavedName(name, deployment), id, sc.prepare);
  }

  /** So an artifact that cannot be verified takes the live container down with it: the contract
      leaves the host as it is, the deployer removes the container, and it reports a good rollback
      unless it can neither start the legacy unit nor write to its log. */
  lemma {:induction false} EarlyFailureDestroysLiveContainer(h: Host, name: Name, deployment: string, id: Id,
        newId: Id, sc: Script)
    requires OnlyAt(h, name, id) && InService(h, name, id) && id != newId
    requires !sc.readied && sc.rollbackStarts && sc.rollback.clear == Removal(Works, Works)
    ensures InService(DocumentedDeploy(h, name, deployment, newId, sc).0, name, id)
    ensures var (h', verdict) := Deploy(h, name, deployment, newId, sc);
            && verdict == Failed(sc.rollback.startLegacy.Works? || sc.rollback.noteWritten)
            && !Exists(h', id) && name !in h'.containers
  {
    DeployDestroysPreviousIff(h, name, deployment, id, newId, sc);
  }

  /** A preparation that fails after the container was set aside strands it: it keeps the other
      name, nothing has its own, and the rollback reports success unless it can neither start the
      legacy unit nor write to its log. */
  lemma {:induction false} FailedPreparationStrands(h: Host, name: Name, deployment: string, id: Id, newId: Id,
        sc: Script)
    requires OnlyAt(h, name, id) && id != newId
    requires sc.readied && sc.rollbackStarts
    requires !PrepareLeaves(h, SavedName(name, deployment), sc.prepare)
    requires !PreparationWorks(h, SavedName(name, deployment), sc.prepare)
    ensures var (h', verdict) := Deploy(h, name, deployment, newId, sc);
            && verdict == Failed(sc.rollback.startLegacy.Works? || sc.rollback.noteWritten)
            && OnlyAt(h', SavedName(name, deployment), id) && name !in h'.containers
  {
    var saved := SavedName(name, deployment);
    SavedIsAnotherName(name, deployment);
    PrepareMoves(h, name, saved, id, sc.prepare);
    RollBackWithoutState(Prepare(h, name, saved, sc.prepare).0, saved, id, name, sc);
  }

  /** The first deployment with docker falls back to the systemd unit that served before. */
  lemma {:induction false} FirstDeployFallsBackToUnit(h: Host, name: Name, deployment: string, newId: Id, sc: Script)
    requires name !in h.containers
    ensures var (h', verdict) := Deploy(h, name, deployment, newId, sc);
            verdict.Failed? && sc.rollbackStarts ==>
              && verdict == Failed(sc.rollback.startLegacy.Works? || sc.rollback.noteWritten)
              && (h'.legacyUp <==>
                    Applied(sc.rollback.startLegacy)
                    || (h.legacyUp && !(sc.readied && sc.prepare.look.Works? && Applied(sc.prepare.stopLegacy))))
  {
  }

  predicate SameAt(h: Host, h': Host, name: Name) {
    && (name in h'.containers <==> name in h.containers)
    && (name in h.containers ==> h'.containers[name] == h.containers[name])
  }

  lemma {:induction false} PrepareSameAt(h: Host, name: Name, saved: Name, sc: PrepareScript, other: Name)
    requires other != name && other != saved
    ensures SameAt(h, Prepare(h, name, saved, sc).0, other)
    ensures var state := Prepare(h, name, saved, sc).1; state.Some? ==> state.value in {NoRollback, Rollback(saved)}
  {
  }

  lemma {:induction false} RollBackSameAt(h: Host, name: Name, saved: Name, state: RollbackState, sc: RollbackScript,
        other: Name)
    requires other != name && other != saved && state in {NoRollback, Rollback(saved)}
    ensures SameAt(h, RollBack(h, name, state, sc).0, other)
  {
    var h1 := RemoveIfExists(h, name, sc.clear).0;
    var h2 := if name in h1.containers then RemoveIfExists(h1, name, sc.clearAgain).0 else h1;
    assert SameAt(h1, h2, other);
  }

  /** Containers of other environments are never touched. */
  lemma {:induction false} DeployTouchesTwoNames(h: Host, name: Name, deployment: string, newId: Id, sc: Script,
        other: Name)
    requires other != name && other != SavedName(name, deployment)
    ensures SameAt(h, Deploy(h, name, deployment, newId, sc).0, other)
  {
    var saved := SavedName(name, deployment);
    var (h1, state) := Prepare(h, name, saved, sc.prepare);
    PrepareSameAt(h, name, saved, sc.prepare, other);
    RollBackSameAt(h, name, saved, NoRollback, sc.rollback, other);
    RollBackSameAt(h1, name, saved, NoRollback, sc.rollback, other);
    if state.Some? {
      FinishSameAt(h1, name, saved, newId, state.value, sc, other);
    }
  }

  lemma {:induction false} FinishSameAt(h: Host, name: Name, saved: Name, newId: Id, state: RollbackState,
        sc: Script, other: Name)
    requires other != name && other != saved && state in {NoRollback, Rollback(saved)}
    ensures SameAt(h, Finish(h, name, newId, state, sc).0, other)
  {
    var h2 := RunNew(h, name, newId, sc.run, sc.leftover).0;
    RollBackSameAt(h2, name, saved, state, sc.rollback, other);
  }

  // ---- Which verdict comes when ----

  /** A deployment succeeds exactly when everything on its way works: without a previous container
      there is only the legacy unit to stop. */
  predicate GoesThrough(h: Host, name: Name, saved: Name, sc: Script) {
    && sc.readied && sc.prepare.look.Works? && sc.prepare.stopLegacy.Works?
    && (name in h.containers ==> sc.prepare.rename.Works? && saved !in h.containers && sc.prepare.stop.Works?)
    && sc.run.Works? && sc.healthy
  }

  lemma {:induction false} VerdictIff(h: Host, name: Name, deployment: string, newId: Id, sc: Script)
    ensures Deploy(h, name, deployment, newId, sc).1.Succeeded?
       <==> GoesThrough(h, name, SavedName(name, deployment), sc)
    ensures DocumentedDeploy(h, name, deployment, newId, sc).1.Succeeded?
       <==> GoesThrough(h, name, SavedName(name, deployment), sc)
  {
    SavedIsAnotherName(name, deployment);
  }

  /** A failed deployment reports a good rollback exactly when the rollback started and, with a
      state, brought the previous container back without an error, or without one, started the legacy
      unit or noted that it could not.  The documented deploy rolls back only with a state. */
  lemma {:induction false} ReportIff(h: Host, name: Name, deployment: string, id: Id, newId: Id, sc: Script)
    requires OnlyAt(h, name, id) && id != newId
    ensures var verdict := Deploy(h, name, deployment, newId, sc).1;
            verdict.Failed? ==>
              (verdict.rollbackReported <==>
                 && sc.rollbackStarts
                 && (if sc.readied && PreparationWorks(h, SavedName(name, deployment), sc.prepare)
                     then RestoreGoesThrough(Applied(sc.run) || sc.leftover, sc.rollback) && sc.rollback.start.Works?
                     else sc.rollback.startLegacy.Works? || sc.rollback.noteWritten))
    ensures var verdict := DocumentedDeploy(h, name, deployment, newId, sc).1;
            verdict.Failed? ==>
              (verdict.rollbackReported <==>
                 && sc.readied && PreparationWorks(h, SavedName(name, deployment), sc.prepare) && sc.rollbackStarts
                 && RestoreGoesThrough(Applied(sc.run) || sc.leftover, sc.rollback) && sc.rollback.start.Works?)
  {
    var saved := SavedName(name, deployment);
    SavedIsAnotherName(name, deployment);
    PrepareMoves(h, name, saved, id, sc.prepare);
    if PreparationWorks(h, saved, sc.prepare) {
      SetAside(h, name, saved, id, newId, sc);
      var h2 := RunNew(Prepare(h, name, saved, sc.prepare).0, name, newId, sc.run, sc.leftover).0;
      RestoreIff(h2, name, saved, id, sc.rollback);
    }
  }

  // ---- After a stranding ----

  datatype Deployment = Deployment(deployment: string, id: Id, sc: Script)

  function DeployAll(h: Host, name: Name, later: seq<Deployment>): Host
    decreases |later|
  {
    if later == [] then h
    else DeployAll(Deploy(h, name, later[0].deployment, later[0].id, later[0].sc).0, name, later[1..])
  }

  lemma {:induction false} SavedNamesDiffer(name: Name, one: string, other: string)
    requires one != other
    ensures SavedName(name, one) != SavedName(name, other)
  {
    var n := |name + "-rollback-"|;
    assert SavedName(name, one)[n..] == one && SavedName(name, other)[n..] == other;
  }

  /** Nobody comes back for a stranded container: whatever later deployments do, it stays as it is
      under the name it was given. */
  lemma {:induction false} StrandedForGood(h: Host, name: Name, deployment: string, later: seq<Deployment>)
    requires forall k :: 0 <= k < |later| ==> later[k].deployment != deployment
    ensures SameAt(h, DeployAll(h, name, later), SavedName(name, deployment))
    decreases |later|
  {
    if later != [] {
      var first, saved := later[0], SavedName(name, deployment);
      var h' := Deploy(h, name, first.deployment, first.id, first.sc).0;
      SavedIsAnotherName(name, deployment);
      SavedNamesDiffer(name, deployment, first.deployment);
      DeployTouchesTwoNames(h, name, first.deployment, first.id, first.sc, saved);
      assert forall k :: 0 <= k < |later[1..]| ==> later[1..][k] == later[k + 1];
      StrandedForGood(h', name, deployment, later[1..]);
    }
  }

  // ---- The program ----

  class DockerHost {
    var containers: map<Name, Container>
    var legacyUp: bool

    ghost function View(): Host
      reads this
    {
      Host(containers, legacyUp)
    }

    method RenameContainer(current: Name, next: Name, e: Effect) returns (ok: bool)
      modifies this
      ensures (View(), ok) == Rename(old(View()), current, next, e)
      ensures var happens := (e == Works || e == Late || e == Lost(true))
                             && current in old(containers) && next !in old(containers);
              && ok == (happens && e == Works)
              && containers == if happens then (old(containers) - {current})[next := old(containers)[current]]
                               else old(containers)
    {
      if !Applied(e) || current !in containers || next in containers {
        return false;
      }
      containers := (containers - {current})[next := containers[current]];
      return e.Works?;
    }

    method StopContainer(name: Name, e: Effect) returns (ok: bool)
      modifies this
      ensures (View(), ok) == SetRunning(old(View()), name, false, e)
      ensures ok == (e == Works && name in old(containers))
      ensures var happens := e == Works || e == Late || e == Lost(true);
              forall other :: other in old(containers) ==>
                other in containers
                && containers[other].id == old(containers)[other].id
                && containers[other].running == (old(containers)[other].running && !(other == name && happens))
      ensures containers.Keys == old(containers).Keys
    {
      if !Applied(e) || name !in containers {
        return false;
      }
      containers := containers[name := containers[name].(running := false)];
      return e.Works?;
    }

    method StartContainer(name: Name, e: Effect) returns (ok: bool)
      modifies this
      ensures (View(), ok) == SetRunning(old(View()), name, true, e)
      ensures ok == (e == Works && name in old(containers))
      ensures var happens := e == Works || e == Late || e == Lost(true);
              forall other :: other in old(containers) ==>
                other in containers
                && containers[other].id == old(containers)[other].id
                && containers[other].running == (old(containers)[other].running || (other == name && happens))
      ensures containers.Keys == old(containers).Keys
    {
      if !Applied(e) || name !in containers {
        return false;
      }
      containers := containers[name := containers[name].(running := true)];
      return e.Works?;
    }

    method RemoveContainerIfExists(name: Name, r: Removal) returns (ok: bool)
      modifies this
      ensures (View(), ok) == RemoveIfExists(old(View()), name, r)
      ensures ok == (r.look == Works && (name in old(containers) ==> r.remove == Works))
      ensures name in containers <==>
                name in old(containers)
                && !(r.look == Works && (r.remove == Works || r.remove == Late || r.remove == Lost(true)))
      ensures name in containers ==> containers == old(containers)
      ensures forall other :: other != name ==> SameAt(old(View()), View(), other)
    {
      if !r.look.Works? {
        return false;
      }
      if name !in containers {
        return true;
      }
      if Applied(r.remove) {
        containers := containers - {name};
      }
      return r.remove.Works?;
    }

    method ActivateDocker(name: Name, id: Id, e: Effect, leftover: bool) returns (ok: bool)
      modifies this
      ensures (View(), ok) == RunNew(old(View()), name, id, e, leftover)
      ensures ok == (e == Works && name !in old(containers))
      ensures name !in old(containers) ==>
                if e == Works || e == Late || e == Lost(true) then InService(View(), name, id)
                else if leftover then name in containers && containers[name] == Container(id, false)
                else name !in containers
      ensures forall other :: other in old(containers) ==> SameAt(old(View()), View(), other)
    {
      if name in containers {
        return false;
      }
      if Applied(e) {
        containers := containers[name := Container(id, true)];
      } else if leftover {
        containers := containers[name := Container(id, false)];
      }
      return e.Works?;
    }

    method PrepareRollbackContainer(name: Name, saved: Name, sc: PrepareScript) returns (state: Option<RollbackState>)
      modifies this
      ensures (View(), state) == PrepareContainer(old(View()), name, saved, sc)
      ensures state == Some(Rollback(saved)) ==>
                name !in containers && saved in containers && !containers[saved].running
      ensures state == Some(NoRollback) ==> name !in containers && View() == old(View())
    {
      if !sc.look.Works? {
        return None;
      }
      if name !in containers {
        return Some(NoRollback);
      }
      var renamed := RenameContainer(name, saved, sc.rename);
      if !renamed {
        return None;
      }
      var stopped := StopContainer(saved, sc.stop);
      if !stopped {
        if !sc.stop.Lost? {
          var _ := RenameContainer(saved, name, sc.renameBack);
        }
        return None;
      }
      return Some(Rollback(saved));
    }

    method PrepareRollback(name: Name, saved: Name, sc: PrepareScript) returns (state: Option<RollbackState>)
      modifies this
      ensures (View(), state) == Prepare(old(View()), name, saved, sc)
      ensures state.Some? ==> name !in containers && !legacyUp
    {
      state := PrepareRollbackContainer(name, saved, sc);
      if state.Some? {
        if Applied(sc.stopLegacy) {
          legacyUp := false;
        }
        if !sc.stopLegacy.Works? {
          state := None;
        }
      }
    }

    method RestoreRollbackContainer(name: Name, saved: Name, sc: RollbackScript) returns (ok: bool)
      modifies this
      ensures (View(), ok) == Restore(old(View()), name, saved, sc)
      ensures ok ==> saved !in containers && saved in old(containers)
                     && InService(View(), name, old(containers)[saved].id)
    {
      if !sc.lookSaved.Works? || saved !in containers || !sc.lookName.Works? {
        return false;
      }
      if name in containers {
        var cleared := RemoveContainerIfExists(name, sc.clearAgain);
        if !cleared {
          return false;
        }
      }
      var renamed := RenameContainer(saved, name, sc.rename);
      if !renamed {
        return false;
      }
      ok := StartContainer(name, sc.start);
    }

    method RollBackRelease(name: Name, state: RollbackState, sc: RollbackScript) returns (ok: bool)
      modifies this
      ensures (View(), ok) == RollBack(old(View()), name, state, sc)
      ensures ok && state.Rollback? ==> state.saved !in containers && name in containers && containers[name].running
    {
      var _ := RemoveContainerIfExists(name, sc.clear);
      match state {
        case Rollback(saved) =>
          ok := RestoreRollbackContainer(name, saved, sc);
        case NoRollback =>
          if Applied(sc.startLegacy) {
            legacyUp := true;
          }
          ok := sc.startLegacy.Works? || sc.noteWritten;
      }
    }

    method DiscardRollback(state: RollbackState, r: Removal)
      modifies this
      ensures View() == Discard(old(View()), state, r)
      ensures forall other :: state == NoRollback || other != state.saved ==> SameAt(old(View()), View(), other)
    {
      if state.Rollback? {
        var _ := RemoveContainerIfExists(state.saved, r);
      }
    }

    method ProcessDeployment(name: Name, deployment: string, id: Id, sc: Script) returns (verdict: Verdict)
      modifies this
      ensures (View(), verdict) == Deploy(old(View()), name, deployment, id, sc)
      ensures verdict.Succeeded? <==> GoesThrough(old(View()), name, SavedName(name, deployment), sc)
      ensures verdict.Succeeded? ==> InService(View(), name, id)
    {
      SavedIsAnotherName(name, deployment);
      VerdictIff(View(), name, deployment, id, sc);
      var state, deployed := NoRollback, false;
      if sc.readied {
        var prepared := PrepareRollback(name, SavedName(name, deployment), sc.prepare);
        if prepared.Some? {
          state := prepared.value;
          deployed := ActivateDocker(name, id, sc.run, sc.leftover);
          deployed := deployed && sc.healthy;
        }
      }
      if deployed {
        DiscardRollback(state, sc.discard);
        return Succeeded;
      }
      if !sc.rollbackStarts {
        return Failed(false);
      }
      var restored := RollBackRelease(name, state, sc.rollback);
      return Failed(restored);
    }
  }
}
