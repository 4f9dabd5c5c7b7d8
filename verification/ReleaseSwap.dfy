/** The directory swap with which a systemd release is activated: the new build is copied beside
    the current one, the current one is moved out, the new one in, and the old one removed.
 */
module ReleaseSwap {
  import opened Text

  type Build = nat

  /** A directory as the swap can find or leave it.  `Partial` is any content that is not a whole
      build. */
  datatype Dir = Absent | Empty | Partial | Complete(build: Build)

  datatype Layout = Layout(target: Dir, old_: Dir, staging: Dir)

  /** What removing a directory tree did: all of it, or an error that left something behind. */
  datatype Removal = Removed | Left(rest: Dir)

  /** What each command does; what a failed one leaves behind may be anything.  `…Unseen` is a
      `try_exists` that failed, which the source takes for "does not exist". */
  datatype Script = Script(
    stagingUnseen: bool, removeStaging: Removal, copyOk: bool, copyRest: Dir,
    oldUnseen: bool, removeOld: Removal,
    targetUnseen: bool, moveOutOk: bool, moveInOk: bool,
    oldUnseenAfter: bool, removeOldAfter: Removal, restartOk: bool)

  function AfterRemoval(r: Removal): Dir {
    match r case Removed => Absent case Left(rest) => rest
  }

  /** Copying a tree onto a directory that exists puts it inside that directory. */
  function AfterCopy(staging: Dir, build: Build): Dir {
    if staging.Absent? then Complete(build) else Partial
  }

  predicate CanReceive(dir: Dir) { dir.Absent? || dir.Empty? }

  /** The layouts an activation passes through, and whether it succeeds.  Work on a tree shows as
      a partial directory. */
  datatype Outcome = Outcome(ok: bool, trace: seq<Layout>)

  /** The stages of the swap, in their order. */
  datatype Phase = ClearStaging | CopyOutput | ClearOld | MoveOut | MoveIn | RemoveOld

  function Activate(l: Layout, sc: Script, primary: Option<Build>): Outcome {
    match primary
    case None => Outcome(sc.restartOk, [l])
    case Some(build) => From(ClearStaging, l, sc, build)
  }

  function Prefix(first: seq<Layout>, rest: Outcome): Outcome {
    rest.(trace := first + rest.trace)
  }

  function StagesLeft(p: Phase): nat {
    match p
    case ClearStaging => 5
    case CopyOutput => 4
    case ClearOld => 3
    case MoveOut => 2
    case MoveIn => 1
    case RemoveOld => 0
  }

  /** The swap from one of its stages to the end. */
  function From(p: Phase, l: Layout, sc: Script, build: Build): (o: Outcome)
    decreases StagesLeft(p)
  {
    match p
    case ClearStaging =>
      if l.staging.Absent? || sc.stagingUnseen then From(CopyOutput, l, sc, build)
      else
        var l' := l.(staging := AfterRemoval(sc.removeStaging));
        if sc.removeStaging.Left? then Outcome(false, [l, l.(staging := Partial), l'])
        else Prefix([l, l.(staging := Partial)], From(CopyOutput, l', sc, build))
    case CopyOutput =>
      if !sc.copyOk then Outcome(false, [l, l.(staging := Partial), l.(staging := sc.copyRest)])
      else Prefix([l, l.(staging := Partial)], From(ClearOld, l.(staging := AfterCopy(l.staging, build)), sc, build))
    case ClearOld =>
      if l.old_.Absent? || sc.oldUnseen then From(MoveOut, l, sc, build)
      else Prefix([l, l.(old_ := Partial)], From(MoveOut, l.(old_ := AfterRemoval(sc.removeOld)), sc, build))
    case MoveOut =>
      if l.target.Absent? || sc.targetUnseen then From(MoveIn, l, sc, build)
      else if !sc.moveOutOk || !CanReceive(l.old_) then Outcome(false, [l])
      else Prefix([l], From(MoveIn, l.(old_ := l.target, target := Absent), sc, build))
    case MoveIn =>
      if !sc.moveInOk || l.staging.Absent? || !CanReceive(l.target) then Outcome(false, [l])
      else Prefix([l], From(RemoveOld, l.(target := l.staging, staging := Absent), sc, build))
    case RemoveOld =>
      if l.old_.Absent? || sc.oldUnseenAfter then Outcome(sc.restartOk, [l])
      else Outcome(sc.restartOk, [l, l.(old_ := Partial), l.(old_ := AfterRemoval(sc.removeOldAfter))])
  }

  // ---- What survives ----

  predicate Survives(l: Layout) {
    l.target.Complete? || l.old_.Complete? || l.staging.Complete?
  }

  ghost predicate AllSurvive(trace: seq<Layout>) {
    forall k :: 0 <= k < |trace| ==> Survives(trace[k])
  }

  /** A leftover staging directory that the program fails to see. */
  predicate HiddenStaging(l: Layout, sc: Script) {
    !l.staging.Absent? && sc.stagingUnseen
  }

  /** A stage that ends well ends with the new build in the target, and loses nothing before. */
  ghost predicate Good(o: Outcome, build: Build) {
    && AllSurvive(o.trace)
    && o.trace != []
    && (o.ok ==> o.trace[|o.trace| - 1].target == Complete(build))
  }

  lemma {:induction false} GoodPrefix(first: seq<Layout>, rest: Outcome, build: Build)
    requires AllSurvive(first) && Good(rest, build)
    ensures Good(Prefix(first, rest), build)
  {
  }

  lemma {:induction false} PrefixTrace(before: seq<Layout>, first: seq<Layout>, rest: Outcome)
    requires rest.trace != []
    ensures before + first + rest.trace == before + Prefix(first, rest).trace
    ensures Prefix(first, rest).trace[|first| + |rest.trace| - 1] == rest.trace[|rest.trace| - 1]
  {
  }

  lemma {:induction false} MoveInSurvives(l: Layout, sc: Script, build: Build)
    requires l.staging == Complete(build)
    ensures Good(From(MoveIn, l, sc, build), build)
  {
    var l' := l.(target := l.staging, staging := Absent);
    assert Good(From(RemoveOld, l', sc, build), build);
    GoodPrefix([l], From(RemoveOld, l', sc, build), build);
  }

  lemma {:induction false} SwapSurvives(l: Layout, sc: Script, build: Build)
    requires l.staging == Complete(build)
    ensures Good(From(ClearOld, l, sc, build), build)
  {
    var l1 := if l.old_.Absent? || sc.oldUnseen then l else l.(old_ := AfterRemoval(sc.removeOld));
    var l2 := if l1.target.Absent? || sc.targetUnseen then l1 else l1.(old_ := l1.target, target := Absent);
    MoveInSurvives(l2, sc, build);
    GoodPrefix([l1], From(MoveIn, l2, sc, build), build);
    assert Good(From(MoveOut, l1, sc, build), build);
    GoodPrefix([l, l.(old_ := Partial)], From(MoveOut, l1, sc, build), build);
  }

  lemma {:induction false} CopySurvives(l: Layout, sc: Script, build: Build)
    requires l.staging.Absent? && (l.target.Complete? || l.old_.Complete?)
    ensures Good(From(CopyOutput, l, sc, build), build)
  {
    var l' := l.(staging := Complete(build));
    SwapSurvives(l', sc, build);
    GoodPrefix([l, l.(staging := Partial)], From(ClearOld, l', sc, build), build);
  }

  /** From any layout whose target or `.old` is a whole build, and unless a leftover staging
      directory goes unseen, there is a whole build at every moment of the activation, however it
      fails; and where it succeeds, the target is the new build. */
  lemma {:induction false} ActivationSurvives(l: Layout, sc: Script, build: Build)
    requires l.target.Complete? || l.old_.Complete?
    requires !HiddenStaging(l, sc)
    ensures Good(Activate(l, sc, Some(build)), build)
  {
    var cleared := l.(staging := Absent);
    CopySurvives(cleared, sc, build);
    GoodPrefix([l, l.(staging := Partial)], From(CopyOutput, cleared, sc, build), build);
    assert l.staging.Absent? ==> cleared == l;
  }

  const Smooth: Script :=
    Script(false, Removed, true, Absent, false, Removed, false, true, true, false, Removed, true)

  function End(o: Outcome): Layout
    requires o.trace != []
  {
    o.trace[|o.trace| - 1]
  }

  lemma {:induction false} PrefixEnd(first: seq<Layout>, rest: Outcome)
    requires rest.trace != []
    ensures Prefix(first, rest).trace != []
    ensures End(Prefix(first, rest)) == End(rest) && Prefix(first, rest).ok == rest.ok
  {
  }

  /** A leftover staging directory that goes unseen is copied into, not replaced: everything else
      may go well and the activation reports success, but no whole build is left. */
  lemma {:induction false} HiddenStagingLoses(l: Layout, build: Build)
    requires !l.staging.Absent?
    ensures var sc := Smooth.(stagingUnseen := true);
            var o := Activate(l, sc, Some(build));
            HiddenStaging(l, sc) && o.ok && o.trace != [] && End(o) == Layout(Partial, Absent, Absent)
  {
    var sc := Smooth.(stagingUnseen := true);
    var l1 := l.(staging := Partial);
    var l2 := l1.(old_ := Absent);
    var l3 := if l2.target.Absent? then l2 else l2.(old_ := l2.target, target := Absent);
    var l4 := l3.(target := Partial, staging := Absent);
    assert End(From(RemoveOld, l4, sc, build)) == Layout(Partial, Absent, Absent);
    PrefixEnd([l3], From(RemoveOld, l4, sc, build));
    PrefixEnd([l2], From(MoveIn, l3, sc, build));
    PrefixEnd([l1, l1.(old_ := Partial)], From(MoveOut, l2, sc, build));
    PrefixEnd([l, l1], From(ClearOld, l1, sc, build));
    assert l1.old_.Absent? ==> l2 == l1;
  }

  /** Over every failure there is: a whole build is there at every moment exactly when the target or
      `.old` is whole at the start and no staging directory is left over. */
  lemma {:induction false} SurvivesIff(l: Layout, build: Build)
    ensures (forall sc :: AllSurvive(Activate(l, sc, Some(build)).trace))
       <==> (l.target.Complete? || l.old_.Complete?) && l.staging.Absent?
  {
    if !l.staging.Absent? {
      var sc := Smooth.(stagingUnseen := true);
      HiddenStagingLoses(l, build);
      var trace := Activate(l, sc, Some(build)).trace;
      assert !Survives(trace[|trace| - 1]);
    } else if l.target.Complete? || l.old_.Complete? {
      forall sc ensures AllSurvive(Activate(l, sc, Some(build)).trace) {
        ActivationSurvives(l, sc, build);
      }
    } else {
      var sc := Smooth.(copyOk := false);
      var trace := Activate(l, sc, Some(build)).trace;
      assert From(CopyOutput, l, sc, build).trace[2] == l.(staging := Absent);
      assert !Survives(trace[2]);
    }
  }

  lemma {:induction false} MoveInBrings(l: Layout, sc: Script, build: Build)
    ensures var o := From(MoveIn, l, sc, build);
            o.trace != [] && (o.ok ==> End(o).target == l.staging)
  {
    var l' := l.(target := l.staging, staging := Absent);
    assert From(RemoveOld, l', sc, build).trace != [];
    assert End(From(RemoveOld, l', sc, build)).target == l.staging;
    PrefixEnd([l], From(RemoveOld, l', sc, build));
  }

  lemma {:induction false} SwapBrings(l: Layout, sc: Script, build: Build)
    ensures var o := From(ClearOld, l, sc, build);
            o.trace != [] && (o.ok ==> End(o).target == l.staging)
  {
    var l1 := if l.old_.Absent? || sc.oldUnseen then l else l.(old_ := AfterRemoval(sc.removeOld));
    var l2 := if l1.target.Absent? || sc.targetUnseen then l1 else l1.(old_ := l1.target, target := Absent);
    MoveInBrings(l1, sc, build);
    MoveInBrings(l2, sc, build);
    PrefixEnd([l1], From(MoveIn, l2, sc, build));
    PrefixEnd([l, l.(old_ := Partial)], From(MoveOut, l1, sc, build));
  }

  lemma {:induction false} CopyBrings(l: Layout, sc: Script, build: Build)
    ensures var o := From(CopyOutput, l, sc, build);
            o.trace != [] && (o.ok ==> End(o).target == AfterCopy(l.staging, build))
  {
    var l' := l.(staging := AfterCopy(l.staging, build));
    SwapBrings(l', sc, build);
    PrefixEnd([l, l.(staging := Partial)], From(ClearOld, l', sc, build));
  }

  /** From any layout at all, an activation that reports success has put the new build in place
      exactly when no leftover staging directory went unseen. */
  lemma {:induction false} SuccessIsTheNewBuildIff(l: Layout, sc: Script, build: Build)
    ensures var o := Activate(l, sc, Some(build));
            o.trace != [] && (o.ok ==> (End(o).target == Complete(build) <==> !HiddenStaging(l, sc)))
  {
    CopyBrings(l, sc, build);
    var cleared := l.(staging := AfterRemoval(sc.removeStaging));
    CopyBrings(cleared, sc, build);
    PrefixEnd([l, l.(staging := Partial)], From(CopyOutput, cleared, sc, build));
  }

  // ---- Where an activation ends ----

  /** The new build was copied to the staging directory. */
  predicate Copied(l: Layout, sc: Script) {
    (l.staging.Absent? || sc.stagingUnseen || sc.removeStaging.Removed?) && sc.copyOk
  }

  /** Nothing stands where the current build is to be moved. */
  predicate OldIsFree(l: Layout, sc: Script) {
    if l.old_.Absent? || sc.oldUnseen then l.old_.Absent? || l.old_.Empty?
    else sc.removeOld.Removed? || sc.removeOld.rest.Absent? || sc.removeOld.rest.Empty?
  }

  /** The current build was moved out of the target. */
  predicate MovedOut(l: Layout, sc: Script) {
    Copied(l, sc) && !l.target.Absent? && !sc.targetUnseen && sc.moveOutOk && OldIsFree(l, sc)
  }

  /** And what was staged into it. */
  predicate MovedIn(l: Layout, sc: Script) {
    && Copied(l, sc) && sc.moveInOk
    && (l.target.Absent? || (sc.targetUnseen && l.target.Empty?) || MovedOut(l, sc))
  }

  /** What stands in `.old` once the target is taken. */
  function SetAside(l: Layout, sc: Script): Dir {
    if MovedOut(l, sc) then l.target
    else if l.old_.Absent? || sc.oldUnseen then l.old_
    else AfterRemoval(sc.removeOld)
  }

  ghost predicate EndsAs(o: Outcome, l: Layout, sc: Script, staged: Dir) {
    && o.trace != []
    && (o.ok <==> MovedIn(l, sc) && sc.restartOk)
    && End(o).target == (if MovedIn(l, sc) then staged else if MovedOut(l, sc) then Absent else l.target)
    && (MovedIn(l, sc) ==> End(o).staging.Absent?)
    && (MovedIn(l, sc) ==>
          End(o).old_ == if SetAside(l, sc).Absent? || sc.oldUnseenAfter then SetAside(l, sc)
                         else AfterRemoval(sc.removeOldAfter))
    && (!MovedIn(l, sc) && MovedOut(l, sc) ==> End(o).old_ == l.target)
  }

  lemma {:induction false} MoveInEnds(l: Layout, sc: Script, build: Build)
    requires !l.staging.Absent?
    ensures var o := From(MoveIn, l, sc, build);
            var moved := sc.moveInOk && CanReceive(l.target);
            && o.trace != [] && (o.ok <==> moved && sc.restartOk)
            && End(o) == if !moved then l
                         else Layout(l.staging, if l.old_.Absent? || sc.oldUnseenAfter then l.old_
                                                else AfterRemoval(sc.removeOldAfter), Absent)
  {
    var l' := l.(target := l.staging, staging := Absent);
    assert From(RemoveOld, l', sc, build).trace != [];
    PrefixEnd([l], From(RemoveOld, l', sc, build));
  }

  lemma {:induction false} MoveOutEnds(l: Layout, sc: Script, build: Build)
    requires !l.staging.Absent?
    ensures var o := From(MoveOut, l, sc, build);
            var moves := !l.target.Absent? && !sc.targetUnseen;
            var l' := if moves then l.(old_ := l.target, target := Absent) else l;
            && o.trace != []
            && (if moves && (!sc.moveOutOk || !CanReceive(l.old_)) then !o.ok && End(o) == l
                else o.ok == From(MoveIn, l', sc, build).ok && From(MoveIn, l', sc, build).trace != []
                     && End(o) == End(From(MoveIn, l', sc, build)))
  {
    var l' := if l.target.Absent? || sc.targetUnseen then l else l.(old_ := l.target, target := Absent);
    MoveInEnds(l', sc, build);
    PrefixEnd([l], From(MoveIn, l', sc, build));
  }

  lemma {:induction false} SwapEnds(l: Layout, sc: Script, build: Build)
    requires !l.staging.Absent? && Copied(l.(staging := Absent), sc)
    ensures EndsAs(From(ClearOld, l, sc, build), l.(staging := Absent), sc, l.staging)
  {
    var l1 := if l.old_.Absent? || sc.oldUnseen then l else l.(old_ := AfterRemoval(sc.removeOld));
    var l2 := if l1.target.Absent? || sc.targetUnseen then l1 else l1.(old_ := l1.target, target := Absent);
    MoveInEnds(l2, sc, build);
    MoveOutEnds(l1, sc, build);
    PrefixEnd([l, l.(old_ := Partial)], From(MoveOut, l1, sc, build));
    assert From(ClearOld, l, sc, build).ok == From(MoveOut, l1, sc, build).ok;
    assert End(From(ClearOld, l, sc, build)) == End(From(MoveOut, l1, sc, build));
  }

  /** Where every activation ends, whatever fails: it succeeds exactly when the copy, the moves and
      the restart went through; the target then holds what was staged, is gone if only the move in
      failed, and is untouched otherwise; and only what could not be removed stays in `.old`. */
  lemma {:induction false} ActivationEnds(l: Layout, sc: Script, build: Build)
    ensures EndsAs(Activate(l, sc, Some(build)), l, sc, if HiddenStaging(l, sc) then Partial else Complete(build))
  {
    var hidden := l.staging.Absent? || sc.stagingUnseen;
    var l1 := if hidden then l else l.(staging := AfterRemoval(sc.removeStaging));
    var l2 := l1.(staging := AfterCopy(l1.staging, build));
    if Copied(l, sc) {
      SwapEnds(l2, sc, build);
    }
    if sc.copyOk {
      CopyBrings(l1, sc, build);
      SwapBrings(l2, sc, build);
      PrefixEnd([l1, l1.(staging := Partial)], From(ClearOld, l2, sc, build));
    }
    PrefixEnd([l, l.(staging := Partial)], From(CopyOutput, l1, sc, build));
  }

  /** So when nothing fails, every layout ends as the new build alone. */
  lemma {:induction false} SmoothActivation(l: Layout, build: Build)
    ensures var o := Activate(l, Smooth, Some(build));
            o.ok && o.trace != [] && End(o) == Layout(Complete(build), Absent, Absent)
  {
    ActivationEnds(l, Smooth, build);
  }

  // ---- The program ----

  class ReleaseDir {
    var target: Dir
    var old_: Dir
    var staging: Dir
    ghost var trace: seq<Layout>

    ghost function View(): Layout
      reads this
    {
      Layout(target, old_, staging)
    }

    ghost method Note()
      modifies this`trace
      ensures trace == old(trace) + [View()]
    {
      trace := trace + [View()];
    }

    /** Every part of the swap does what its function says, layout by layout. */
    ghost predicate Did(before: seq<Layout>, o: Outcome, ok: bool)
      reads this
    {
      ok == o.ok && trace == before + o.trace && o.trace != [] && View() == o.trace[|o.trace| - 1]
    }

    method Swap(sc: Script, primary: Option<Build>) returns (ok: bool)
      modifies this
      ensures Did(old(trace), Activate(old(View()), sc, primary), ok)
    {
      if primary.None? {
        Note();
        return sc.restartOk;
      }
      ok := RemoveStaleStaging(sc, primary.value);
    }

    method RemoveStaleStaging(sc: Script, build: Build) returns (ok: bool)
      modifies this
      ensures Did(old(trace), From(ClearStaging, old(View()), sc, build), ok)
    {
      if !staging.Absent? && !sc.stagingUnseen {
        Note();
        staging := Partial;
        Note();
        staging := AfterRemoval(sc.removeStaging);
        if sc.removeStaging.Left? {
          Note();
          return false;
        }
        ghost var l := old(View());
        PrefixTrace(old(trace), [l, l.(staging := Partial)], From(CopyOutput, View(), sc, build));
        assert trace == old(trace) + [l, l.(staging := Partial)];
      }
      ok := CopyPrimary(sc, build);
    }

    method CopyPrimary(sc: Script, build: Build) returns (ok: bool)
      modifies this
      ensures Did(old(trace), From(CopyOutput, old(View()), sc, build), ok)
    {
      var copied := AfterCopy(staging, build);
      Note();
      staging := Partial;
      Note();
      if !sc.copyOk {
        staging := sc.copyRest;
        Note();
        return false;
      }
      staging := copied;
      ghost var l := old(View());
      PrefixTrace(old(trace), [l, l.(staging := Partial)], From(ClearOld, View(), sc, build));
      assert trace == old(trace) + [l, l.(staging := Partial)];
      ok := RemoveStaleOld(sc, build);
    }

    method RemoveStaleOld(sc: Script, ghost build: Build) returns (ok: bool)
      modifies this
      ensures Did(old(trace), From(ClearOld, old(View()), sc, build), ok)
    {
      if !old_.Absent? && !sc.oldUnseen {
        Note();
        old_ := Partial;
        Note();
        old_ := AfterRemoval(sc.removeOld);
        ghost var l := old(View());
        PrefixTrace(old(trace), [l, l.(old_ := Partial)], From(MoveOut, View(), sc, build));
        assert trace == old(trace) + [l, l.(old_ := Partial)];
      }
      ok := MoveCurrentOut(sc, build);
    }

    method MoveCurrentOut(sc: Script, ghost build: Build) returns (ok: bool)
      modifies this
      ensures Did(old(trace), From(MoveOut, old(View()), sc, build), ok)
    {
      if !target.Absent? && !sc.targetUnseen {
        Note();
        if !sc.moveOutOk || !CanReceive(old_) {
          return false;
        }
        old_, target := target, Absent;
      }
      ok := MoveNewIn(sc, build);
    }

    method MoveNewIn(sc: Script, ghost build: Build) returns (ok: bool)
      modifies this
      ensures Did(old(trace), From(MoveIn, old(View()), sc, build), ok)
    {
      Note();
      if !sc.moveInOk || staging.Absent? || !CanReceive(target) {
        return false;
      }
      target, staging := staging, Absent;
      ok := RemovePrevious(sc, build);
    }

    method RemovePrevious(sc: Script, ghost build: Build) returns (ok: bool)
      modifies this
      ensures Did(old(trace), From(RemoveOld, old(View()), sc, build), ok)
    {
      Note();
      if !old_.Absent? && !sc.oldUnseenAfter {
        old_ := Partial;
        Note();
        old_ := AfterRemoval(sc.removeOldAfter);
        Note();
      }
      return sc.restartOk;
    }
  }
}
