/** The pipeline state of one deployer task: its stages, which of them runs, and which failed.
 */
module TaskPipeline {
  import opened StableSort
  import opened Text

  datatype Status = Running | Succeeded | Failed

  datatype Stage =
    | ResolveCommit | PrepareSource | ReuseRelease | BuildImage | PublishArtifact | RecordRelease
    | PrepareRuntime | PullArtifact | ReserveRollback | StartContainer | LocalHealth | Stability
    | PublicHealth | Rollback | Task

  datatype FailureKind =
    | SourceResolutionFailed | SourceSnapshotFailed | BuildImageFailed | ArtifactPublishFailed
    | ReleaseRecordFailed | RuntimeEnvFailed | ArtifactPullFailed | RollbackReserveFailed
    | RuntimeStartFailed | LocalHealthFailed | StabilityFailed | PublicHealthFailed
    | RollbackFailed | TaskFailed | BuildFailed | DeploymentFailed

  datatype TaskKind = Build | Deployment

  function FailureKindOf(stage: Stage): FailureKind {
    match stage
    case ResolveCommit => SourceResolutionFailed
    case PrepareSource => SourceSnapshotFailed
    case BuildImage => BuildImageFailed
    case PublishArtifact => ArtifactPublishFailed
    case RecordRelease => ReleaseRecordFailed
    case PrepareRuntime => RuntimeEnvFailed
    case PullArtifact => ArtifactPullFailed
    case ReserveRollback => RollbackReserveFailed
    case StartContainer => RuntimeStartFailed
    case LocalHealth => LocalHealthFailed
    case Stability => StabilityFailed
    case PublicHealth => PublicHealthFailed
    case Rollback => RollbackFailed
    case ReuseRelease => TaskFailed
    case Task => TaskFailed
  }

  /** The stages a failure kind comes from. */
  function StagesOf(kind: FailureKind): set<Stage> {
    match kind
    case TaskFailed => {ReuseRelease, Task}
    case SourceResolutionFailed => {ResolveCommit}
    case SourceSnapshotFailed => {PrepareSource}
    case BuildImageFailed => {BuildImage}
    case ArtifactPublishFailed => {PublishArtifact}
    case ReleaseRecordFailed => {RecordRelease}
    case RuntimeEnvFailed => {PrepareRuntime}
    case ArtifactPullFailed => {PullArtifact}
    case RollbackReserveFailed => {ReserveRollback}
    case RuntimeStartFailed => {StartContainer}
    case LocalHealthFailed => {LocalHealth}
    case StabilityFailed => {Stability}
    case PublicHealthFailed => {PublicHealth}
    case RollbackFailed => {Rollback}
    case BuildFailed => {}
    case DeploymentFailed => {}
  }

  lemma {:induction false} KindNamesStage(stage: Stage, kind: FailureKind)
    ensures FailureKindOf(stage) == kind <==> stage in StagesOf(kind)
  {
  }

  function FallbackFailureKind(kind: TaskKind): FailureKind {
    match kind case Build => BuildFailed case Deployment => DeploymentFailed
  }

  datatype StageState = StageState(order: nat, name: Stage, status: Status, summary: string, result: Option<string>)

  datatype State = State(kind: TaskKind, status: Status, currentStage: Option<Stage>, failedStage: Option<Stage>,
                         failureKind: Option<FailureKind>, lastError: Option<string>, stages: seq<StageState>)

  // ---- The updates ----

  function FreshState(kind: TaskKind): State {
    State(kind, Running, None, None, None, None, [])
  }

  const ByOrder: (StageState, StageState) -> bool := (a: StageState, b: StageState) => a.order <= b.order

  /** The first entry with a name, or the number of entries. */
  function IndexOfStage(stages: seq<StageState>, name: Stage): (k: nat)
    ensures k <= |stages|
    ensures k < |stages| ==> stages[k].name == name
    ensures forall j :: 0 <= j < k ==> stages[j].name != name
  {
    if stages == [] || stages[0].name == name then 0 else 1 + IndexOfStage(stages[1..], name)
  }

  /** An entry of the same name is replaced where it stands; otherwise the new entry is added and
      all are sorted by order number. */
  function Upsert(stages: seq<StageState>, next: StageState): seq<StageState> {
    var k := IndexOfStage(stages, next.name);
    if k < |stages| then stages[k := next] else Sort(ByOrder, stages + [next])
  }

  function StartStage(s: State, order: nat, name: Stage, summary: string): State {
    s.(stages := Upsert(s.stages, StageState(order, name, Running, summary, None)), currentStage := Some(name))
  }

  function Finished(stages: seq<StageState>, name: Stage, status: Status, message: string): (r: seq<StageState>)
    ensures |r| == |stages|
    ensures forall k :: 0 <= k < |r| ==> r[k] == if stages[k].name == name
                                                 then stages[k].(status := status, result := Some(message))
                                                 else stages[k]
  {
    if stages == [] then []
    else [if stages[0].name == name then stages[0].(status := status, result := Some(message)) else stages[0]]
         + Finished(stages[1..], name, status, message)
  }

  function FinishStage(s: State, name: Stage, failed: bool, message: string): State {
    if failed then
      s.(stages := Finished(s.stages, name, Failed, message), currentStage := None, status := Failed,
         failedStage := Some(name), failureKind := Some(FailureKindOf(name)), lastError := Some(message))
    else
      s.(stages := Finished(s.stages, name, Succeeded, message), currentStage := None)
  }

  function FinishSuccess(s: State): State {
    s.(status := Succeeded, currentStage := None, failedStage := None, failureKind := None, lastError := None)
  }

  function FinishFailure(s: State, message: string): State {
    s.(status := Failed, currentStage := None, lastError := Some(message),
       failureKind := if s.failureKind.None? then Some(FallbackFailureKind(s.kind)) else s.failureKind)
  }

  // ---- The pipeline object ----

  class Pipeline {
    var state: State

    constructor (kind: TaskKind)
      ensures state == FreshState(kind)
    {
      state := State(kind, Running, None, None, None, None, []);
    }

    method Start(order: nat, name: Stage, summary: string)
      modifies this
      ensures state == StartStage(old(state), order, name, summary)
      ensures state.currentStage == Some(name)
      ensures exists k :: 0 <= k < |state.stages|
                && state.stages[k] == StageState(order, name, Running, summary, None)
      ensures state.(stages := old(state).stages, currentStage := old(state).currentStage) == old(state)
    {
      UpsertHasNext(state.stages, StageState(order, name, Running, summary, None));
      var stages := state.stages;
      var next := StageState(order, name, Running, summary, None);
      var k := 0;
      while k < |stages| && stages[k].name != name
        invariant k <= |stages|
        invariant forall j :: 0 <= j < k ==> stages[j].name != name
      {
        k := k + 1;
      }
      assert k == IndexOfStage(stages, name);
      if k < |stages| {
        stages := stages[k := next];
      } else {
        stages := Sort(ByOrder, stages + [next]);
      }
      state := state.(stages := stages, currentStage := Some(name));
    }

    method Finish(name: Stage, failed: bool, message: string)
      modifies this
      ensures state == FinishStage(old(state), name, failed, message)
      ensures state.currentStage == None && |state.stages| == |old(state).stages|
      ensures forall k :: 0 <= k < |state.stages| ==>
                var stage, was := state.stages[k], old(state).stages[k];
                && stage.name == was.name && stage.order == was.order && stage.summary == was.summary
                && (stage.name == name ==>
                      stage.status == (if failed then Failed else Succeeded) && stage.result == Some(message))
                && (stage.name != name ==> stage == was)
      ensures failed ==> state.status == Failed && state.failedStage == Some(name)
                         && state.failureKind == Some(FailureKindOf(name)) && state.lastError == Some(message)
      ensures !failed ==>
                state.(stages := old(state).stages, currentStage := old(state).currentStage) == old(state)
    {
      var stages := state.stages;
      var status := if failed then Failed else Succeeded;
      ghost var before := stages;
      ghost var after := Finished(stages, name, status, message);
      for k := 0 to |stages|
        invariant |stages| == |before|
        invariant forall j :: 0 <= j < k ==> stages[j] == after[j]
        invariant forall j :: k <= j < |stages| ==> stages[j] == before[j]
      {
        if stages[k].name == name {
          stages := stages[k := stages[k].(status := status, result := Some(message))];
        }
      }
      assert stages == after;
      state := state.(stages := stages, currentStage := None);
      if failed {
        state := state.(status := Failed, failedStage := Some(name), failureKind := Some(FailureKindOf(name)),
                        lastError := Some(message));
      }
    }

    method Succeed()
      modifies this
      ensures state == FinishSuccess(old(state))
      ensures state.status == Succeeded && state.currentStage == None && state.stages == old(state).stages
      ensures state.failedStage == None && state.failureKind == None && state.lastError == None
    {
      state := state.(status := Succeeded, currentStage := None, failedStage := None, failureKind := None,
                      lastError := None);
    }

    method Fail(message: string)
      modifies this
      ensures state == FinishFailure(old(state), message)
      ensures state.status == Failed && state.currentStage == None && state.lastError == Some(message)
      ensures old(state).failureKind.Some? ==> state.failureKind == old(state).failureKind
      ensures old(state).failureKind.None? ==>
                state.failureKind == Some(if state.kind == Build then BuildFailed else DeploymentFailed)
      ensures state.failedStage == old(state).failedStage && state.stages == old(state).stages
    {
      state := state.(status := Failed, currentStage := None);
      if state.failureKind.None? {
        state := state.(failureKind := Some(FallbackFailureKind(state.kind)));
      }
      state := state.(lastError := Some(message));
    }
  }

  // ---- Runs ----

  datatype Event =
    | Started(order: nat, name: Stage, summary: string)
    | StageDone(name: Stage, failed: bool, message: string)
    | SucceedTask
    | FailTask(message: string)

  /** The state, the stages that were started, and those whose handle is still held: finishing a
      stage consumes its handle. */
  datatype World = World(state: State, started: set<Stage>, held: set<Stage>)

  function InitialWorld(kind: TaskKind): World {
    World(FreshState(kind), {}, {})
  }

  function Step(w: World, e: Event): World {
    match e
    case Started(order, name, summary) =>
      World(StartStage(w.state, order, name, summary), w.started + {name}, w.held + {name})
    case StageDone(name, failed, message) =>
      World(FinishStage(w.state, name, failed, message), w.started, w.held - {name})
    case SucceedTask => w.(state := FinishSuccess(w.state))
    case FailTask(message) => w.(state := FinishFailure(w.state, message))
  }

  function Run(w: World, events: seq<Event>): World
    decreases |events|
  {
    if events == [] then w else Run(Step(w, events[0]), events[1..])
  }

  /** Every start of a stage gives it the same order number. */
  ghost predicate FixedOrders(events: seq<Event>, orderOf: map<Stage, nat>) {
    forall k :: 0 <= k < |events| && events[k].Started? ==>
      events[k].name in orderOf && orderOf[events[k].name] == events[k].order
  }

  /** No stage is started twice, and only a held handle is finished. */
  ghost predicate StartsOnce(w: World, events: seq<Event>)
    decreases |events|
  {
    events == [] ||
    (&& (events[0].Started? ==> events[0].name !in w.started)
     && (events[0].StageDone? ==> events[0].name in w.held)
     && StartsOnce(Step(w, events[0]), events[1..]))
  }

  ghost predicate UniqueNames(stages: seq<StageState>) {
    forall i, j :: 0 <= i < j < |stages| ==> stages[i].name != stages[j].name
  }

  ghost predicate HasStatus(stages: seq<StageState>, name: Stage, status: Status) {
    exists k :: 0 <= k < |stages| && stages[k].name == name && stages[k].status == status
  }

  /** What every run with fixed order numbers keeps, whatever is restarted. */
  ghost predicate Ordered(s: State, orderOf: map<Stage, nat>) {
    && UniqueNames(s.stages)
    && Sorted(ByOrder, s.stages)
    && (forall k :: 0 <= k < |s.stages| ==>
          s.stages[k].name in orderOf && orderOf[s.stages[k].name] == s.stages[k].order)
    && (s.currentStage.Some? ==> HasStatus(s.stages, s.currentStage.value, Running))
  }

  lemma {:induction false} ByOrderOrders()
    ensures TotalPreorder(ByOrder)
  {
  }

  lemma {:induction false} UpsertHasNext(stages: seq<StageState>, next: StageState)
    ensures exists k :: 0 <= k < |Upsert(stages, next)| && Upsert(stages, next)[k] == next
  {
    var r := Upsert(stages, next);
    var k := IndexOfStage(stages, next.name);
    if k < |stages| {
      assert r[k] == next;
    } else {
      ByOrderOrders();
      SortSorted(ByOrder, stages + [next]);
      assert next in multiset(stages + [next]);
      assert next in multiset(r);
    }
  }

  lemma {:induction false} UpsertReplaces(stages: seq<StageState>, next: StageState, orderOf: map<Stage, nat>)
    requires UniqueNames(stages) && Sorted(ByOrder, stages)
    requires forall k :: 0 <= k < |stages| ==> stages[k].name in orderOf && orderOf[stages[k].name] == stages[k].order
    requires next.name in orderOf && orderOf[next.name] == next.order
    requires IndexOfStage(stages, next.name) < |stages|
    ensures UniqueNames(Upsert(stages, next)) && Sorted(ByOrder, Upsert(stages, next))
  {
    var k := IndexOfStage(stages, next.name);
    assert stages[k].order == next.order;
  }

  lemma {:induction false} UpsertAdds(stages: seq<StageState>, next: StageState) returns (k: nat)
    requires UniqueNames(stages) && Sorted(ByOrder, stages)
    requires IndexOfStage(stages, next.name) == |stages|
    ensures k <= |stages| && Upsert(stages, next) == stages[..k] + [next] + stages[k..]
    ensures UniqueNames(Upsert(stages, next)) && Sorted(ByOrder, Upsert(stages, next))
  {
    ByOrderOrders();
    SortPush(ByOrder, stages, next);
    InsertSorted(ByOrder, next, stages);
    k := InsertAt(ByOrder, next, stages);
  }

  /** What an upsert does to the entries: the new one is there, the others are as they were. */
  lemma {:induction false} UpsertEntries(stages: seq<StageState>, next: StageState)
    requires UniqueNames(stages) && Sorted(ByOrder, stages)
    ensures next in Upsert(stages, next)
    ensures forall e :: e in Upsert(stages, next) <==> e == next || (e in stages && e.name != next.name)
  {
    var k := IndexOfStage(stages, next.name);
    if k < |stages| {
      var r := Upsert(stages, next);
      assert r[k] == next;
      forall e | e in stages && e.name != next.name ensures e in r {
        var j :| 0 <= j < |stages| && stages[j] == e;
        assert r[j] == e;
      }
    } else {
      var i := UpsertAdds(stages, next);
      assert stages == stages[..i] + stages[i..];
    }
  }

  lemma {:induction false} StartKeepsOrdered(s: State, order: nat, name: Stage, summary: string, orderOf: map<Stage,
        nat>)
    requires Ordered(s, orderOf)
    requires name in orderOf && orderOf[name] == order
    ensures Ordered(StartStage(s, order, name, summary), orderOf)
  {
    var next := StageState(order, name, Running, summary, None);
    var r := Upsert(s.stages, next);
    UpsertEntries(s.stages, next);
    if IndexOfStage(s.stages, name) < |s.stages| {
      UpsertReplaces(s.stages, next, orderOf);
    } else {
      var k := UpsertAdds(s.stages, next);
    }
    forall k | 0 <= k < |r| ensures r[k].name in orderOf && orderOf[r[k].name] == r[k].order {
      assert r[k] in r;
    }
  }

  lemma {:induction false} FinishKeepsOrdered(s: State, name: Stage, failed: bool, message: string,
        orderOf: map<Stage, nat>)
    requires Ordered(s, orderOf)
    ensures Ordered(FinishStage(s, name, failed, message), orderOf)
  {
  }

  lemma {:induction false} StepKeepsOrdered(w: World, e: Event, orderOf: map<Stage, nat>)
    requires Ordered(w.state, orderOf)
    requires e.Started? ==> e.name in orderOf && orderOf[e.name] == e.order
    ensures Ordered(Step(w, e).state, orderOf)
  {
    match e
    case Started(order, name, summary) => StartKeepsOrdered(w.state, order, name, summary, orderOf);
    case StageDone(name, failed, message) => FinishKeepsOrdered(w.state, name, failed, message, orderOf);
    case SucceedTask =>
    case FailTask(message) =>
  }

  /** In every run in which a stage always has the same order number, even one that restarts
      stages, the stages stay unique and sorted, and the current stage is one that runs. */
  lemma {:induction false} RunsStayOrdered(w: World, events: seq<Event>, orderOf: map<Stage, nat>)
    requires Ordered(w.state, orderOf) && FixedOrders(events, orderOf)
    ensures Ordered(Run(w, events).state, orderOf)
    decreases |events|
  {
    if events != [] {
      StepKeepsOrdered(w, events[0], orderOf);
      assert forall k :: 0 <= k < |events[1..]| ==> events[1..][k] == events[k + 1];
      RunsStayOrdered(Step(w, events[0]), events[1..], orderOf);
    }
  }

  /** The failed stage, if one is named, is an entry that failed, with the failure kind of its own. */
  ghost predicate NamedRight(s: State) {
    s.failedStage.Some? ==>
      HasStatus(s.stages, s.failedStage.value, Failed) && s.failureKind == Some(FailureKindOf(s.failedStage.value))
  }

  /** The recorded failure is that of a stage that was started and has been finished. */
  ghost predicate FailureNamed(w: World) {
    && w.held <= w.started
    && (forall k :: 0 <= k < |w.state.stages| ==> w.state.stages[k].name in w.started)
    && NamedRight(w.state)
    && (w.state.failedStage.Some? ==> w.state.failedStage.value in w.started - w.held)
    && (forall name :: name in w.held ==> HasStatus(w.state.stages, name, Running))
  }

  lemma {:induction false} StatusAfterUpsert(stages: seq<StageState>, next: StageState, name: Stage, status: Status)
    requires UniqueNames(stages) && Sorted(ByOrder, stages)
    requires name != next.name && HasStatus(stages, name, status)
    ensures HasStatus(Upsert(stages, next), name, status)
  {
    UpsertEntries(stages, next);
    var k :| 0 <= k < |stages| && stages[k].name == name && stages[k].status == status;
    assert stages[k] in Upsert(stages, next);
  }

  lemma {:induction false} HeldAfterUpsert(stages: seq<StageState>, next: StageState, held: set<Stage>)
    requires UniqueNames(stages) && Sorted(ByOrder, stages)
    requires next.name !in held && forall n :: n in held ==> HasStatus(stages, n, Running)
    ensures forall n :: n in held ==> HasStatus(Upsert(stages, next), n, Running)
  {
    forall n | n in held ensures HasStatus(Upsert(stages, next), n, Running) {
      StatusAfterUpsert(stages, next, n, Running);
    }
  }

  lemma {:induction false} NamesAfterUpsert(stages: seq<StageState>, next: StageState, names: set<Stage>)
    requires UniqueNames(stages) && Sorted(ByOrder, stages)
    requires forall k :: 0 <= k < |stages| ==> stages[k].name in names
    ensures var r := Upsert(stages, next);
            forall k :: 0 <= k < |r| ==> r[k].name in names + {next.name}
    ensures HasStatus(Upsert(stages, next), next.name, next.status)
  {
    UpsertEntries(stages, next);
    var r := Upsert(stages, next);
    forall k | 0 <= k < |r| ensures r[k].name in names + {next.name} {
      assert r[k] in r;
    }
  }

  lemma {:induction false} StartKeepsFailure(w: World, order: nat, name: Stage, summary: string, orderOf: map<Stage,
        nat>)
    requires Ordered(w.state, orderOf) && FailureNamed(w)
    requires name !in w.started
    ensures FailureNamed(Step(w, Started(order, name, summary)))
  {
    var next := StageState(order, name, Running, summary, None);
    var stages := w.state.stages;
    HeldAfterUpsert(stages, next, w.held);
    NamesAfterUpsert(stages, next, w.started);
    if w.state.failedStage.Some? {
      StatusAfterUpsert(stages, next, w.state.failedStage.value, Failed);
    }
  }

  lemma {:induction false} StatusAfterFinish(stages: seq<StageState>, name: Stage, status: Status, message: string,
        n: Stage, st: Status)
    requires HasStatus(stages, n, st)
    ensures HasStatus(Finished(stages, name, status, message), n, if n == name then status else st)
  {
    var k :| 0 <= k < |stages| && stages[k].name == n && stages[k].status == st;
    assert Finished(stages, name, status, message)[k].name == n;
  }

  lemma {:induction false} FinishKeepsFailure(w: World, name: Stage, failed: bool, message: string)
    requires FailureNamed(w) && name in w.held
    ensures FailureNamed(Step(w, StageDone(name, failed, message)))
  {
    var status := if failed then Failed else Succeeded;
    var stages := w.state.stages;
    StatusAfterFinish(stages, name, status, message, name, Running);
    forall n | n in w.held - {name} ensures HasStatus(Finished(stages, name, status, message), n, Running) {
      StatusAfterFinish(stages, name, status, message, n, Running);
    }
    if w.state.failedStage.Some? {
      StatusAfterFinish(stages, name, status, message, w.state.failedStage.value, Failed);
    }
  }

  /** In every run that starts no stage twice, the failed stage is an entry that failed, and the
      failure kind is the one of that stage. */
  lemma {:induction false} RunsNameTheFailure(w: World, events: seq<Event>, orderOf: map<Stage, nat>)
    requires Ordered(w.state, orderOf) && FailureNamed(w)
    requires FixedOrders(events, orderOf) && StartsOnce(w, events)
    ensures FailureNamed(Run(w, events))
    decreases |events|
  {
    if events != [] {
      var e := events[0];
      StepKeepsOrdered(w, e, orderOf);
      match e {
        case Started(order, name, summary) => StartKeepsFailure(w, order, name, summary, orderOf);
        case StageDone(name, failed, message) => FinishKeepsFailure(w, name, failed, message);
        case SucceedTask =>
        case FailTask(message) =>
      }
      assert forall k :: 0 <= k < |events[1..]| ==> events[1..][k] == events[k + 1];
      RunsNameTheFailure(Step(w, e), events[1..], orderOf);
    }
  }

  /** From preparation on. */
  lemma {:induction false} FreshRuns(kind: TaskKind, events: seq<Event>, orderOf: map<Stage, nat>)
    requires FixedOrders(events, orderOf)
    ensures Ordered(Run(InitialWorld(kind), events).state, orderOf)
    ensures StartsOnce(InitialWorld(kind), events) ==> FailureNamed(Run(InitialWorld(kind), events))
  {
    RunsStayOrdered(InitialWorld(kind), events, orderOf);
    if StartsOnce(InitialWorld(kind), events) {
      RunsNameTheFailure(InitialWorld(kind), events, orderOf);
    }
  }

  /** A stage that fails is named, with its kind. */
  lemma {:induction false} FailureIsNamed(kind: TaskKind, order: nat, name: Stage, message: string)
    ensures var events := [Started(order, name, ""), StageDone(name, true, message)];
            var s := Run(InitialWorld(kind), events).state;
            && StartsOnce(InitialWorld(kind), events)
            && s.status == Failed && s.failedStage == Some(name) && s.failureKind == Some(FailureKindOf(name))
            && HasStatus(s.stages, name, Failed) && s.currentStage == None && s.lastError == Some(message)
  {
    var start, done := Started(order, name, ""), StageDone(name, true, message);
    FirstStart(StageState(order, name, Running, "", None));
    var w1 := Step(InitialWorld(kind), start);
    var w2 := Step(w1, done);
    assert [start, done][1..] == [done] && [done][1..] == [];
    assert StartsOnce(w2, [done][1..]) && Run(w2, [done][1..]) == w2;
    assert StartsOnce(w1, [done]) && Run(w1, [done]) == w2;
    assert w2.state.stages[0].status == Failed;
  }

  lemma {:induction false} FirstStart(first: StageState)
    ensures Upsert([], first) == [first]
  {
    ByOrderOrders();
    SortPush(ByOrder, [], first);
    assert [] + [first] == [first];
  }

  lemma {:induction false} RunThree(w: World, a: Event, b: Event, c: Event)
    ensures Run(w, [a, b, c]) == Step(Step(Step(w, a), b), c)
  {
    assert [a, b, c][1..] == [b, c] && [b, c][1..] == [c] && [c][1..] == [];
    assert Run(Step(Step(w, a), b), [c]) == Step(Step(Step(w, a), b), c);
    assert Run(Step(w, a), [b, c]) == Run(Step(Step(w, a), b), [c]);
  }

  // ---- When exactly the name stays right ----

  ghost predicate HasEntry(stages: seq<StageState>, name: Stage) {
    exists k :: 0 <= k < |stages| && stages[k].name == name
  }

  /** The failed stage is neither started again nor finished well, and no failure is reported for a
      stage that has no entry. */
  ghost predicate Harmless(s: State, e: Event) {
    match e
    case Started(_, name, _) => s.failedStage != Some(name)
    case StageDone(name, failed, _) => if failed then HasEntry(s.stages, name) else s.failedStage != Some(name)
    case SucceedTask => true
    case FailTask(_) => true
  }

  lemma {:induction false} StartIsHarmlessIff(s: State, order: nat, name: Stage, summary: string,
        orderOf: map<Stage, nat>)
    requires Ordered(s, orderOf) && NamedRight(s)
    ensures NamedRight(StartStage(s, order, name, summary)) <==> s.failedStage != Some(name)
  {
    var next := StageState(order, name, Running, summary, None);
    UpsertEntries(s.stages, next);
    if s.failedStage == Some(name) {
      var r := Upsert(s.stages, next);
      forall k | 0 <= k < |r| && r[k].name == name ensures r[k].status == Running {
        assert r[k] in r;
      }
    } else if s.failedStage.Some? {
      StatusAfterUpsert(s.stages, next, s.failedStage.value, Failed);
    }
  }

  lemma {:induction false} FailureIsHarmlessIff(s: State, name: Stage, message: string)
    ensures NamedRight(FinishStage(s, name, true, message)) <==> HasEntry(s.stages, name)
  {
    var r := Finished(s.stages, name, Failed, message);
    if HasEntry(s.stages, name) {
      var k :| 0 <= k < |s.stages| && s.stages[k].name == name;
      assert r[k].name == name && r[k].status == Failed;
    }
  }

  lemma {:induction false} SuccessIsHarmlessIff(s: State, name: Stage, message: string)
    requires NamedRight(s)
    ensures NamedRight(FinishStage(s, name, false, message)) <==> s.failedStage != Some(name)
  {
    if s.failedStage.Some? && s.failedStage != Some(name) {
      StatusAfterFinish(s.stages, name, Succeeded, message, s.failedStage.value, Failed);
    }
  }

  /** A step keeps the name of the failed stage right exactly when it is harmless. */
  lemma {:induction false} NameStaysRightIff(w: World, e: Event, orderOf: map<Stage, nat>)
    requires Ordered(w.state, orderOf) && NamedRight(w.state)
    ensures NamedRight(Step(w, e).state) <==> Harmless(w.state, e)
  {
    match e
    case Started(order, name, summary) => StartIsHarmlessIff(w.state, order, name, summary, orderOf);
    case StageDone(name, failed, message) =>
      if failed {
        FailureIsHarmlessIff(w.state, name, message);
      } else {
        SuccessIsHarmlessIff(w.state, name, message);
      }
    case SucceedTask =>
    case FailTask(message) =>
  }

  ghost predicate AlwaysRight(w: World, events: seq<Event>)
    decreases |events|
  {
    NamedRight(w.state) && (events == [] || AlwaysRight(Step(w, events[0]), events[1..]))
  }

  ghost predicate AllHarmless(w: World, events: seq<Event>)
    decreases |events|
  {
    events == [] || (Harmless(w.state, events[0]) && AllHarmless(Step(w, events[0]), events[1..]))
  }

  /** A run with fixed order numbers names its failed stage rightly all along exactly when all of its
      steps are harmless: restarting a stage that succeeded is, restarting the one that failed is
      not. */
  lemma {:induction false} RunsNameRightlyIff(w: World, events: seq<Event>, orderOf: map<Stage, nat>)
    requires Ordered(w.state, orderOf) && NamedRight(w.state) && FixedOrders(events, orderOf)
    ensures AlwaysRight(w, events) <==> AllHarmless(w, events)
    decreases |events|
  {
    if events != [] {
      var w' := Step(w, events[0]);
      NameStaysRightIff(w, events[0], orderOf);
      StepKeepsOrdered(w, events[0], orderOf);
      assert forall k :: 0 <= k < |events[1..]| ==> events[1..][k] == events[k + 1];
      if NamedRight(w'.state) {
        RunsNameRightlyIff(w', events[1..], orderOf);
      }
    }
  }

  /** Restarting a stage that failed leaves the state naming a failed stage that runs. */
  lemma {:induction false} RestartBreaksTheName()
    ensures var start := Started(1, BuildImage, "");
            var events := [start, StageDone(BuildImage, true, "broken"), start];
            var s := Run(InitialWorld(Build), events).state;
            s.failedStage == Some(BuildImage) && HasStatus(s.stages, BuildImage, Running)
            && !HasStatus(s.stages, BuildImage, Failed)
  {
    var w0 := InitialWorld(Build);
    var start, done := Started(1, BuildImage, ""), StageDone(BuildImage, true, "broken");
    var first := StageState(1, BuildImage, Running, "", None);
    FirstStart(first);
    var w1 := Step(w0, start);
    var w2 := Step(w1, done);
    assert |w2.state.stages| == 1 && w2.state.stages[0].name == BuildImage;
    var w3 := Step(w2, start);
    assert w3.state.stages == [first];
    RunThree(w0, start, done, start);
    assert w3.state.stages[0] == first;
  }

  ghost predicate NoFailure(s: State) {
    s.failedStage.None? && s.failureKind.None? && s.lastError.None?
  }

  /** Once the task has succeeded, what is still written about its stages brings no failure back,
      unless a stage or the task itself is reported as failed. */
  lemma {:induction false} SuccessStaysClean(w: World, events: seq<Event>)
    requires forall k :: 0 <= k < |events| ==> !events[k].FailTask? && (events[k].StageDone? ==> !events[k].failed)
    requires w.state.status == Succeeded && NoFailure(w.state)
    ensures var s := Run(w, events).state; s.status == Succeeded && NoFailure(s)
    decreases |events|
  {
    if events != [] {
      assert forall k :: 0 <= k < |events[1..]| ==> events[1..][k] == events[k + 1];
      SuccessStaysClean(Step(w, events[0]), events[1..]);
    }
  }
}
