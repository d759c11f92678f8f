/** Whole-history results about the task board. */
module TaskTheorems {
  import opened Options
  import opened TaskText
  import opened TaskTypes
  import opened TaskBoard
  import opened TaskReplay
  import TaskGraph

  // ---------------------------------------------------------------- dependency closure

  lemma {:induction false} ChainKeepsDone(st: Store, g: Generation)
    requires ChainOk(st, g) && ValidGeneration(g) && CommandsDistinct(History(g.head))
    ensures StartedHaveDone(g.tasks)
    decreases g
  {
    hide Named;
    hide CreatedInChain;
    hide StartedHaveDone;
    var e := g.head.value;
    var c := CommandOf(e);
    DistinctPrefix(History(e.previous), e);
    if g.parent.None? {
      RootIsCommand(st, g);
      NothingNamed();
      NothingStarted();
      CommandKeepsDone(Empty, c);
    } else {
      StepIsCommand(st, g);
      ChainNames(st, g.parent.value);
      ChainKeepsDone(st, g.parent.value);
      CommandKeepsDone(At(g.parent.value), c);
    }
  }

  lemma NothingStarted()
    ensures StartedHaveDone(map[])
  {
  }

  lemma {:induction false} PathOfDone(tasks: map<TaskId, Task>, p: seq<TaskId>)
    requires StartedHaveDone(tasks) && TaskGraph.Path(GraphOf(tasks), p) && Started(tasks[p[0]].status) && |p| >= 2
    ensures tasks[p[|p| - 1]].status == Done
    decreases |p|
  {
    assert p[0 + 1] in GraphOf(tasks)[p[0]];
    if |p| > 2 {
      assert TaskGraph.Path(GraphOf(tasks), p[1..]);
      PathOfDone(tasks, p[1..]);
    }
  }

  /** In an accepted board every task that is ready, running, in review or done has its entire transitive
      dependency closure done, although only direct dependencies are checked, and only on entry. */
  lemma DependencyClosureDone(st: Store, g: Generation, id: TaskId, direct: TaskId, d: TaskId)
    requires Accepts(st, g) && ValidGeneration(g)
    requires id in g.tasks && Started(g.tasks[id].status)
    requires direct in g.tasks[id].dependencies && TaskGraph.Reaches(GraphOf(g.tasks), direct, d)
    ensures d in g.tasks && g.tasks[d].status == Done
  {
    ChainKeepsDone(st, g);
    ClosureOfDone(g.tasks, id, direct, d);
  }

  lemma ClosureOfDone(tasks: map<TaskId, Task>, id: TaskId, direct: TaskId, d: TaskId)
    requires StartedHaveDone(tasks) && id in tasks && Started(tasks[id].status)
    requires direct in tasks[id].dependencies && TaskGraph.Reaches(GraphOf(tasks), direct, d)
    ensures d in tasks && tasks[d].status == Done
  {
    var p :| TaskGraph.Path(GraphOf(tasks), p) && p[0] == direct && p[|p| - 1] == d;
    var q := [id] + p;
    assert TaskGraph.Path(GraphOf(tasks), q);
    PathOfDone(tasks, q);
  }

  // ---------------------------------------------------------------- every command validates, or why not

  /** The conditions the service does not check: text comes without white space around it, the actor is an
      identifier as it stands, a reason is given only when blocking, and time does not run backwards
      across generations. */
  predicate InOrder(b: Board, c: Command) {
    && IsIdentifier(ActorOf(c))
    && (c.Create? ==> Unpadded(c.payload.content))
    && (c.Transition? ==> if c.target == Blocked then c.reason.Some? && Trimmed(c.reason.value) else c.reason.None?)
    && (b.At? ==> b.generation.createdAt <= c.at)
  }

  function Publish(st: Store, b: Board, c: Command): Store
    requires c.Transition? ==> c.task in TasksOf(b)
  {
    Store(st.tasks + {TaskFor(b, c)}, st.events + {EventFor(b, c)}, st.generations + {GenerationFor(b, c)})
  }

  /** The board is empty, or what it points at was accepted and can be read. */
  ghost predicate BoardOk(st: Store, b: Board) {
    b.At? ==> ReadsGeneration(st, b.generation) && Accepts(st, b.generation)
  }

  ghost predicate Extends(a: Store, b: Store) {
    a.tasks <= b.tasks && a.events <= b.events && a.generations <= b.generations
  }

  lemma {:induction false} ChainOkExtends(a: Store, b: Store, g: Generation)
    requires Extends(a, b) && ChainOk(a, g)
    ensures ChainOk(b, g)
    decreases g
  {
    if g.parent.Some? {
      ChainOkExtends(a, b, g.parent.value);
    }
  }

  /** What an accepted board is known to satisfy, besides being readable. */
  ghost predicate BoardFacts(b: Board) {
    && Named(TasksOf(b)) && CreatedInChain(TasksOf(b), History(HeadOf(b)))
    && StartedHaveDone(TasksOf(b))
    && (forall id <- TasksOf(b) :: TasksOf(b)[id].dependencies <= TasksOf(b).Keys)
  }

  lemma AcceptedFacts(st: Store, b: Board)
    requires BoardOk(st, b)
    ensures BoardFacts(b)
  {
    if b.At? {
      ChainNames(st, b.generation);
      ChainKeepsDone(st, b.generation);
    }
  }

  lemma WrittenIsValid(b: Board, c: Command)
    requires Accepted(b, c) && (c.Transition? ==> ValidTask(TasksOf(b)[c.task]))
    ensures ValidTask(TaskFor(b, c)) && (ValidEvent(EventFor(b, c)) <==> IsIdentifier(Trim(ActorOf(c))))
  {
    hide ValidTask;
    hide ValidContent;
    hide IsIdentifier;
    hide EventFor;
    hide DependenciesDone;
    EventIsValidIff(b, c);
    if c.Create? {
      CreatedIsValid(b, c);
    } else {
      MovedIsValid(TasksOf(b)[c.task], c.target, c.reason, c.at);
    }
  }

  lemma EventIsValidIff(b: Board, c: Command)
    requires c.Transition? ==> c.task in TasksOf(b)
    ensures ValidEvent(EventFor(b, c)) <==> IsIdentifier(Trim(ActorOf(c)))
  {
    hide IsIdentifier;
    hide Trimmed;
  }

  lemma CreatedIsValid(b: Board, c: Command)
    requires c.Create? && Accepted(b, c)
    ensures ValidTask(TaskFor(b, c))
  {
    hide ValidContent;
    hide IsIdentifier;
    var id := TaskId(KeyOf(c));
    if id in c.payload.dependencies {
      NotInOwnDependencies(id, id);
    }
  }

  lemma MovedIsValid(t: Task, target: Status, reason: Option<Text>, at: int)
    requires ValidTask(t) && t.updatedAt <= at
    requires target == Blocked ==> reason.Some? && ValidText(Trim(reason.value))
    ensures ValidTask(t.(status := target, reason := if target == Blocked then TrimOption(reason) else None,
                         revision := t.revision + 1, updatedAt := at))
  {
    hide ValidContent;
    hide IsIdentifier;
    hide ValidText;
  }

  lemma NextDependenciesKnown(b: Board, c: Command)
    requires Accepted(b, c) && forall id <- TasksOf(b) :: TasksOf(b)[id].dependencies <= TasksOf(b).Keys
    ensures var tasks := GenerationFor(b, c).tasks; forall id <- tasks :: tasks[id].dependencies <= tasks.Keys
  {
    hide GenerationFor;
    hide EventFor;
    hide TaskFor;
    hide ValidContent;
    hide History;
    Writes(b, c);
  }

  lemma ReadyIsStarted(tasks: map<TaskId, Task>)
    requires StartedHaveDone(tasks)
    ensures forall id <- tasks :: NeedsDependencies(tasks[id].status) ==> DependenciesDone(tasks, tasks[id].dependencies)
  {
  }

  lemma NextGraphOk(b: Board, c: Command)
    requires BoardFacts(b) && Accepted(b, c) && Unused(b, c)
    ensures GraphOk(GenerationFor(b, c).tasks)
  {
    hide Named;
    hide CreatedInChain;
    hide StartedHaveDone;
    hide DependenciesDone;
    hide Unused;
    hide ValidContent;
    hide GenerationFor;
    hide EventFor;
    hide History;
    hide TaskGraph.Acyclic;
    NextDependenciesKnown(b, c);
    CommandNames(b, c);
    CommandKeepsDone(b, c);
    NamedIsAcyclic(GenerationFor(b, c).tasks);
    ReadyIsStarted(GenerationFor(b, c).tasks);
  }

  lemma NextHeadOk(st: Store, b: Board, c: Command)
    requires Accepted(b, c) && ValidTask(TaskFor(b, c))
    requires c.Transition? ==> TasksOf(b)[c.task].id == c.task
    ensures HeadOk(Publish(st, b, c), GenerationFor(b, c), EventFor(b, c)) <==> ValidEvent(EventFor(b, c))
  {
  }

  lemma ChangedExactly<T>(parent: map<TaskId, T>, id: TaskId, v: T)
    requires id !in parent || parent[id] != v
    ensures Changed(parent, parent[id := v]) == {id}
  {
  }

  lemma CreationChildOk(st: Store, g: Generation, c: Command)
    requires c.Create? && Accepted(At(g), c) && TaskId(KeyOf(c)) !in g.tasks && g.tasks.Keys == g.latest.Keys
    ensures ChildOk(st, GenerationFor(At(g), c), EventFor(At(g), c), g) <==> InOrder(At(g), c)
  {
    hide ValidContent;
    hide Trimmed;
    hide IsIdentifier;
    if IsIdentifier(ActorOf(c)) {
      IdentifierIsTrimmed(ActorOf(c));
    }
    var e := EventFor(At(g), c);
    ChangedExactly(g.tasks, e.task, e.written);
    ChangedExactly(g.latest, e.task, e);
  }

  lemma TransitionChildOk(st: Store, g: Generation, c: Command)
    requires c.Transition? && Accepted(At(g), c) && ReadsTask(st, c.task, g.tasks[c.task])
    requires c.task in g.latest && g.latest[c.task].written == g.tasks[c.task]
    requires forall d <- g.tasks[c.task].dependencies :: d in g.tasks ==> ReadsTask(st, d, g.tasks[d])
    requires IsIdentifier(Trim(c.actor))
    ensures ChildOk(st, GenerationFor(At(g), c), EventFor(At(g), c), g) <==> InOrder(At(g), c)
  {
    hide ValidContent;
    hide Trimmed;
    hide IsIdentifier;
    if IsIdentifier(ActorOf(c)) {
      IdentifierIsTrimmed(ActorOf(c));
    }
    var n, e := GenerationFor(At(g), c), EventFor(At(g), c);
    ChangedExactly(g.tasks, e.task, e.written);
    assert g.tasks[c.task] != e.written;
    ChangedExactly(g.latest, e.task, e);
    assert RevisionOk(e, g.tasks[c.task]);
    if NeedsDependencies(c.target) {
      assert forall d <- e.written.dependencies :: n.tasks[d] == g.tasks[d];
    }
    assert e.op.reason == e.written.reason <==> if c.target == Blocked then Trimmed(c.reason.value) else c.reason.None?;
  }

  lemma NextHeadReadable(st: Store, b: Board, c: Command)
    requires BoardOk(st, b) && Accepted(b, c) && Unused(b, c)
    ensures HeadOk(Publish(st, b, c), GenerationFor(b, c), EventFor(b, c)) <==> IsIdentifier(Trim(ActorOf(c)))
  {
    hide HeadOk;
    hide ChainOk;
    hide GraphOk;
    hide LatestOk;
    hide CommandsDistinct;
    AcceptedFacts(st, b);
    WrittenIsValid(b, c);
    NextHeadOk(st, b, c);
  }

  lemma NextChildOkIff(st: Store, g: Generation, c: Command)
    requires BoardOk(st, At(g)) && Accepted(At(g), c) && Unused(At(g), c) && IsIdentifier(Trim(ActorOf(c)))
    ensures ChildOk(Publish(st, At(g), c), GenerationFor(At(g), c), EventFor(At(g), c), g) <==> InOrder(At(g), c)
  {
    hide ChildOk;
    hide ChainOk;
    hide GraphOk;
    hide CommandsDistinct;
    hide GenerationFor;
    hide EventFor;
    hide InOrder;
    var st' := Publish(st, At(g), c);
    AcceptedFacts(st, At(g));
    if c.Create? {
      NewTaskIsNew(At(g), c);
      CreationChildOk(st', g, c);
    } else {
      TransitionChildOk(st', g, c);
    }
  }

  lemma NextRootOk(c: Command)
    requires Accepted(Empty, c)
    ensures RootOk(GenerationFor(Empty, c), EventFor(Empty, c)) <==> InOrder(Empty, c)
  {
    hide ValidContent;
    hide Trimmed;
    hide IsIdentifier;
    if IsIdentifier(ActorOf(c)) {
      IdentifierIsTrimmed(ActorOf(c));
    }
  }

  lemma PaddedActor(b: Board, c: Command)
    ensures InOrder(b, c) ==> IsIdentifier(Trim(ActorOf(c)))
  {
    if InOrder(b, c) {
      IdentifierIsTrimmed(ActorOf(c));
    }
  }

  lemma NextStepOkIff(st: Store, b: Board, c: Command)
    requires BoardOk(st, b) && Accepted(b, c) && Unused(b, c)
    ensures StepOk(Publish(st, b, c), GenerationFor(b, c)) <==> InOrder(b, c)
  {
    hide HeadOk;
    hide ChildOk;
    hide RootOk;
    hide Accepts;
    hide Accepted;
    hide EventFor;
    hide InOrder;
    NextHeadReadable(st, b, c);
    if !IsIdentifier(Trim(ActorOf(c))) {
      PaddedActor(b, c);
    } else if b.At? {
      NextChildOkIff(st, b.generation, c);
    } else {
      NextRootOk(c);
    }
  }

  lemma NextIndexesOk(st: Store, b: Board, c: Command)
    requires BoardOk(st, b) && Accepted(b, c) && ValidTask(TaskFor(b, c)) && ValidEvent(EventFor(b, c))
    ensures TasksReadable(Publish(st, b, c), GenerationFor(b, c)) && LatestOk(Publish(st, b, c), GenerationFor(b, c))
  {
    hide ChainOk;
    hide GraphOk;
    hide ValidTask;
    hide ValidEvent;
    hide CommandsDistinct;
    hide ValidGeneration;
    hide ValidContent;
    hide EventFor;
    hide TaskFor;
    hide History;
    hide DependenciesDone;
    Writes(b, c);
  }

  lemma FirstIsValid(e: Event, at: int)
    ensures ValidGeneration(Generation(None, None, map[e.task := e.written], map[e.task := e], Some(e), 1, at))
  {
    var tasks, latest := map[e.task := e.written], map[e.task := e];
    assert tasks.Keys == {e.task} == latest.Keys;
    assert latest[e.task] == e;
  }

  lemma SuccessorIsValid(g: Generation, e: Event, at: int)
    requires ValidGeneration(g) && g.count < MaxEvents
    ensures ValidGeneration(Generation(Some(g), Some(g), g.tasks[e.task := e.written], g.latest[e.task := e],
                                       Some(e), g.count + 1, at))
  {
    var tasks, latest := g.tasks[e.task := e.written], g.latest[e.task := e];
    assert tasks.Keys == g.tasks.Keys + {e.task} == latest.Keys;
    assert latest[e.task] == e && e.task in tasks;
  }

  lemma NextIsValid(st: Store, b: Board, c: Command)
    requires BoardOk(st, b) && Accepted(b, c) && GenerationFor(b, c).count <= MaxEvents
    ensures ValidGeneration(GenerationFor(b, c))
  {
    hide Accepts;
    hide EventFor;
    hide ValidContent;
    hide ValidGeneration;
    if b.At? {
      SuccessorIsValid(b.generation, EventFor(b, c), c.at);
    } else {
      FirstIsValid(EventFor(b, c), c.at);
    }
  }

  lemma NextChainOk(st: Store, b: Board, c: Command)
    requires BoardOk(st, b) && Accepted(b, c) && Unused(b, c)
    ensures
      var n := GenerationFor(b, c);
      && (ChainOk(Publish(st, b, c), n) <==> InOrder(b, c))
      && CommandsDistinct(History(n.head))
      && Length(n) == n.count
  {
    hide StepOk;
    hide GraphOk;
    hide TasksReadable;
    hide LatestOk;
    NextStepOkIff(st, b, c);
    DistinctPrefix(History(HeadOf(b)), EventFor(b, c));
    if b.At? {
      ChainOkExtends(st, Publish(st, b, c), b.generation);
    }
  }

  /** A new command that passes the checks of the service yields a generation the validator accepts exactly
      when its text and actor come without padding, it gives a reason only for blocking, its time is not
      before the board's, and the board has room for one more event. */
  lemma CommandValidatesIff(st: Store, b: Board, c: Command)
    requires BoardOk(st, b) && Accepted(b, c) && Unused(b, c)
    ensures
      var n := GenerationFor(b, c);
      && (Accepts(Publish(st, b, c), n) <==> InOrder(b, c) && n.count <= MaxEvents)
      && (n.count <= MaxEvents ==> ValidGeneration(n))
  {
    AcceptedFacts(st, b);
    assert forall id <- TasksOf(b) :: ValidTask(TasksOf(b)[id]);
    WrittenIsValid(b, c);
    PaddedActor(b, c);
    if ValidEvent(EventFor(b, c)) {
      NextIndexesOk(st, b, c);
    }
    if GenerationFor(b, c).count <= MaxEvents {
      NextIsValid(st, b, c);
    }
    NextGraphOk(b, c);
    NextChainOk(st, b, c);
    hide GraphOk;
    hide ChainOk;
    hide TasksReadable;
    hide LatestOk;
    hide GenerationFor;
    hide ValidGeneration;
    hide BoardFacts;
  }

  // ---------------------------------------------------------------- the walk alone decides

  lemma RootIndexes(st: Store, g: Generation)
    requires StepOk(st, g) && g.parent.None? && g.tasks.Keys == g.latest.Keys
    ensures TasksReadable(st, g) && LatestOk(st, g)
  {
    hide CreatedOk;
    hide ValidTask;
    hide ValidEvent;
    var e := g.head.value;
    OnlyEntry(g.tasks, e.task);
    assert |g.latest.Keys| == |g.tasks.Keys|;
    OnlyEntry(g.latest, e.task);
  }

  lemma NextIndexes(st: Store, g: Generation)
    requires StepOk(st, g) && g.parent.Some? && g.tasks.Keys == g.latest.Keys
    requires TasksReadable(st, g.parent.value) && LatestOk(st, g.parent.value)
    ensures TasksReadable(st, g) && LatestOk(st, g)
  {
    hide CreatedOk;
    hide TransitionOk;
    hide RevisionOk;
    hide ValidTask;
    hide ValidEvent;
    hide ValidGeneration;
    var p, e := g.parent.value, g.head.value;
    ChangedOne(p.tasks, g.tasks, e.task);
    ChangedOne(p.latest, g.latest, e.task);
  }

  lemma {:induction false} ChainIndexes(st: Store, g: Generation)
    requires ChainOk(st, g) && ValidGeneration(g)
    ensures TasksReadable(st, g) && LatestOk(st, g)
    ensures forall id <- g.tasks :: g.tasks[id].dependencies <= g.tasks.Keys
    decreases g
  {
    hide TasksReadable;
    hide LatestOk;
    hide Accepted;
    hide EventFor;
    hide HeadOk;
    hide ChildOk;
    hide RootOk;
    ValidIndexes(g);
    if g.parent.None? {
      RootIndexes(st, g);
      RootIsCommand(st, g);
      NextDependenciesKnown(Empty, CommandOf(g.head.value));
    } else {
      Follows(st, g);
      ChainIndexes(st, g.parent.value);
      NextIndexes(st, g);
      StepIsCommand(st, g);
      NextDependenciesKnown(At(g.parent.value), CommandOf(g.head.value));
    }
  }

  lemma ValidIndexes(g: Generation)
    requires ValidGeneration(g)
    ensures g.tasks.Keys == g.latest.Keys
  {
  }

  /** The walk over the ancestry alone decides: what it accepts has readable tasks, an acyclic graph with finished
      dependencies and a right latest-event index, so the checks of these never refuse anything else. */
  lemma AcceptsIffWalked(st: Store, g: Generation)
    requires ValidGeneration(g)
    ensures Accepts(st, g) <==>
      ChainOk(st, g) && CommandsDistinct(History(g.head)) && Length(g) == g.count && g.count <= 10_000
  {
    hide TasksReadable;
    hide LatestOk;
    hide Named;
    hide StartedHaveDone;
    hide DependenciesDone;
    hide StepOk;
    if ChainOk(st, g) && CommandsDistinct(History(g.head)) {
      ChainIndexes(st, g);
      ChainNames(st, g);
      ChainKeepsDone(st, g);
      NamedIsAcyclic(g.tasks);
      ReadyIsStarted(g.tasks);
    }
  }

  // ---------------------------------------------------------------- concrete commands

  /** A board with one task, created at time 5. */
  function Plan(): Payload {
    Payload(Content("Plan", "", Normal, "project_default", None, {}, {}, {}), {}, "user:local")
  }

  function OneTask(): Generation {
    GenerationFor(Empty, Create(Plan(), 0, 5))
  }

  function OneTaskStore(): Store {
    Publish(Store({}, {}, {}), Empty, Create(Plan(), 0, 5))
  }

  lemma PlanIsValid()
    ensures ValidContent(Plan().content) && Stored(Plan().content) == Plan().content
    ensures IsIdentifier(Plan().actor) && Trim(Plan().actor) == Plan().actor
  {
    assert IsIdentifier("project_default") && IsIdentifier("user:local");
    IdentifierIsTrimmed("user:local");
    ValidIsStored(Plan().content);
  }

  lemma OneTaskIsAccepted()
    ensures BoardOk(OneTaskStore(), At(OneTask()))
    ensures OneTask().createdAt == 5
    ensures History(OneTask().head) == [EventFor(Empty, Create(Plan(), 0, 5))] && OneTask().count == 1
    ensures OneTask().tasks == map[TaskId(CreateKey(0, Plan())) := TaskFor(Empty, Create(Plan(), 0, 5))]
  {
    PlanIsValid();
    CommandValidatesIff(Store({}, {}, {}), Empty, Create(Plan(), 0, 5));
  }

  /** A command passes every check of the service on the board with one task and is refused by the validator. */
  ghost predicate RefusedLate(c: Command) {
    var b := At(OneTask());
    && Accepted(b, c) && Unused(b, c) && Fits(b, c)
    && !Accepts(Publish(OneTaskStore(), b, c), GenerationFor(b, c))
  }

  lemma OutOfOrderIsRefused(c: Command)
    requires Accepted(At(OneTask()), c) && c.idem != 0 && !InOrder(At(OneTask()), c)
    ensures RefusedLate(c)
  {
    hide Accepts;
    hide BoardOk;
    hide Accepted;
    hide InOrder;
    hide OneTask;
    hide OneTaskStore;
    hide TaskFor;
    hide GenerationFor;
    OneTaskIsAccepted();
    assert |OneTask().tasks| == 1;
    CommandValidatesIff(OneTaskStore(), At(OneTask()), c);
  }

  /** Planning the task with a reason. */
  lemma ReasonWithoutBlockingIsRefused()
    ensures RefusedLate(Transition(TaskId(CreateKey(0, Plan())), Planned, Some("later"), "user:local", 1, 6))
  {
    hide RefusedLate;
    hide Accepts;
    hide BoardOk;
    hide OneTask;
    hide OneTaskStore;
    hide ValidContent;
    hide ValidText;
    hide Stored;
    hide Trim;
    OneTaskIsAccepted();
    OutOfOrderIsRefused(Transition(TaskId(CreateKey(0, Plan())), Planned, Some("later"), "user:local", 1, 6));
  }

  /** Creating a second task at an earlier time. */
  lemma EarlierCreationIsRefused()
    ensures RefusedLate(Create(Plan(), 1, 4))
  {
    hide RefusedLate;
    hide Accepts;
    hide BoardOk;
    hide OneTask;
    hide OneTaskStore;
    hide ValidContent;
    hide ValidText;
    hide Stored;
    hide Trim;
    OneTaskIsAccepted();
    PlanIsValid();
    OutOfOrderIsRefused(Create(Plan(), 1, 4));
  }

  /** Creating a task whose title ends in a space. */
  lemma PaddedTitleIsRefused()
    ensures RefusedLate(Create(Plan().(content := Plan().content.(title := "Plan ")), 1, 6))
  {
    hide RefusedLate;
    hide Accepts;
    hide BoardOk;
    hide OneTask;
    hide OneTaskStore;
    PlanIsValid();
    TrimOfPadded("", "Plan", " ");
    assert Stored(Plan().content.(title := "Plan ")) == Plan().content;
    OutOfOrderIsRefused(Create(Plan().(content := Plan().content.(title := "Plan ")), 1, 6));
  }

  /** Cancelling the task as an actor whose name ends in a space. */
  lemma PaddedActorIsRefused()
    ensures RefusedLate(Transition(TaskId(CreateKey(0, Plan())), Cancelled, None, "user:local ", 1, 6))
  {
    hide RefusedLate;
    hide Accepts;
    hide BoardOk;
    hide OneTask;
    hide OneTaskStore;
    hide ValidContent;
    hide ValidText;
    hide Stored;
    hide Trim;
    OneTaskIsAccepted();
    assert !IdentifierChar("user:local "[10]);
    OutOfOrderIsRefused(Transition(TaskId(CreateKey(0, Plan())), Cancelled, None, "user:local ", 1, 6));
  }

  // ---------------------------------------------------------------- exactly once

  datatype Lookup = Found(event: Event) | KeyReused | NotFound

  /** What `_find_operation` finds walking back from the newest event. */
  function Find(e: Option<Event>, op: OperationKey, idem: Idem): Lookup {
    if e.None? then NotFound
    else if e.value.op == op then Found(e.value)
    else if e.value.idem == idem then KeyReused
    else Find(e.value.previous, op, idem)
  }

  predicate OnChain(g: Generation, later: Generation) {
    g == later || (later.parent.Some? && OnChain(g, later.parent.value))
  }

  /** The generation of the ancestry whose head is the event. */
  function WithHead(g: Generation, e: Event): Option<Generation> {
    if g.head == Some(e) then Some(g)
    else if g.parent.None? then None
    else WithHead(g.parent.value, e)
  }

  lemma {:induction false} FindsOriginal(st: Store, g: Generation, later: Generation)
    requires ChainOk(st, later) && OnChain(g, later) && CommandsDistinct(History(later.head))
    ensures g.head.Some? && g.head.value in History(later.head)
    ensures Find(later.head, g.head.value.op, g.head.value.idem) == Found(g.head.value)
    ensures WithHead(later, g.head.value) == Some(g)
    ensures forall op :: op != g.head.value.op ==> !Find(later.head, op, g.head.value.idem).NotFound?
    decreases later
  {
    var e := later.head.value;
    assert History(later.head) == History(e.previous) + [e];
    DistinctPrefix(History(e.previous), e);
    if g != later {
      FindsOriginal(st, g, later.parent.value);
      assert g.head.value in History(e.previous);
    }
  }

  lemma {:induction false} KeyCarriesIdem(st: Store, g: Generation, op: OperationKey)
    requires ChainOk(st, g) && Find(g.head, op, op.idem).Found?
    ensures var e := Find(g.head, op, op.idem).event; e in History(g.head) && e.op == op && e.idem == op.idem
    decreases g
  {
    if g.head.value.op != op && g.parent.Some? {
      KeyCarriesIdem(st, g.parent.value, op);
    }
  }

  /** Reissuing a command after any number of later commands finds the event of its first commit, the
      generation that commit made and the task it wrote. */
  lemma ReissueFindsFirstCommit(st: Store, b: Board, c: Command, later: Generation)
    requires Accepted(b, c) && OnChain(GenerationFor(b, c), later) && Accepts(st, later)
    ensures
      var g, e := GenerationFor(b, c), EventFor(b, c);
      && Find(later.head, KeyOf(c), c.idem) == Found(e)
      && WithHead(later, e) == Some(g)
      && g.tasks[e.task] == e.written == TaskFor(b, c)
  {
    FindsOriginal(st, GenerationFor(b, c), later);
  }

  /** Using the idempotency key of a committed command for a different command is always refused. */
  lemma ReusedKeyIsRefused(st: Store, b: Board, c: Command, later: Generation, other: Command)
    requires Accepted(b, c) && OnChain(GenerationFor(b, c), later) && Accepts(st, later)
    requires other.idem == c.idem && KeyOf(other) != KeyOf(c)
    ensures Find(later.head, KeyOf(other), other.idem) == KeyReused
  {
    var e := EventFor(b, c);
    FindsOriginal(st, GenerationFor(b, c), later);
    if Find(later.head, KeyOf(other), other.idem).Found? {
      KeyCarriesIdem(st, later, KeyOf(other));
      var x := Find(later.head, KeyOf(other), other.idem).event;
      SameIdemSameEvent(History(later.head), x, e);
    }
  }

  /** Every event of an accepted chain carries the idempotency key of its operation. */
  lemma {:induction false} ChainIdems(st: Store, g: Generation)
    requires ChainOk(st, g)
    ensures forall e <- History(g.head) :: e.op.idem == e.idem
    decreases g
  {
    hide HeadOk;
    hide ChildOk;
    hide RootOk;
    Follows(st, g);
    var e := g.head.value;
    assert History(g.head) == History(e.previous) + [e];
    if g.parent.Some? {
      ChainIdems(st, g.parent.value);
    }
  }

  /** What the lookup finds, in terms of the whole history. */
  lemma {:induction false} FindMeans(e: Option<Event>, op: OperationKey)
    requires CommandsDistinct(History(e)) && forall x <- History(e) :: x.op.idem == x.idem
    ensures
      match Find(e, op, op.idem)
      case Found(x) => x in History(e) && x.op == op
      case KeyReused => (forall x <- History(e) :: x.op != op) && exists x <- History(e) :: x.idem == op.idem
      case NotFound => forall x <- History(e) :: x.op != op && x.idem != op.idem
    decreases e
  {
    if e.Some? {
      assert History(e) == History(e.value.previous) + [e.value];
      DistinctPrefix(History(e.value.previous), e.value);
      FindMeans(e.value.previous, op);
      assert e.value in History(e);
    }
  }

  lemma {:induction false} WithHeadMeans(g: Generation, e: Event)
    requires WithHead(g, e).Some?
    ensures WithHead(g, e).value.head == Some(e) && OnChain(WithHead(g, e).value, g)
    decreases g
  {
    if g.head != Some(e) {
      WithHeadMeans(g.parent.value, e);
    }
  }

  lemma {:induction false} WithoutHead(g: Generation, e: Event, h: Generation)
    requires WithHead(g, e).None? && OnChain(h, g)
    ensures h.head != Some(e)
    decreases g
  {
    if h != g {
      WithoutHead(g.parent.value, e, h);
    }
  }

  lemma SameIdemSameEvent(es: seq<Event>, x: Event, y: Event)
    requires CommandsDistinct(es) && x in es && y in es && x.idem == y.idem
    ensures x == y
  {
    var i :| 0 <= i < |es| && es[i] == x;
    var j :| 0 <= j < |es| && es[j] == y;
    assert !(i < j) && !(j < i);
  }

  lemma {:induction false} FindIsUnused(e: Option<Event>, c: Command)
    requires Find(e, KeyOf(c), c.idem).NotFound?
    ensures forall x <- History(e) :: x.op != KeyOf(c) && x.idem != c.idem
    decreases e
  {
    if e.Some? {
      FindIsUnused(e.value.previous, c);
    }
  }
}
