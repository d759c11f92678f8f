/** What the validator of a task board generation accepts. */
module TaskBoard {
  import opened Options
  import opened TaskText
  import opened TaskTypes
  import TaskGraph

  // ---------------------------------------------------------------- reading files

  predicate ReadsTask(st: Store, id: TaskId, t: Task) {
    t in st.tasks && ValidTask(t) && t.id == id
  }

  predicate ReadsEvent(st: Store, e: Event) {
    e in st.events && ValidEvent(e)
  }

  predicate ReadsGeneration(st: Store, g: Generation) {
    g in st.generations && ValidGeneration(g)
  }

  // ---------------------------------------------------------------- one generation

  function GraphOf(tasks: map<TaskId, Task>): TaskGraph.Graph<TaskId> {
    map id | id in tasks :: tasks[id].dependencies
  }

  /** `_validate_task_graph`. */
  ghost predicate GraphOk(tasks: map<TaskId, Task>) {
    && (forall id <- tasks :: tasks[id].dependencies <= tasks.Keys)
    && (forall id <- tasks :: NeedsDependencies(tasks[id].status) ==> DependenciesDone(tasks, tasks[id].dependencies))
    && TaskGraph.Acyclic(GraphOf(tasks))
  }

  predicate TasksReadable(st: Store, g: Generation) {
    forall id <- g.tasks :: ReadsTask(st, id, g.tasks[id])
  }

  /** The latest-event index points at events that wrote the current task objects. */
  predicate LatestOk(st: Store, g: Generation) {
    forall id <- g.latest ::
      && ReadsEvent(st, g.latest[id])
      && g.latest[id].task == id
      && id in g.tasks && g.latest[id].written == g.tasks[id]
      && g.latest[id].to == g.tasks[id].status
  }

  /** The head event of a generation wrote the task it names, at the generation's time. */
  predicate HeadOk(st: Store, g: Generation, e: Event) {
    && ReadsEvent(st, e)
    && e.task in g.latest && g.latest[e.task] == e
    && e.task in g.tasks && g.tasks[e.task] == e.written
    && ReadsTask(st, e.task, e.written)
    && e.written.status == e.to && e.written.updatedAt == e.createdAt
    && g.createdAt == e.createdAt
  }

  /** `_validate_created_event`. */
  predicate CreatedOk(e: Event, known: set<TaskId>) {
    var t := e.written;
    && e.op == CreateKey(e.idem, Payload(t.content, t.dependencies, e.actor))
    && t.id == TaskId(e.op)
    && t.status == Inbox && t.createdBy == e.actor
    && t.createdAt == e.createdAt && t.updatedAt == e.createdAt
    && !t.extras && t.dependencies <= known
  }

  /** `_validate_transition_event`. */
  predicate TransitionOk(st: Store, e: Event, previous: Task, g: Generation) {
    var t := e.written;
    && Allowed(previous.status, t.status)
    && e.op == TransitionKey(e.idem, t.id, t.status, t.reason, e.actor)
    && t == previous.(status := t.status, reason := t.reason, revision := t.revision, updatedAt := t.updatedAt)
    && (NeedsDependencies(t.status) ==>
          forall d <- t.dependencies :: d in g.tasks && ReadsTask(st, d, g.tasks[d]) && g.tasks[d].status == Done)
  }

  predicate RootOk(g: Generation, e: Event) {
    && g.parentHash.None? && g.count == 1 && |g.tasks| == 1
    && e.previous.None? && e.kind == Created && e.written.revision == 1
    && CreatedOk(e, {})
  }

  /** The tasks, or events, that differ from the parent's. */
  function Changed<T(==)>(parent: map<TaskId, T>, current: map<TaskId, T>): set<TaskId> {
    set id | id in current && (id !in parent || parent[id] != current[id])
  }

  predicate ChildOk(st: Store, g: Generation, e: Event, p: Generation) {
    && g.parentHash == Some(p)
    && g.count == p.count + 1
    && p.createdAt <= g.createdAt
    && e.previous == p.head
    && p.tasks.Keys <= g.tasks.Keys
    && Changed(p.tasks, g.tasks) == {e.task} && Changed(p.latest, g.latest) == {e.task}
    && if e.kind == Created then e.task !in p.tasks && e.written.revision == 1 && CreatedOk(e, p.tasks.Keys)
       else
         && e.task in p.tasks && e.previousTask == Some(p.tasks[e.task])
         && ReadsTask(st, e.task, p.tasks[e.task])
         && RevisionOk(e, p.tasks[e.task])
         && TransitionOk(st, e, p.tasks[e.task], g)
  }

  predicate RevisionOk(e: Event, previous: Task) {
    && e.from == Some(previous.status)
    && e.written.revision == previous.revision + 1
    && e.written.createdAt == previous.createdAt
    && previous.updatedAt <= e.written.updatedAt
  }

  /** One iteration of the ancestry walk, apart from the duplicate checks. */
  predicate StepOk(st: Store, g: Generation) {
    && g.head.Some?
    && HeadOk(st, g, g.head.value)
    && if g.parent.None? then RootOk(g, g.head.value)
       else ReadsGeneration(st, g.parent.value) && ChildOk(st, g, g.head.value, g.parent.value)
  }

  // ---------------------------------------------------------------- the ancestry

  predicate ChainOk(st: Store, g: Generation) {
    StepOk(st, g) && (g.parent.Some? ==> ChainOk(st, g.parent.value))
  }

  function Length(g: Generation): nat {
    1 + if g.parent.None? then 0 else Length(g.parent.value)
  }

  /** `_validate_generation_closure` returns normally. */
  ghost predicate Accepts(st: Store, g: Generation) {
    && TasksReadable(st, g)
    && GraphOk(g.tasks)
    && LatestOk(st, g)
    && ChainOk(st, g)
    && CommandsDistinct(History(g.head))
    && Length(g) == g.count <= MaxEvents
  }

  // ---------------------------------------------------------------- a step is a command

  /** The changed-entries condition determines the successor map. */
  lemma ChangedOne<T>(parent: map<TaskId, T>, current: map<TaskId, T>, id: TaskId)
    requires parent.Keys <= current.Keys && Changed(parent, current) == {id}
    ensures id in current && current == parent[id := current[id]]
  {
    assert id in Changed(parent, current);
    forall x <- current | x != id
      ensures x in parent && parent[x] == current[x]
    {
      assert x !in Changed(parent, current);
    }
  }

  /** A valid creation event is what its own command writes. */
  lemma CreatedIsCommand(b: Board, e: Event)
    requires CreatedOk(e, TasksOf(b).Keys) && ValidEvent(e) && ValidTask(e.written)
    requires e.kind == Created && e.written.revision == 1 && e.previous == HeadOf(b) && e.task == e.written.id
    ensures
      var c := CommandOf(e);
      c.Create? && Accepted(b, c) && EventFor(b, c) == e
  {
    hide IsIdentifier;
    hide Trimmed;
    hide TrimEach;
    hide Stored;
    ValidIsStored(e.written.content);
    IdentifierIsTrimmed(e.actor);
  }

  /** So is a valid transition event. */
  lemma TransitionedIsCommand(st: Store, e: Event, p: Generation, g: Generation)
    requires e.task in p.tasks && RevisionOk(e, p.tasks[e.task]) && TransitionOk(st, e, p.tasks[e.task], g)
    requires ValidEvent(e) && ValidTask(e.written) && e.to == e.written.status && e.written.updatedAt == e.createdAt
    requires e.kind != Created && e.previous == p.head && e.task == e.written.id
    requires e.previousTask == Some(p.tasks[e.task]) && g.tasks == p.tasks[e.task := e.written]
    ensures
      var c := CommandOf(e);
      Accepted(At(p), c) && EventFor(At(p), c) == e
  {
    hide IsIdentifier;
    hide Trimmed;
    hide ValidContent;
    IdentifierIsTrimmed(e.actor);
  }

  lemma RootIsCommand(st: Store, g: Generation)
    requires StepOk(st, g) && g.parent.None? && g.tasks.Keys == g.latest.Keys
    ensures
      var c := CommandOf(g.head.value);
      && c.Create? && Accepted(Empty, c)
      && EventFor(Empty, c) == g.head.value && GenerationFor(Empty, c) == g
  {
    hide CreatedOk;
    hide ValidTask;
    hide ValidEvent;
    hide Accepted;
    hide EventFor;
    var e := g.head.value;
    OnlyEntry(g.tasks, e.task);
    assert |g.latest.Keys| == |g.tasks.Keys|;
    OnlyEntry(g.latest, e.task);
    CreatedIsCommand(Empty, e);
  }

  lemma OnlyEntry<T>(m: map<TaskId, T>, id: TaskId)
    requires |m| == 1 && id in m
    ensures m == map[id := m[id]]
  {
    assert |m.Keys - {id}| == 0;
    assert m.Keys == {id};
  }

  /** A step of the ancestry is exactly a command the service accepts, applied to the parent. */
  lemma StepIsCommand(st: Store, g: Generation)
    requires StepOk(st, g) && g.parent.Some? && g.tasks.Keys == g.latest.Keys
    ensures
      var p, e, c := g.parent.value, g.head.value, CommandOf(g.head.value);
      && Accepted(At(p), c)
      && EventFor(At(p), c) == e && GenerationFor(At(p), c) == g
  {
    hide CreatedOk;
    hide TransitionOk;
    hide RevisionOk;
    hide ValidTask;
    hide ValidEvent;
    hide Accepted;
    hide EventFor;
    var p, e := g.parent.value, g.head.value;
    ChangedOne(p.tasks, g.tasks, e.task);
    ChangedOne(p.latest, g.latest, e.task);
    if e.kind == Created {
      CreatedIsCommand(At(p), e);
    } else {
      TransitionedIsCommand(st, e, p, g);
    }
  }
}
