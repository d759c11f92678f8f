/** Entities of the task board.

    Identifiers and object hashes are digests of canonical material; each is modelled by the
    material itself.  A task identifier therefore contains the operation that created it, an event
    its predecessor, and a generation its parent.
 */
module TaskTypes {
  import opened Options
  import opened TaskText

  datatype Status = Inbox | Planned | Ready | Running | Review | Blocked | Done | Cancelled

  predicate Allowed(from: Status, to: Status) {
    match from
    case Inbox => to == Planned || to == Cancelled
    case Planned => to == Ready || to == Blocked || to == Cancelled
    case Ready => to == Running || to == Blocked || to == Cancelled
    case Running => to == Review || to == Blocked || to == Cancelled
    case Review => to == Done || to == Running || to == Blocked || to == Cancelled
    case Blocked => to == Planned || to == Ready || to == Running || to == Cancelled
    case Done => false
    case Cancelled => false
  }

  /** The whole table: 19 moves, none of which leaves a finished task. */
  lemma AllowedMoves(from: Status, to: Status)
    ensures Allowed(from, to) <==> (from, to) in {
      (Inbox, Planned), (Inbox, Cancelled),
      (Planned, Ready), (Planned, Blocked), (Planned, Cancelled),
      (Ready, Running), (Ready, Blocked), (Ready, Cancelled),
      (Running, Review), (Running, Blocked), (Running, Cancelled),
      (Review, Done), (Review, Running), (Review, Blocked), (Review, Cancelled),
      (Blocked, Planned), (Blocked, Ready), (Blocked, Running), (Blocked, Cancelled)}
  {
  }

  /** The statuses that demand finished dependencies on entry. */
  predicate NeedsDependencies(s: Status) {
    s == Ready || s == Running
  }

  /** A normalized idempotency key: a digest of the actor and the caller's key. */
  type Idem = nat

  datatype Priority = Low | Normal | High | Urgent

  /** What a creation says about a task besides its dependencies. */
  datatype Content = Content(
    title: Text, description: Text, priority: Priority, project: Text, mission: Option<Text>,
    assignees: set<Text>, skills: set<Text>, tags: set<Text>)

  /** The content as a stored task holds it. */
  function Stored(c: Content): (r: Content)
    ensures r == c <==> Unpadded(c)
  {
    Content(Trim(c.title), Trim(c.description), c.priority, Trim(c.project), TrimOption(c.mission),
            TrimEach(c.assignees), TrimEach(c.skills), TrimEach(c.tags))
  }

  predicate Unpadded(c: Content) {
    && Trimmed(c.title) && Trimmed(c.description) && Trimmed(c.project)
    && (c.mission.Some? ==> Trimmed(c.mission.value))
    && (forall s <- c.assignees + c.skills + c.tags :: Trimmed(s))
  }

  /** Stripping a reference made it equal to another of its collection. */
  predicate Collides(c: Content) {
    || |TrimEach(c.assignees)| != |c.assignees|
    || |TrimEach(c.skills)| != |c.skills|
    || |TrimEach(c.tags)| != |c.tags|
  }

  predicate ValidContent(c: Content) {
    && ValidText(c.title) && ValidDescription(c.description) && IsIdentifier(c.project)
    && (c.mission.Some? ==> IsIdentifier(c.mission.value))
    && (forall s <- c.assignees + c.skills + c.tags :: IsIdentifier(s))
  }

  lemma ValidIsStored(c: Content)
    requires ValidContent(c)
    ensures Stored(c) == c && !Collides(c)
  {
    IdentifierIsTrimmed(c.project);
    if c.mission.Some? {
      IdentifierIsTrimmed(c.mission.value);
    }
    forall s <- c.assignees + c.skills + c.tags
      ensures Trimmed(s)
    {
      IdentifierIsTrimmed(s);
    }
  }

  datatype Payload = Payload(content: Content, dependencies: set<TaskId>, actor: Text)

  datatype OperationKey =
    | CreateKey(idem: Idem, payload: Payload)
    | TransitionKey(idem: Idem, task: TaskId, target: Status, reason: Option<Text>, actor: Text)

  datatype TaskId = TaskId(op: OperationKey)

  /** `extras` says that artifacts or extension fields are present. */
  datatype Task = Task(
    id: TaskId, content: Content, dependencies: set<TaskId>, status: Status, reason: Option<Text>,
    createdBy: Text, revision: int, createdAt: int, updatedAt: int, extras: bool)

  predicate ValidTask(t: Task) {
    && t.id !in t.dependencies
    && t.createdAt <= t.updatedAt
    && t.revision >= 1
    && (t.status == Blocked <==> t.reason.Some?)
    && ValidContent(t.content) && IsIdentifier(t.createdBy)
    && (t.reason.Some? ==> ValidText(t.reason.value))
  }

  datatype Kind = Created | Transitioned | CancelledTask

  datatype Event = Event(
    kind: Kind, task: TaskId, op: OperationKey, idem: Idem, previous: Option<Event>,
    previousTask: Option<Task>, written: Task, from: Option<Status>, to: Status, actor: Text, createdAt: int)

  predicate ValidEvent(e: Event) {
    && (e.kind == Created ==> e.from == None && e.previousTask == None && e.to == Inbox)
    && (e.kind != Created ==> e.from.Some? && e.previousTask.Some?)
    && (e.kind == CancelledTask <==> e.to == Cancelled)
    && IsIdentifier(e.actor)
  }

  datatype Generation = Generation(
    parent: Option<Generation>, parentHash: Option<Generation>, tasks: map<TaskId, Task>,
    latest: map<TaskId, Event>, head: Option<Event>, count: int, createdAt: int)

  const MaxEvents := 10_000
  const MaxTasks := 2_500

  predicate ValidGeneration(g: Generation) {
    && (g.parent.None? <==> g.parentHash.None?)
    && (g.parent.None? ==> g.count == 0 || g.count == 1)
    && 0 <= g.count <= MaxEvents
    && (g.tasks != map[] ==> g.count >= |g.tasks|)
    && g.tasks.Keys == g.latest.Keys
    && (g.tasks == map[] <==> g.head.None?)
    && (g.head.Some? ==> g.head.value in g.latest.Values)
  }

  /** The immutable files of the task ledger. */
  datatype Store = Store(tasks: set<Task>, events: set<Event>, generations: set<Generation>)

  datatype Board = Empty | At(generation: Generation)

  function TasksOf(b: Board): map<TaskId, Task> {
    if b.Empty? then map[] else b.generation.tasks
  }

  function HeadOf(b: Board): Option<Event> {
    if b.Empty? then None else b.generation.head
  }

  // ---------------------------------------------------------------- commands

  datatype Command =
    | Create(payload: Payload, idem: Idem, at: int)
    | Transition(task: TaskId, target: Status, reason: Option<Text>, actor: Text, idem: Idem, at: int)

  function KeyOf(c: Command): OperationKey {
    match c
    case Create(payload, idem, _) => CreateKey(idem, payload)
    case Transition(task, target, reason, actor, idem, _) => TransitionKey(idem, task, target, reason, actor)
  }

  function ActorOf(c: Command): Text {
    if c.Create? then c.payload.actor else c.actor
  }

  /** The task object a command writes, with its text stripped. */
  function TaskFor(b: Board, c: Command): Task
    requires c.Transition? ==> c.task in TasksOf(b)
  {
    match c
    case Create(payload, _, at) =>
      Task(TaskId(KeyOf(c)), Stored(payload.content), payload.dependencies, Inbox, None, Trim(payload.actor), 1, at, at, false)
    case Transition(task, target, reason, _, _, at) =>
      var current := TasksOf(b)[task];
      current.(status := target, reason := if target == Blocked then TrimOption(reason) else None,
               revision := current.revision + 1, updatedAt := at)
  }

  function EventFor(b: Board, c: Command): Event
    requires c.Transition? ==> c.task in TasksOf(b)
  {
    var task := TaskFor(b, c);
    match c
    case Create(payload, idem, at) =>
      Event(Created, task.id, KeyOf(c), idem, HeadOf(b), None, task, None, Inbox, Trim(payload.actor), at)
    case Transition(_, target, _, actor, idem, at) =>
      var current := TasksOf(b)[c.task];
      Event(if target == Cancelled then CancelledTask else Transitioned, task.id, KeyOf(c), idem, HeadOf(b),
            Some(current), task, Some(current.status), target, Trim(actor), at)
  }

  /** The generation `_commit` publishes for a command. */
  function GenerationFor(b: Board, c: Command): Generation
    requires c.Transition? ==> c.task in TasksOf(b)
  {
    var e := EventFor(b, c);
    match b
    case Empty =>
      Generation(None, None, map[e.task := e.written], map[e.task := e], Some(e), 1, c.at)
    case At(g) =>
      Generation(Some(g), Some(g), g.tasks[e.task := e.written], g.latest[e.task := e], Some(e), g.count + 1, c.at)
  }

  /** All dependencies are on the board and done. */
  predicate DependenciesDone(tasks: map<TaskId, Task>, dependencies: set<TaskId>) {
    forall d <- dependencies :: d in tasks && tasks[d].status == Done
  }

  /** The checks of `create_task` and `transition_task`, once the command is known to be new.  Fields are
      checked after they are stripped. */
  predicate Accepted(b: Board, c: Command) {
    match c
    case Create(payload, _, _) =>
      && payload.dependencies <= TasksOf(b).Keys
      && ValidContent(Stored(payload.content)) && !Collides(payload.content)
      && IsIdentifier(Trim(payload.actor))
    case Transition(task, target, reason, _, _, at) =>
      && task in TasksOf(b)
      && Allowed(TasksOf(b)[task].status, target)
      && (NeedsDependencies(target) ==> DependenciesDone(TasksOf(b), TasksOf(b)[task].dependencies))
      && TasksOf(b)[task].updatedAt <= at
      && (target == Blocked ==> reason.Some? && ValidText(Trim(reason.value)))
  }

  /** The configured limits of the board. */
  predicate Fits(b: Board, c: Command) {
    && (c.Create? ==> |TasksOf(b)| < MaxTasks)
    && (b.At? ==> b.generation.count < MaxEvents)
  }

  // ---------------------------------------------------------------- the event chain

  /** Oldest first. */
  function History(e: Option<Event>): seq<Event> {
    if e.None? then [] else History(e.value.previous) + [e.value]
  }

  function CommandOf(e: Event): Command {
    match e.op
    case CreateKey(idem, payload) => Create(payload, idem, e.createdAt)
    case TransitionKey(idem, task, target, reason, actor) => Transition(task, target, reason, actor, idem, e.createdAt)
  }

  function Commands(es: seq<Event>): seq<Command> {
    seq(|es|, i requires 0 <= i < |es| => CommandOf(es[i]))
  }

  /** No two events of the chain share an operation or an idempotency key. */
  ghost predicate CommandsDistinct(es: seq<Event>) {
    forall i, j | 0 <= i < j < |es| :: es[i].op != es[j].op && es[i].idem != es[j].idem
  }
}
