/** The task service: commands under the writer lock, over immutable files and one pointer. */
module TaskService {
  import opened Options
  import opened TaskText
  import opened TaskTypes
  import opened TaskBoard
  import opened TaskReplay
  import opened TaskTheorems
  import TaskValidator

  datatype Failure = IdempotencyKeyReused | GenerationChanged | CommandRejected | EventInvalid | LimitReached | LedgerInvalid

  datatype CommandResult =
    | Applied(generation: Generation, event: Event, task: Task, noOp: bool)
    | Refused(failure: Failure)

  function GenerationOf(b: Board): Option<Generation> {
    if b.Empty? then None else Some(b.generation)
  }

  /** What the service answers to a command on a board it accepted. */
  function Answer(b: Board, c: Command, expected: Option<Generation>): CommandResult {
    match Find(HeadOf(b), KeyOf(c), c.idem)
    case Found(e) =>
      if b.At? && WithHead(b.generation, e).Some? then Applied(WithHead(b.generation, e).value, e, e.written, true)
      else Refused(LedgerInvalid)
    case KeyReused => Refused(IdempotencyKeyReused)
    case NotFound =>
      if expected != GenerationOf(b) then Refused(GenerationChanged)
      else NewAnswer(b, c)
  }

  /** The answer to a command that is not in the history. */
  function NewAnswer(b: Board, c: Command): CommandResult {
    if !Accepted(b, c) || (c.Create? && |TasksOf(b)| >= MaxTasks) then Refused(CommandRejected)
    else if !IsIdentifier(Trim(ActorOf(c))) then Refused(EventInvalid)
    else if b.At? && b.generation.count >= MaxEvents then Refused(LimitReached)
    else if !InOrder(b, c) then Refused(LedgerInvalid)
    else Applied(GenerationFor(b, c), EventFor(b, c), TaskFor(b, c), false)
  }

  /** Commands are applied exactly once: reissued on any later board, whatever generation is expected, a
      command returns the generation, event and task of its first commit and changes nothing. */
  lemma ExactlyOnce(st: Store, b: Board, c: Command, expected: Option<Generation>, later: Generation, stale: Option<Generation>)
    requires BoardOk(st, b)
    requires var r := Answer(b, c, expected); r.Applied? && !r.noOp && OnChain(r.generation, later)
    requires Accepts(st, later)
    ensures
      var first := Answer(b, c, expected);
      Answer(At(later), c, stale) == Applied(first.generation, first.event, first.task, true)
  {
    hide Accepts;
    hide Accepted;
    hide BoardOk;
    hide InOrder;
    hide IsIdentifier;
    hide Find;
    hide WithHead;
    hide GenerationFor;
    hide EventFor;
    hide TaskFor;
    hide OnChain;
    ReissueFindsFirstCommit(st, b, c, later);
  }

  /** Its idempotency key cannot be reused for a different command. */
  lemma KeyIsSpent(st: Store, b: Board, c: Command, expected: Option<Generation>, later: Generation,
                   other: Command, stale: Option<Generation>)
    requires BoardOk(st, b)
    requires var r := Answer(b, c, expected); r.Applied? && !r.noOp && OnChain(r.generation, later)
    requires Accepts(st, later) && other.idem == c.idem && KeyOf(other) != KeyOf(c)
    ensures Answer(At(later), other, stale) == Refused(IdempotencyKeyReused)
  {
    hide Accepts;
    hide Accepted;
    hide BoardOk;
    hide InOrder;
    hide IsIdentifier;
    hide Find;
    hide WithHead;
    hide GenerationFor;
    hide EventFor;
    hide TaskFor;
    hide OnChain;
    ReusedKeyIsRefused(st, b, c, later, other);
  }

  /** An event of the history has this operation. */
  ghost predicate Recorded(b: Board, op: OperationKey) {
    exists e <- History(HeadOf(b)) :: e.op == op
  }

  /** An event of the history has this idempotency key. */
  ghost predicate Spent(b: Board, idem: Idem) {
    exists e <- History(HeadOf(b)) :: e.idem == idem
  }

  lemma Looked(st: Store, b: Board, op: OperationKey)
    requires BoardOk(st, b)
    ensures
      match Find(HeadOf(b), op, op.idem)
      case Found(e) => e in History(HeadOf(b)) && e.op == op && Recorded(b, op)
      case KeyReused => !Recorded(b, op) && Spent(b, op.idem)
      case NotFound => !Recorded(b, op) && !Spent(b, op.idem)
  {
    if b.At? {
      HeadsReadable(st, b.generation);
      ChainIdems(st, b.generation);
      FindMeans(HeadOf(b), op);
    }
  }

  lemma BoardAccepted(st: Store, b: Board)
    requires BoardOk(st, b) && b.At?
    ensures Accepts(st, b.generation)
  {
  }

  lemma StepReads(st: Store, g: Generation)
    requires StepOk(st, g)
    ensures g.head.Some? && ReadsEvent(st, g.head.value)
    ensures g.head.value.previous == if g.parent.None? then None else g.parent.value.head
  {
  }

  lemma KnownTask(st: Store, g: Generation, task: TaskId)
    requires Accepts(st, g) && task in g.tasks
    ensures g.tasks[task].id == task
  {
    assert ReadsTask(st, task, g.tasks[task]);
  }

  /** What a new creation writes. */
  lemma CreationWrites(b: Board, payload: Payload, idem: Idem, at: int)
    ensures
      var c := Create(payload, idem, at);
      var task, event := TaskFor(b, c), EventFor(b, c);
      var tasks, latest := if b.Empty? then map[] else b.generation.tasks, if b.Empty? then map[] else b.generation.latest;
      && task == Task(TaskId(CreateKey(idem, payload)), Stored(payload.content), payload.dependencies, Inbox, None,
                      Trim(payload.actor), 1, at, at, false)
      && event == Event(Created, task.id, CreateKey(idem, payload), idem, HeadOf(b), None, task, None, Inbox,
                        Trim(payload.actor), at)
      && GenerationFor(b, c) == Generation(GenerationOf(b), GenerationOf(b), tasks[task.id := task], latest[task.id := event],
                                           Some(event), (if b.Empty? then 0 else b.generation.count) + 1, at)
  {
  }

  /** What a new transition writes. */
  lemma TransitionWrites(g: Generation, task: TaskId, target: Status, reason: Option<Text>, actor: Text, idem: Idem, at: int)
    requires task in g.tasks && g.tasks[task].id == task
    ensures
      var c, was := Transition(task, target, reason, actor, idem, at), g.tasks[task];
      var now, event := TaskFor(At(g), c), EventFor(At(g), c);
      && now == Task(task, was.content, was.dependencies, target, if target == Blocked then TrimOption(reason) else None,
                     was.createdBy, was.revision + 1, was.createdAt, at, was.extras)
      && event == Event(if target == Cancelled then CancelledTask else Transitioned, task,
                        TransitionKey(idem, task, target, reason, actor), idem, g.head, Some(was), now,
                        Some(was.status), target, Trim(actor), at)
      && GenerationFor(At(g), c) == Generation(Some(g), Some(g), g.tasks[task := now], g.latest[task := event],
                                               Some(event), g.count + 1, at)
  {
  }

  class Service {
    var tasks: set<Task>
    var events: set<Event>
    var generations: set<Generation>
    var board: Board

    constructor ()
      ensures board == Empty && Files() == Store({}, {}, {}) && Valid()
    {
      tasks, events, generations, board := {}, {}, {}, Empty;
    }

    function Files(): Store
      reads this
    {
      Store(tasks, events, generations)
    }

    /** The pointer is empty or names a generation the validator accepts. */
    ghost predicate Valid()
      reads this
    {
      BoardOk(Files(), board)
    }

    /** Walks the event chain back from the head. */
    method FindOperation(op: OperationKey, idem: Idem) returns (r: Option<Lookup>)
      requires Valid()
      ensures r == Some(Find(HeadOf(board), op, idem))
      ensures op.idem == idem ==>
        match r.value
        case Found(e) => e in History(HeadOf(board)) && e.op == op
        case KeyReused => !Recorded(board, op) && Spent(board, idem)
        case NotFound => !Recorded(board, op) && !Spent(board, idem)
    {
      hide Accepts;
      hide BoardOk;
      hide StepOk;
      hide ReadsEvent;
      hide Recorded;
      hide Spent;
      Looked(Files(), board, op);
      var event, visited := HeadOf(board), {};
      ghost var g := board;
      if board.At? {
        BoardAccepted(Files(), board);
        HeadsReadable(Files(), board.generation);
      }
      while event.Some?
        invariant event == HeadOf(g) && (g.At? ==> ChainOk(Files(), g.generation))
        invariant g.At? ==> |visited| + Length(g.generation) <= MaxEvents
        invariant forall e <- visited :: |History(Some(e))| > |History(event)|
        invariant Find(event, op, idem) == Find(HeadOf(board), op, idem)
        decreases event
      {
        StepReads(Files(), g.generation);
        if event.value in visited || |visited| >= 100_000 || !ReadsEvent(Files(), event.value) {
          return None;
        }
        visited := visited + {event.value};
        if event.value.op == op {
          return Some(Found(event.value));
        }
        if event.value.idem == idem {
          return Some(KeyReused);
        }
        g := if g.generation.parent.None? then Empty else At(g.generation.parent.value);
        event := event.value.previous;
      }
      r := Some(NotFound);
    }

    /** Walks the generations back to the one whose head is the event. */
    method GenerationForEvent(g: Generation, e: Event) returns (r: Option<Generation>)
      requires ChainOk(Files(), g) && Length(g) <= MaxEvents
      ensures r == WithHead(g, e)
      ensures r.Some? ==> r.value.head == Some(e) && OnChain(r.value, g)
      ensures r.None? ==> forall h | OnChain(h, g) :: h.head != Some(e)
    {
      if WithHead(g, e).Some? {
        WithHeadMeans(g, e);
      } else {
        forall h | OnChain(h, g)
          ensures h.head != Some(e)
        {
          WithoutHead(g, e, h);
        }
      }
      var current := g;
      for i := 0 to MaxEvents
        invariant ChainOk(Files(), current) && i + Length(current) <= MaxEvents
        invariant WithHead(current, e) == WithHead(g, e)
      {
        if current.head == Some(e) {
          return Some(current);
        }
        if current.parent.None? || !ReadsGeneration(Files(), current.parent.value) {
          return None;
        }
        current := current.parent.value;
      }
      r := None;
    }

    /** Answers a command that was found in the history. */
    method ResultForEvent(e: Event) returns (r: CommandResult)
      requires Valid() && board.At?
      ensures r.Applied? ==>
        && r.noOp && r.event == e && r.task == e.written
        && r.generation.head == Some(e) && OnChain(r.generation, board.generation)
      ensures r == if WithHead(board.generation, e).Some? && WithHead(board.generation, e).value.tasks.Keys >= {e.task}
                        && WithHead(board.generation, e).value.tasks[e.task] == e.written
                   then Applied(WithHead(board.generation, e).value, e, e.written, true)
                   else Refused(LedgerInvalid)
    {
      hide Accepts;
      hide ChainOk;
      HeadsReadable(Files(), board.generation);
      var found := GenerationForEvent(board.generation, e);
      if found.None? || e.task !in found.value.tasks || found.value.tasks[e.task] != e.written {
        return Refused(LedgerInvalid);
      }
      WithHeadMeans(board.generation, e);
      r := Applied(found.value, e, e.written, true);
    }

    /** `_commit`: publishes the task, the event and the generation, validates it and moves the pointer. */
    method Commit(c: Command) returns (r: CommandResult)
      requires Valid() && Accepted(board, c) && Unused(board, c)
      modifies this
      ensures Valid() && Extends(old(Files()), Files())
      ensures board == if r.Applied? then At(r.generation) else old(board)
      ensures r ==
        if !IsIdentifier(Trim(ActorOf(c))) then Refused(EventInvalid)
        else if old(board).At? && old(board).generation.count >= MaxEvents then Refused(LimitReached)
        else if !InOrder(old(board), c) then Refused(LedgerInvalid)
        else Applied(GenerationFor(old(board), c), EventFor(old(board), c), TaskFor(old(board), c), false)
      ensures r.Applied? ==>
        var files := old(Files());
        Files() == Store(files.tasks + {r.task}, files.events + {r.event}, files.generations + {r.generation})
    {
      hide Accepts;
      hide Accepted;
      hide Unused;
      hide InOrder;
      hide GenerationFor;
      hide EventFor;
      hide TaskFor;
      hide BoardOk;
      hide ValidGeneration;
      hide History;
      hide TasksOf;
      NextCount(board, c);
      CommandValidatesIff(Files(), board, c);
      ghost var before := Files();
      var task := TaskFor(board, c);
      tasks := tasks + {task};
      StaysValid(before, Files(), board);
      if !IsIdentifier(Trim(ActorOf(c))) {
        return Refused(EventInvalid);
      }
      var event := EventFor(board, c);
      events := events + {event};
      StaysValid(before, Files(), board);
      if board.At? && board.generation.count >= MaxEvents {
        return Refused(LimitReached);
      }
      var next := GenerationFor(board, c);
      generations := generations + {next};
      StaysValid(before, Files(), board);
      var valid := TaskValidator.ValidateClosure(Files(), next);
      if !valid {
        return Refused(LedgerInvalid);
      }
      AcceptedBoard(Files(), next);
      board := At(next);
      r := Applied(next, event, task, false);
    }

    /** `create_task`. */
    method CreateTask(payload: Payload, idem: Idem, expected: Option<Generation>, at: int) returns (r: CommandResult)
      requires Valid()
      modifies this
      ensures Valid() && Extends(old(Files()), Files())
      ensures r == Answer(old(board), Create(payload, idem, at), expected)
      ensures board == if r.Applied? && !r.noOp then At(r.generation) else old(board)
      ensures
        var b, op := old(board), CreateKey(idem, payload);
        var known, given := TasksOf(b), payload.content;
        var refused :=
          || |known| >= 2_500 || !(payload.dependencies <= known.Keys)
          || !ValidContent(Stored(given)) || Collides(given) || !IsIdentifier(Trim(payload.actor));
        if Recorded(b, op) then
          && r.Applied? && r.noOp && b.At? && OnChain(r.generation, b.generation) && r.generation.head == Some(r.event)
          && r.event.op == op && r.task == r.event.written && Files() == old(Files())
        else if Spent(b, idem) then r == Refused(IdempotencyKeyReused) && Files() == old(Files())
        else if expected != GenerationOf(b) then r == Refused(GenerationChanged) && Files() == old(Files())
        else if refused then r == Refused(CommandRejected) && Files() == old(Files())
        else if b.At? && b.generation.count >= 10_000 then r == Refused(LimitReached)
        else if !IsIdentifier(payload.actor) || !Unpadded(given) || (b.At? && at < b.generation.createdAt) then
          r == Refused(LedgerInvalid)
        else
          var latest, files := if b.Empty? then map[] else b.generation.latest, old(Files());
          && r.Applied? && !r.noOp
          && r.task == Task(TaskId(op), given, payload.dependencies, Inbox, None, payload.actor, 1, at, at, false)
          && r.event == Event(Created, r.task.id, op, idem, HeadOf(b), None, r.task, None, Inbox, payload.actor, at)
          && r.generation == Generation(GenerationOf(b), GenerationOf(b), known[r.task.id := r.task],
                                        latest[r.task.id := r.event], Some(r.event),
                                        (if b.Empty? then 0 else b.generation.count) + 1, at)
          && Files() == Store(files.tasks + {r.task}, files.events + {r.event}, files.generations + {r.generation})
    {
      hide Accepts;
      hide GenerationFor;
      hide EventFor;
      hide TaskFor;
      hide ValidContent;
      hide Trimmed;
      hide Collides;
      hide IsIdentifier;
      hide Stored;
      hide Recorded;
      hide Spent;
      var c := Create(payload, idem, at);
      Looked(Files(), board, KeyOf(c));
      CreationWrites(board, payload, idem, at);
      if IsIdentifier(payload.actor) {
        IdentifierIsTrimmed(payload.actor);
      }
      var existing := FindOperation(KeyOf(c), idem);
      if existing == None {
        return Refused(LedgerInvalid);
      }
      if existing.value.Found? {
        FoundIsRecorded(Files(), board, existing.value.event, KeyOf(c), idem);
        r := ResultForEvent(existing.value.event);
        return;
      }
      if existing.value.KeyReused? {
        return Refused(IdempotencyKeyReused);
      }
      FindIsUnused(HeadOf(board), c);
      if expected != GenerationOf(board) {
        return Refused(GenerationChanged);
      }
      if |TasksOf(board)| >= MaxTasks || !(payload.dependencies <= TasksOf(board).Keys) {
        return Refused(CommandRejected);
      }
      if !ValidContent(Stored(payload.content)) || Collides(payload.content) || !IsIdentifier(Trim(payload.actor)) {
        return Refused(CommandRejected);
      }
      r := Commit(c);
    }

    /** `transition_task`, for a command that is not in the history. */
    method ApplyTransition(task: TaskId, target: Status, reason: Option<Text>, actor: Text, idem: Idem, at: int)
      returns (r: CommandResult)
      requires Valid() && Unused(board, Transition(task, target, reason, actor, idem, at))
      modifies this
      ensures Valid() && Extends(old(Files()), Files())
      ensures r == NewAnswer(old(board), Transition(task, target, reason, actor, idem, at))
      ensures board == if r.Applied? then At(r.generation) else old(board)
      ensures r == Refused(CommandRejected) ==> Files() == old(Files())
      ensures r.Applied? ==>
        var files := old(Files());
        && !r.noOp
        && Files() == Store(files.tasks + {r.task}, files.events + {r.event}, files.generations + {r.generation})
    {
      hide Accepts;
      hide GenerationFor;
      hide EventFor;
      hide TaskFor;
      hide InOrder;
      hide ValidText;
      hide IsIdentifier;
      hide Allowed;
      hide Unused;
      var c := Transition(task, target, reason, actor, idem, at);
      var known := TasksOf(board);
      if task !in known || !Allowed(known[task].status, target) {
        return Refused(CommandRejected);
      }
      if NeedsDependencies(target) && !DependenciesDone(known, known[task].dependencies) {
        return Refused(CommandRejected);
      }
      if at < known[task].updatedAt || (target == Blocked && (reason.None? || !ValidText(Trim(reason.value)))) {
        return Refused(CommandRejected);
      }
      r := Commit(c);
    }

    /** `transition_task`. */
    method TransitionTask(task: TaskId, target: Status, reason: Option<Text>, actor: Text, idem: Idem,
                          expected: Option<Generation>, at: int) returns (r: CommandResult)
      requires Valid()
      modifies this
      ensures Valid() && Extends(old(Files()), Files())
      ensures r == Answer(old(board), Transition(task, target, reason, actor, idem, at), expected)
      ensures board == if r.Applied? && !r.noOp then At(r.generation) else old(board)
      ensures
        var b, op := old(board), TransitionKey(idem, task, target, reason, actor);
        var known := TasksOf(b);
        var refused :=
          || task !in known || !Allowed(known[task].status, target)
          || (target in {Ready, Running} && exists d <- known[task].dependencies :: d !in known || known[d].status != Done)
          || at < known[task].updatedAt
          || (target == Blocked && (reason.None? || !ValidText(Trim(reason.value))));
        if Recorded(b, op) then
          && r.Applied? && r.noOp && b.At? && OnChain(r.generation, b.generation) && r.generation.head == Some(r.event)
          && r.event.op == op && r.task == r.event.written && Files() == old(Files())
        else if Spent(b, idem) then r == Refused(IdempotencyKeyReused) && Files() == old(Files())
        else if expected != GenerationOf(b) then r == Refused(GenerationChanged) && Files() == old(Files())
        else if refused then r == Refused(CommandRejected) && Files() == old(Files())
        else if !IsIdentifier(Trim(actor)) then r == Refused(EventInvalid)
        else if b.generation.count >= 10_000 then r == Refused(LimitReached)
        else if !IsIdentifier(actor) || (if target == Blocked then !Trimmed(reason.value) else reason.Some?)
                || at < b.generation.createdAt then
          r == Refused(LedgerInvalid)
        else
          var was, g, files := known[task], b.generation, old(Files());
          && r.Applied? && !r.noOp
          && r.task == Task(task, was.content, was.dependencies, target, reason, was.createdBy, was.revision + 1,
                            was.createdAt, at, was.extras)
          && r.event == Event(if target == Cancelled then CancelledTask else Transitioned, task, op, idem, g.head,
                              Some(was), r.task, Some(was.status), target, actor, at)
          && r.generation == Generation(Some(g), Some(g), g.tasks[task := r.task], g.latest[task := r.event],
                                        Some(r.event), g.count + 1, at)
          && Files() == Store(files.tasks + {r.task}, files.events + {r.event}, files.generations + {r.generation})
    {
      hide Accepts;
      hide Accepted;
      hide GenerationFor;
      hide EventFor;
      hide TaskFor;
      hide ValidText;
      hide Trimmed;
      hide IsIdentifier;
      hide Allowed;
      hide Recorded;
      hide Spent;
      hide NewAnswer;
      hide OnChain;
      hide WithHead;
      var c := Transition(task, target, reason, actor, idem, at);
      Looked(Files(), board, KeyOf(c));
      var existing := FindOperation(KeyOf(c), idem);
      if existing == None {
        return Refused(LedgerInvalid);
      }
      if existing.value.Found? {
        FoundIsRecorded(Files(), board, existing.value.event, KeyOf(c), idem);
        r := ResultForEvent(existing.value.event);
        return;
      }
      if existing.value.KeyReused? {
        return Refused(IdempotencyKeyReused);
      }
      FindIsUnused(HeadOf(board), c);
      if expected != GenerationOf(board) {
        return Refused(GenerationChanged);
      }
      NewTransition(Files(), board, task, target, reason, actor, idem, at);
      AcceptedIff(board, task, target, reason, actor, idem, at);
      r := ApplyTransition(task, target, reason, actor, idem, at);
    }
  }

  lemma AcceptedIff(b: Board, task: TaskId, target: Status, reason: Option<Text>, actor: Text, idem: Idem, at: int)
    ensures
      var known := TasksOf(b);
      !Accepted(b, Transition(task, target, reason, actor, idem, at)) <==>
        || task !in known || !Allowed(known[task].status, target)
        || (target in {Ready, Running} && exists d <- known[task].dependencies :: d !in known || known[d].status != Done)
        || at < known[task].updatedAt
        || (target == Blocked && (reason.None? || !ValidText(Trim(reason.value))))
  {
    hide Allowed;
    hide ValidText;
  }

  /** The answer to a transition that is not in the history, spelled out. */
  lemma NewTransition(st: Store, b: Board, task: TaskId, target: Status, reason: Option<Text>, actor: Text, idem: Idem, at: int)
    requires BoardOk(st, b)
    ensures
      var c := Transition(task, target, reason, actor, idem, at);
      var r, known := NewAnswer(b, c), TasksOf(b);
      if !Accepted(b, c) then r == Refused(CommandRejected)
      else
        var was, g := known[task], b.generation;
        if !IsIdentifier(Trim(actor)) then r == Refused(EventInvalid)
        else if g.count >= 10_000 then r == Refused(LimitReached)
        else if !IsIdentifier(actor) || (if target == Blocked then !Trimmed(reason.value) else reason.Some?)
                || at < g.createdAt then
          r == Refused(LedgerInvalid)
        else
          && r.Applied? && !r.noOp
          && r.task == Task(task, was.content, was.dependencies, target, reason, was.createdBy, was.revision + 1,
                            was.createdAt, at, was.extras)
          && r.event == Event(if target == Cancelled then CancelledTask else Transitioned, task,
                              TransitionKey(idem, task, target, reason, actor), idem, g.head,
                              Some(was), r.task, Some(was.status), target, actor, at)
          && r.generation == Generation(Some(g), Some(g), g.tasks[task := r.task], g.latest[task := r.event],
                                        Some(r.event), g.count + 1, at)
  {
    hide Accepts;
    hide GenerationFor;
    hide EventFor;
    hide TaskFor;
    hide ValidText;
    hide Trimmed;
    hide IsIdentifier;
    hide Allowed;
    if task in TasksOf(b) {
      KnownTask(st, b.generation, task);
      TransitionWrites(b.generation, task, target, reason, actor, idem, at);
    }
    if IsIdentifier(actor) {
      IdentifierIsTrimmed(actor);
    }
  }

  lemma HeadsReadable(st: Store, g: Generation)
    requires Accepts(st, g)
    ensures ChainOk(st, g) && Length(g) <= MaxEvents
  {
  }

  lemma NextCount(b: Board, c: Command)
    requires Accepted(b, c)
    ensures c.Transition? ==> c.task in TasksOf(b)
    ensures GenerationFor(b, c).count == if b.Empty? then 1 else b.generation.count + 1
  {
  }

  lemma AcceptedBoard(st: Store, g: Generation)
    requires g in st.generations && ValidGeneration(g) && Accepts(st, g)
    ensures BoardOk(st, At(g))
  {
  }

  /** Publishing more files keeps a board accepted. */
  lemma StaysValid(a: Store, b: Store, board: Board)
    requires Extends(a, b) && BoardOk(a, board)
    ensures BoardOk(b, board)
  {
    if board.At? {
      ChainOkExtends(a, b, board.generation);
    }
  }

  /** An event found in the history of an accepted board is the head of a generation of its ancestry, and
      wrote the task found there. */
  lemma FoundIsRecorded(st: Store, b: Board, e: Event, op: OperationKey, idem: Idem)
    requires BoardOk(st, b) && Find(HeadOf(b), op, idem) == Found(e)
    ensures b.At? && WithHead(b.generation, e).Some?
    ensures
      var g := WithHead(b.generation, e).value;
      e.task in g.tasks && g.tasks[e.task] == e.written
  {
    FoundInChain(st, b.generation, e, op, idem);
  }

  lemma {:induction false} FoundInChain(st: Store, g: Generation, e: Event, op: OperationKey, idem: Idem)
    requires ChainOk(st, g) && Find(g.head, op, idem) == Found(e)
    ensures WithHead(g, e).Some?
    ensures
      var found := WithHead(g, e).value;
      e.task in found.tasks && found.tasks[e.task] == e.written
    decreases g
  {
    if g.head != Some(e) {
      FoundInChain(st, g.parent.value, e, op, idem);
    }
  }
}
