/** Accepted boards are exactly the replays of command histories. */
module TaskReplay {
  import opened Options
  import opened TaskTypes
  import opened TaskBoard
  import TaskGraph

  // ---------------------------------------------------------------- replay

  /** Neither the operation nor the idempotency key was used before. */
  predicate Unused(b: Board, c: Command) {
    forall e <- History(HeadOf(b)) :: e.op != KeyOf(c) && e.idem != c.idem
  }

  /** The board after issuing commands to an empty board, if the service takes all of them. */
  function Replay(cs: seq<Command>): Option<Board>
    decreases |cs|
  {
    if cs == [] then Some(Empty)
    else
      var before, c := Replay(cs[..|cs| - 1]), cs[|cs| - 1];
      if before.None? || !Unused(before.value, c) || !Accepted(before.value, c) then None
      else Some(At(GenerationFor(before.value, c)))
  }

  lemma DistinctPrefix(es: seq<Event>, e: Event)
    ensures CommandsDistinct(es + [e]) <==>
      CommandsDistinct(es) && forall x <- es :: x.op != e.op && x.idem != e.idem
  {
    var all := es + [e];
    assert all[|es|] == e;
    assert forall i | 0 <= i < |es| :: all[i] == es[i];
    if CommandsDistinct(all) {
      forall x <- es
        ensures x.op != e.op && x.idem != e.idem
      {
        var i :| 0 <= i < |es| && es[i] == x;
        assert all[i].op != all[|es|].op && all[i].idem != all[|es|].idem;
      }
    }
  }

  lemma Follows(st: Store, g: Generation)
    requires StepOk(st, g)
    ensures g.head.value.previous == if g.parent.None? then None else g.parent.value.head
    ensures g.parent.Some? ==> ValidGeneration(g.parent.value)
    ensures g.head.value.op == KeyOf(CommandOf(g.head.value)) && g.head.value.idem == CommandOf(g.head.value).idem
  {
  }

  /** An ancestry that passes the walk is the replay of its own events. */
  lemma {:induction false} ChainReplays(st: Store, g: Generation)
    requires ChainOk(st, g) && ValidGeneration(g) && CommandsDistinct(History(g.head))
    ensures Replay(Commands(History(g.head))) == Some(At(g))
    ensures |History(g.head)| == Length(g)
    decreases g
  {
    hide EventFor;
    hide GenerationFor;
    hide Accepted;
    hide ChildOk;
    hide RootOk;
    hide HeadOk;
    var e := g.head.value;
    var c, es := CommandOf(e), History(e.previous);
    var cs := Commands(History(g.head));
    assert History(g.head) == es + [e];
    assert cs[..|cs| - 1] == Commands(es) && cs[|cs| - 1] == c;
    DistinctPrefix(es, e);
    if g.parent.None? {
      RootIsCommand(st, g);
      Follows(st, g);
      assert Commands(es) == [];
    } else {
      var p := g.parent.value;
      StepIsCommand(st, g);
      Follows(st, g);
      ChainReplays(st, p);
      assert e.op == KeyOf(c) && e.idem == c.idem;
    }
  }

  /** A generation the validator accepts is the replay of its event chain from the empty board, one
      accepted command for each event, with as many events as it counts and no command twice. */
  lemma AcceptedIsReplay(st: Store, g: Generation)
    requires Accepts(st, g) && ValidGeneration(g)
    ensures Replay(Commands(History(g.head))) == Some(At(g))
    ensures |History(g.head)| == g.count
    ensures CommandsDistinct(History(g.head))
  {
    ChainReplays(st, g);
  }

  // ---------------------------------------------------------------- structure of accepted boards

  /** Every task carries the identifier of its creation. */
  ghost predicate Named(tasks: map<TaskId, Task>) {
    forall id <- tasks :: tasks[id].id == id && id.op.CreateKey? && id.op.payload.dependencies == tasks[id].dependencies
  }

  /** Every task was created by an event of the chain. */
  ghost predicate CreatedInChain(tasks: map<TaskId, Task>, es: seq<Event>) {
    forall id <- tasks :: exists e <- es :: e.op == id.op
  }

  /** What a command changes, apart from text and times. */
  lemma Writes(b: Board, c: Command)
    requires c.Transition? ==> c.task in TasksOf(b)
    ensures
      var n, e := GenerationFor(b, c), EventFor(b, c);
      && n.tasks == TasksOf(b)[e.task := e.written] && n.head == Some(e)
      && History(n.head) == History(HeadOf(b)) + [e]
      && e.op == KeyOf(c) && e.idem == c.idem && e.task == e.written.id && e.to == e.written.status
      && e.written == TaskFor(b, c)
    ensures
      var w := EventFor(b, c).written;
      if c.Create? then w.id == TaskId(KeyOf(c)) && w.dependencies == c.payload.dependencies && w.status == Inbox
      else w.id == TasksOf(b)[c.task].id && w.dependencies == TasksOf(b)[c.task].dependencies && w.status == c.target
  {
  }

  lemma CommandNames(b: Board, c: Command)
    requires Accepted(b, c) && Named(TasksOf(b)) && CreatedInChain(TasksOf(b), History(HeadOf(b)))
    ensures
      var n := GenerationFor(b, c);
      Named(n.tasks) && CreatedInChain(n.tasks, History(n.head))
  {
    hide GenerationFor;
    hide EventFor;
    hide TaskFor;
    hide ValidContent;
    hide History;
    Writes(b, c);
    var n, e := GenerationFor(b, c), EventFor(b, c);
    forall id <- n.tasks
      ensures exists x <- History(n.head) :: x.op == id.op
    {
      if id in TasksOf(b) {
        var x :| x in History(HeadOf(b)) && x.op == id.op;
        assert x in History(n.head);
      } else {
        assert e in History(n.head) && e.op == id.op;
      }
    }
  }

  lemma {:induction false} ChainNames(st: Store, g: Generation)
    requires ChainOk(st, g) && ValidGeneration(g)
    ensures Named(g.tasks) && CreatedInChain(g.tasks, History(g.head))
    decreases g
  {
    hide Named;
    hide CreatedInChain;
    var c := CommandOf(g.head.value);
    if g.parent.None? {
      RootIsCommand(st, g);
      NothingNamed();
      CommandNames(Empty, c);
    } else {
      StepIsCommand(st, g);
      ChainNames(st, g.parent.value);
      CommandNames(At(g.parent.value), c);
    }
  }

  lemma NothingNamed()
    ensures Named(map[]) && CreatedInChain(map[], [])
  {
  }

  /** `b` occurs in the identifier `a`. */
  predicate Contains(a: TaskId, b: TaskId) {
    a == b || (a.op.CreateKey? && exists d <- a.op.payload.dependencies :: Contains(d, b))
  }

  lemma {:induction false} ContainsFurther(a: TaskId, b: TaskId, c: TaskId)
    requires Contains(a, b) && b.op.CreateKey? && c in b.op.payload.dependencies
    ensures Contains(a, c)
    decreases a
  {
    if a == b {
      assert Contains(c, c);
    } else {
      var d :| d in a.op.payload.dependencies && Contains(d, b);
      ContainsFurther(d, b, c);
    }
  }

  /** No identifier occurs in one of its own dependencies. */
  lemma {:induction false} NotInOwnDependencies(v: TaskId, d: TaskId)
    requires v.op.CreateKey? && d in v.op.payload.dependencies
    ensures !Contains(d, v)
    decreases v
  {
    if Contains(d, v) {
      ContainsFurther(d, v, d);
      if d == v {
        assert false;
      } else {
        var e :| e in d.op.payload.dependencies && Contains(e, v);
        ContainsFurther(e, v, d);
        NotInOwnDependencies(d, e);
      }
    }
  }

  lemma {:induction false} PathContains(tasks: map<TaskId, Task>, p: seq<TaskId>)
    requires Named(tasks) && TaskGraph.Path(GraphOf(tasks), p)
    ensures Contains(p[0], p[|p| - 1])
    decreases |p|
  {
    if |p| > 1 {
      var q := p[..|p| - 1];
      assert TaskGraph.Path(GraphOf(tasks), q);
      PathContains(tasks, q);
      assert p[|q| - 1 + 1] in GraphOf(tasks)[p[|q| - 1]];
      ContainsFurther(p[0], p[|q| - 1], p[|q|]);
    }
  }

  lemma NamedIsAcyclic(tasks: map<TaskId, Task>)
    requires Named(tasks)
    ensures TaskGraph.Acyclic(GraphOf(tasks))
  {
    var graph := GraphOf(tasks);
    forall v <- graph
      ensures !TaskGraph.OnCycle(graph, v)
    {
      if TaskGraph.OnCycle(graph, v) {
        var d :| d in graph[v] && TaskGraph.Reaches(graph, d, v);
        var p :| TaskGraph.Path(graph, p) && p[0] == d && p[|p| - 1] == v;
        PathContains(tasks, p);
        NotInOwnDependencies(v, d);
      }
    }
  }

  // ---------------------------------------------------------------- finished dependencies

  /** The statuses a task can only reach through finished dependencies. */
  predicate Started(s: Status) {
    s == Ready || s == Running || s == Review || s == Done
  }

  ghost predicate StartedHaveDone(tasks: map<TaskId, Task>) {
    forall id <- tasks :: Started(tasks[id].status) ==> DependenciesDone(tasks, tasks[id].dependencies)
  }

  /** A command never reopens a finished task, so finished dependencies stay finished. */
  lemma CommandKeepsDone(b: Board, c: Command)
    requires Accepted(b, c) && Unused(b, c) && Named(TasksOf(b)) && CreatedInChain(TasksOf(b), History(HeadOf(b)))
    requires StartedHaveDone(TasksOf(b))
    ensures StartedHaveDone(GenerationFor(b, c).tasks)
  {
    hide GenerationFor;
    hide EventFor;
    hide TaskFor;
    hide ValidContent;
    hide History;
    Writes(b, c);
    var tasks, e := TasksOf(b), EventFor(b, c);
    var next := GenerationFor(b, c).tasks;
    forall id <- next | Started(next[id].status)
      ensures DependenciesDone(next, next[id].dependencies)
    {
      if id == e.task {
        assert c.Transition? && Started(next[id].status) ==> DependenciesDone(tasks, next[id].dependencies);
      }
      forall d <- next[id].dependencies
        ensures d in next && next[d].status == Done
      {
        assert d in tasks && tasks[d].status == Done;
        if d == e.task {
          NewTaskIsNew(b, c);
        }
      }
    }
  }

  /** An unused creation makes an identifier the board does not have. */
  lemma NewTaskIsNew(b: Board, c: Command)
    requires Unused(b, c) && CreatedInChain(TasksOf(b), History(HeadOf(b))) && c.Create?
    ensures TaskId(KeyOf(c)) !in TasksOf(b)
  {
  }
}
