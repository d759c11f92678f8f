/** The validator of a task board generation: its loops, proved against `Accepts`. */
module TaskValidator {
  import opened Options
  import opened TaskTypes
  import opened TaskBoard
  import TaskGraph

  /** The three conditions: known dependencies, finished ones where they must be, and no path back to its start. */
  lemma GraphMeans(tasks: map<TaskId, Task>)
    ensures GraphOk(tasks) <==>
      && (forall id <- tasks, d <- tasks[id].dependencies :: d in tasks)
      && (forall id <- tasks, d <- tasks[id].dependencies | tasks[id].status in {Ready, Running} ::
            d in tasks && tasks[d].status == Done)
      && (forall p | TaskGraph.Path(GraphOf(tasks), p) && |p| > 1 :: p[0] != p[|p| - 1])
  {
    NoReturn(tasks);
  }

  lemma NoReturn(tasks: map<TaskId, Task>)
    ensures TaskGraph.Acyclic(GraphOf(tasks)) <==>
      forall p | TaskGraph.Path(GraphOf(tasks), p) && |p| > 1 :: p[0] != p[|p| - 1]
  {
    var graph := GraphOf(tasks);
    forall p | TaskGraph.Path(graph, p) && |p| > 1 && p[0] == p[|p| - 1]
      ensures TaskGraph.OnCycle(graph, p[0])
    {
      assert TaskGraph.Path(graph, p[1..]) && p[1..][0] in graph[p[0]];
      assert TaskGraph.Reaches(graph, p[1], p[0]);
    }
    forall v | v in graph && TaskGraph.OnCycle(graph, v)
      ensures exists p :: TaskGraph.Path(graph, p) && |p| > 1 && p[0] == p[|p| - 1]
    {
      var d :| d in graph[v] && TaskGraph.Reaches(graph, d, v);
      var p :| TaskGraph.Path(graph, p) && p[0] == d && p[|p| - 1] == v;
      assert TaskGraph.Path(graph, [v] + p);
    }
  }

  /** `_validate_task_graph`. */
  method ValidateTaskGraph(tasks: map<TaskId, Task>) returns (ok: bool)
    ensures ok <==> GraphOk(tasks)
    ensures ok <==>
      && (forall id <- tasks, d <- tasks[id].dependencies :: d in tasks)
      && (forall id <- tasks, d <- tasks[id].dependencies | tasks[id].status in {Ready, Running} ::
            d in tasks && tasks[d].status == Done)
      && (forall p | TaskGraph.Path(GraphOf(tasks), p) && |p| > 1 :: p[0] != p[|p| - 1])
  {
    GraphMeans(tasks);
    var pending := tasks.Keys;
    while pending != {}
      invariant pending <= tasks.Keys
      invariant forall id <- tasks.Keys - pending :: tasks[id].dependencies <= tasks.Keys
      invariant forall id <- tasks.Keys - pending ::
        NeedsDependencies(tasks[id].status) ==> DependenciesDone(tasks, tasks[id].dependencies)
    {
      var id :| id in pending;
      pending := pending - {id};
      if !(tasks[id].dependencies <= tasks.Keys) {
        return false;
      }
      if NeedsDependencies(tasks[id].status) && exists d <- tasks[id].dependencies :: tasks[d].status != Done {
        return false;
      }
    }
    ok := TaskGraph.CheckAcyclic(GraphOf(tasks));
  }

  /** The commands of the later events of a walk, and how they make the whole chain distinct. */
  ghost predicate Walked(g: Generation, current: Generation, later: seq<Event>, ops: set<OperationKey>, idems: set<Idem>) {
    && History(g.head) == History(current.head) + later
    && CommandsDistinct(later)
    && (forall op :: op in ops <==> exists i | 0 <= i < |later| :: later[i].op == op)
    && (forall idem :: idem in idems <==> exists i | 0 <= i < |later| :: later[i].idem == idem)
  }

  lemma HistorySplit(e: Event, later: seq<Event>)
    ensures History(Some(e)) + later == History(e.previous) + ([e] + later)
  {
  }

  lemma WalkedFurther(g: Generation, current: Generation, later: seq<Event>, ops: set<OperationKey>, idems: set<Idem>, p: Generation)
    requires Walked(g, current, later, ops, idems) && current.head.Some? && current.head.value.previous == p.head
    requires current.head.value.op !in ops && current.head.value.idem !in idems
    ensures Walked(g, p, [current.head.value] + later, ops + {current.head.value.op}, idems + {current.head.value.idem})
  {
    var e := current.head.value;
    var more := [e] + later;
    HistorySplit(e, later);
    forall i, j | 0 <= i < j < |more|
      ensures more[i].op != more[j].op && more[i].idem != more[j].idem
    {
      assert more[j] == later[j - 1];
    }
    forall op
      ensures op in ops + {e.op} <==> exists i | 0 <= i < |more| :: more[i].op == op
    {
      assert more[0] == e;
      assert forall i | 0 <= i < |later| :: later[i] == more[i + 1];
    }
    forall idem
      ensures idem in idems + {e.idem} <==> exists i | 0 <= i < |more| :: more[i].idem == idem
    {
      assert more[0] == e;
      assert forall i | 0 <= i < |later| :: later[i] == more[i + 1];
    }
  }

  /** A command met a second time spoils the chain. */
  lemma RepeatedCommand(g: Generation, current: Generation, later: seq<Event>, ops: set<OperationKey>, idems: set<Idem>)
    requires Walked(g, current, later, ops, idems) && current.head.Some?
    requires current.head.value.op in ops || current.head.value.idem in idems
    ensures !CommandsDistinct(History(g.head))
  {
    var all, here := History(g.head), |History(current.head)| - 1;
    assert all[here] == current.head.value;
    if current.head.value.op in ops {
      var i :| 0 <= i < |later| && later[i].op == current.head.value.op;
      assert all[here + 1 + i] == later[i];
    } else {
      var i :| 0 <= i < |later| && later[i].idem == current.head.value.idem;
      assert all[here + 1 + i] == later[i];
    }
  }

  lemma WalkStarts(g: Generation)
    ensures Walked(g, g, [], {}, {})
  {
  }

  lemma WalkEnds(g: Generation, current: Generation, later: seq<Event>, ops: set<OperationKey>, idems: set<Idem>)
    requires Walked(g, current, later, ops, idems) && current.head.Some? && current.head.value.previous.None?
    requires current.head.value.op !in ops && current.head.value.idem !in idems
    ensures CommandsDistinct(History(g.head))
  {
    WalkedFurther(g, current, later, ops, idems, current.(head := None));
  }

  lemma StepLinks(st: Store, g: Generation)
    requires StepOk(st, g)
    ensures g.head.value.previous == if g.parent.None? then None else g.parent.value.head
  {
  }

  /** The ancestry walk of `_validate_generation_closure`.  Its checks for repeated generations and
      repeated events never fire. */
  method WalkAncestry(st: Store, g: Generation) returns (ok: bool, steps: int)
    ensures ok <==> ChainOk(st, g) && CommandsDistinct(History(g.head)) && Length(g) <= MaxEvents
    ensures ok ==> steps == Length(g)
  {
    hide Walked;
    hide HeadOk;
    hide RootOk;
    hide ChildOk;
    hide CommandsDistinct;
    var current, visitedGenerations, visitedEvents, ops, idems := g, {}, {}, {}, {};
    ghost var later: seq<Event> := [];
    steps := 0;
    WalkStarts(g);
    while true
      invariant steps + Length(current) == Length(g) && steps <= MaxEvents
      invariant ChainOk(st, g) <==> ChainOk(st, current)
      invariant forall v <- visitedGenerations :: Length(v) > Length(current)
      invariant forall e <- visitedEvents :: |History(Some(e))| > |History(current.head)|
      invariant Walked(g, current, later, ops, idems)
      decreases Length(current)
    {
      if current in visitedGenerations || steps >= MaxEvents {
        return false, steps;
      }
      visitedGenerations := visitedGenerations + {current};
      steps := steps + 1;
      if current.head.None? {
        return false, steps;
      }
      var e := current.head.value;
      if e in visitedEvents || e.op in ops || e.idem in idems {
        RepeatedCommand(g, current, later, ops, idems);
        return false, steps;
      }
      if !HeadOk(st, current, e) {
        return false, steps;
      }
      if current.parent.None? {
        ok := RootOk(current, e);
        if ok {
          StepLinks(st, current);
          WalkEnds(g, current, later, ops, idems);
        }
        return;
      }
      var p := current.parent.value;
      if !ReadsGeneration(st, p) || !ChildOk(st, current, e, p) {
        return false, steps;
      }
      StepLinks(st, current);
      WalkedFurther(g, current, later, ops, idems, p);
      visitedEvents, ops, idems := visitedEvents + {e}, ops + {e.op}, idems + {e.idem};
      later := [e] + later;
      current := p;
    }
  }

  /** `_validate_generation_closure` succeeds exactly on the generations that are accepted. */
  method ValidateClosure(st: Store, g: Generation) returns (ok: bool)
    ensures ok <==> Accepts(st, g)
  {
    ok := TasksReadable(st, g);
    if ok {
      ok := ValidateTaskGraph(g.tasks);
    }
    if ok && LatestOk(st, g) {
      var steps;
      ok, steps := WalkAncestry(st, g);
      ok := ok && steps == g.count;
    } else {
      ok := false;
    }
  }
}
