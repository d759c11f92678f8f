/** The two-phase Git checkpoint of one promotion event, with concurrent and killed callers.

    A record file is published once and never replaced; publishing the same bytes again succeeds,
    different bytes collide.  `update-ref` with an all-zero old value creates the reference only
    if it does not exist.  The commit a caller builds depends on HEAD and on the files, so it is an
    input of the step that builds it.
 */
module GitCheckpoint {
  import opened Options

  type Commit = nat
  type Paths = nat
  type CallerId = nat

  datatype Pending = Pending(commit: Commit, paths: Paths)
  datatype Completed = Completed(commit: Commit, paths: Paths, createdAt: int)

  /** The files and the reference of one event. */
  datatype Store = Store(pending: Option<Pending>, reference: Option<Commit>, completed: Option<Completed>)

  // ---------------------------------------------------------------- callers

  datatype Pc = ReadRecord | ReadPending | Build | PublishPending | Resolve | UpdateReference | PublishRecord | Return

  /** `recorded` says that the caller found a completed record and has only the reference to ensure. */
  datatype Caller = Caller(pc: Pc, paths: Paths, commit: Commit, recorded: bool)

  datatype System = System(store: Store, callers: map<CallerId, Caller>, results: set<Commit>)

  datatype Label =
    | Call(c: CallerId, paths: Paths)
    | Step(c: CallerId, built: Commit, now: int)
    | Kill(c: CallerId)

  /** What one step does to the store, and where it leaves the caller; `None` means it raised. */
  function Act(s: Store, k: Caller, built: Commit, now: int): (Store, Option<Caller>) {
    match k.pc
    case ReadRecord =>
      if s.completed.None? then (s, Some(k.(pc := ReadPending)))
      else if s.completed.value.paths != k.paths then (s, None)
      else (s, Some(k.(pc := Resolve, commit := s.completed.value.commit, recorded := true)))
    case ReadPending =>
      if s.pending.None? then (s, Some(k.(pc := Build)))
      else if s.pending.value.paths != k.paths then (s, None)
      else (s, Some(k.(pc := Resolve, commit := s.pending.value.commit)))
    case Build => (s, Some(k.(pc := PublishPending, commit := built)))
    case PublishPending =>
      var record := Pending(k.commit, k.paths);
      if s.pending.None? then (s.(pending := Some(record)), Some(k.(pc := Resolve)))
      else (s, if s.pending.value == record then Some(k.(pc := Resolve)) else None)
    case Resolve =>
      if s.reference.None? then (s, Some(k.(pc := UpdateReference)))
      else (s, if s.reference.value == k.commit then Some(Ensured(k)) else None)
    case UpdateReference =>
      if s.reference.None? then (s.(reference := Some(k.commit)), Some(Ensured(k)))
      else (s, if s.reference.value == k.commit then Some(Ensured(k)) else None)
    case PublishRecord =>
      var record := Completed(k.commit, k.paths, now);
      if s.completed.None? then (s.(completed := Some(record)), Some(k.(pc := Return)))
      else (s, if s.completed.value == record then Some(k.(pc := Return)) else None)
    case Return => (s, None)
  }

  function Ensured(k: Caller): Caller {
    k.(pc := if k.recorded then Return else PublishRecord)
  }

  function Next(sys: System, l: Label): System {
    match l
    case Call(c, paths) =>
      if c in sys.callers then sys
      else sys.(callers := sys.callers[c := Caller(ReadRecord, paths, 0, false)])
    case Step(c, built, now) =>
      if c !in sys.callers then sys
      else
        var k := sys.callers[c];
        var (store, next) := Act(sys.store, k, built, now);
        System(store,
               if next.Some? then sys.callers[c := next.value] else sys.callers - {c},
               if k.pc == Return then sys.results + {k.commit} else sys.results)
    case Kill(c) => sys.(callers := sys.callers - {c})
  }

  function Run(sys: System, ls: seq<Label>): System
    decreases |ls|
  {
    if ls == [] then sys else Next(Run(sys, ls[..|ls| - 1]), ls[|ls| - 1])
  }

  function Init(): System {
    System(Store(None, None, None), map[], {})
  }

  // ---------------------------------------------------------------- agreement

  /** Pending record, reference and completed record never disagree. */
  predicate Agree(s: Store) {
    && (s.reference.Some? ==> s.pending.Some? && s.pending.value.commit == s.reference.value)
    && (s.completed.Some? ==>
          && s.reference == Some(s.completed.value.commit)
          && s.pending == Some(Pending(s.completed.value.commit, s.completed.value.paths)))
  }

  predicate Committed(k: Caller) {
    k.pc == Resolve || k.pc == UpdateReference || k.pc == PublishRecord || k.pc == Return
  }

  predicate CallerOk(s: Store, k: Caller) {
    && (Committed(k) ==> s.pending == Some(Pending(k.commit, k.paths)))
    && (k.pc == PublishRecord || k.pc == Return ==> s.reference == Some(k.commit))
  }

  ghost predicate Inv(sys: System) {
    && Agree(sys.store)
    && (forall c <- sys.callers :: CallerOk(sys.store, sys.callers[c]))
    && (forall r <- sys.results :: sys.store.reference == Some(r))
  }

  /** What is set stays as it is. */
  predicate Frozen<T(==)>(a: Option<T>, b: Option<T>) {
    a.Some? ==> b == a
  }

  predicate Grows(a: Store, b: Store) {
    Frozen(a.pending, b.pending) && Frozen(a.reference, b.reference) && Frozen(a.completed, b.completed)
  }

  lemma ActKeeps(s: Store, k: Caller, built: Commit, now: int)
    requires Agree(s) && CallerOk(s, k)
    ensures
      var (t, next) := Act(s, k, built, now);
      Agree(t) && Grows(s, t) && (next.Some? ==> CallerOk(t, next.value))
  {
  }

  lemma StepKeeps(sys: System, l: Label)
    requires Inv(sys)
    ensures Inv(Next(sys, l)) && Grows(sys.store, Next(sys, l).store)
  {
    if l.Step? && l.c in sys.callers {
      ActKeeps(sys.store, sys.callers[l.c], l.built, l.now);
    }
  }

  lemma {:induction false} RunKeeps(sys: System, ls: seq<Label>)
    requires Inv(sys)
    ensures Inv(Run(sys, ls)) && Grows(sys.store, Run(sys, ls).store)
    decreases |ls|
  {
    if ls != [] {
      RunKeeps(sys, ls[..|ls| - 1]);
      StepKeeps(Run(sys, ls[..|ls| - 1]), ls[|ls| - 1]);
    }
  }

  /** Across crashes, retries and concurrent callers, the pending record, the reference and the completed record
      agree, and every successful call returned the one commit they name. */
  lemma AllCallsReturnOneCommit(ls: seq<Label>)
    ensures
      var sys := Run(Init(), ls);
      && Agree(sys.store)
      && (forall r <- sys.results :: sys.store.reference == Some(r))
      && |sys.results| <= 1
  {
    RunKeeps(Init(), ls);
    var results, reference := Run(Init(), ls).results, Run(Init(), ls).store.reference;
    if results != {} {
      assert results == {reference.value};
    }
  }

  /** Whatever happens later, the reference once set, the records once published, never change. */
  lemma NothingIsReplaced(ls: seq<Label>, more: seq<Label>)
    ensures Grows(Run(Init(), ls).store, Run(Run(Init(), ls), more).store)
  {
    RunKeeps(Init(), ls);
    RunKeeps(Run(Init(), ls), more);
  }

  // ---------------------------------------------------------------- one call without interruption

  /** The number of steps a call still takes at most. */
  function Rank(pc: Pc): nat {
    match pc
    case ReadRecord => 8
    case ReadPending => 7
    case Build => 6
    case PublishPending => 5
    case Resolve => 4
    case UpdateReference => 3
    case PublishRecord => 2
    case Return => 1
  }

  /** What a call that is left alone leaves behind and returns. */
  function Ending(s: Store, k: Caller, built: Commit, now: int): (Store, Option<Commit>)
    decreases Rank(k.pc)
  {
    var (t, next) := Act(s, k, built, now);
    if k.pc == Return then (t, Some(k.commit))
    else if next.None? then (t, None)
    else Ending(t, next.value, built, now)
  }

  function Steps(c: CallerId, n: nat, built: Commit, now: int): seq<Label> {
    seq(n, _ => Step(c, built, now))
  }

  lemma {:induction false} RunFrom(sys: System, l: Label, ls: seq<Label>)
    ensures Run(sys, [l] + ls) == Run(Next(sys, l), ls)
    decreases |ls|
  {
    if ls == [] {
      assert [l] + ls == [l] && [l][..0] == [];
    } else {
      RunFrom(sys, l, ls[..|ls| - 1]);
      assert ([l] + ls)[..|ls|] == [l] + ls[..|ls| - 1];
    }
  }

  lemma {:induction false} StepsEnd(sys: System, c: CallerId, n: nat, built: Commit, now: int)
    requires c in sys.callers ==> Rank(sys.callers[c].pc) <= n
    ensures
      var t := Run(sys, Steps(c, n, built, now));
      if c !in sys.callers then t == sys
      else
        var (store, r) := Ending(sys.store, sys.callers[c], built, now);
        t == System(store, sys.callers - {c}, if r.Some? then sys.results + {r.value} else sys.results)
    decreases n
  {
    hide Act;
    if n > 0 {
      var l := Step(c, built, now);
      assert Steps(c, n, built, now) == [l] + Steps(c, n - 1, built, now);
      RunFrom(sys, l, Steps(c, n - 1, built, now));
      if c in sys.callers {
        ActDescends(sys.store, sys.callers[c], built, now);
      }
      StepsEnd(Next(sys, l), c, n - 1, built, now);
      assert Next(sys, l).callers - {c} == sys.callers - {c};
    }
  }

  lemma ActDescends(s: Store, k: Caller, built: Commit, now: int)
    ensures var next := Act(s, k, built, now).1; next.Some? ==> Rank(next.value.pc) < Rank(k.pc)
    ensures k.pc == Return ==> Act(s, k, built, now) == (s, None)
  {
  }

  lemma EndsFromResolve(s: Store, k: Caller, built: Commit, now: int)
    requires Agree(s) && CallerOk(s, k) && k.pc == Resolve && k.recorded == s.completed.Some?
    ensures
      var at := if s.completed.Some? then s.completed.value.createdAt else now;
      Ending(s, k, built, now) ==
        (Store(Some(Pending(k.commit, k.paths)), Some(k.commit), Some(Completed(k.commit, k.paths, at))), Some(k.commit))
  {
    var ensured := s.(reference := Some(k.commit));
    if s.completed.None? {
      var done := ensured.(completed := Some(Completed(k.commit, k.paths, now)));
      assert Ending(done, k.(pc := Return), built, now) == (done, Some(k.commit));
      assert Ending(ensured, k.(pc := PublishRecord), built, now) == (done, Some(k.commit));
    } else {
      assert Ending(s, k.(pc := Return), built, now) == (s, Some(k.commit));
    }
  }

  /** From every reachable state, whatever earlier calls left, a call that is left alone ends within eight steps.  It
      is refused exactly for other paths, and otherwise returns the commit that was prepared first and leaves
      pending record, reference and completed record with that commit. */
  lemma CallAloneEnds(sys: System, c: CallerId, paths: Paths, built: Commit, now: int)
    requires Inv(sys) && c !in sys.callers
    ensures
      var s, t := sys.store, Run(Next(sys, Call(c, paths)), Steps(c, 8, built, now));
      var commit := if s.pending.Some? then s.pending.value.commit else built;
      && t.callers == sys.callers
      && (if s.pending.Some? && s.pending.value.paths != paths then t.store == s && t.results == sys.results
          else
            && t.results == sys.results + {commit}
            && t.store == Store(Some(Pending(commit, paths)), Some(commit),
                                Some(Completed(commit, paths, if s.completed.Some? then s.completed.value.createdAt else now))))
  {
    hide Agree;
    hide CallerOk;
    var s, k := sys.store, Caller(ReadRecord, paths, 0, false);
    StepsEnd(Next(sys, Call(c, paths)), c, 8, built, now);
    assert sys.callers[c := k] - {c} == sys.callers;
    EndsFromStart(s, paths, built, now);
  }

  lemma EndsFromStart(s: Store, paths: Paths, built: Commit, now: int)
    requires Agree(s)
    ensures
      var k := Caller(ReadRecord, paths, 0, false);
      var commit := if s.pending.Some? then s.pending.value.commit else built;
      var at := if s.completed.Some? then s.completed.value.createdAt else now;
      Ending(s, k, built, now) ==
        if s.pending.Some? && s.pending.value.paths != paths then (s, None)
        else (Store(Some(Pending(commit, paths)), Some(commit), Some(Completed(commit, paths, at))), Some(commit))
  {
    var k := Caller(ReadRecord, paths, 0, false);
    var commit := if s.pending.Some? then s.pending.value.commit else built;
    var resolving := k.(pc := Resolve, commit := commit, recorded := s.completed.Some?);
    if s.pending.None? {
      var prepared := s.(pending := Some(Pending(commit, paths)));
      EndsFromResolve(prepared, resolving, built, now);
      assert Ending(s, k.(pc := PublishPending, commit := commit), built, now) == Ending(prepared, resolving, built, now);
      assert Ending(s, k.(pc := Build), built, now) == Ending(prepared, resolving, built, now);
    } else if s.pending.value.paths == paths {
      EndsFromResolve(s, resolving, built, now);
    }
    assert s.completed.None? ==> Ending(s, k, built, now) == Ending(s, k.(pc := ReadPending), built, now);
  }

  class Checkpoint {
    var store: Store

    constructor ()
      ensures store == Store(None, None, None)
    {
      store := Store(None, None, None);
    }

    /** `_ensure_reference`. */
    method EnsureReference(commit: Commit) returns (ok: bool)
      modifies this
      ensures ok <==> old(store).reference.None? || old(store).reference == Some(commit)
      ensures store == if ok then old(store).(reference := Some(commit)) else old(store)
    {
      if store.reference.None? {
        store := store.(reference := Some(commit));
      }
      ok := store.reference == Some(commit);
    }

    /** `create`: finishes whatever an earlier call left, with the commit that call prepared; only a call for other
        paths is refused. */
    method Create(paths: Paths, built: Commit, now: int) returns (r: Option<Commit>)
      requires Agree(store)
      modifies this
      ensures Agree(store) && Grows(old(store), store)
      ensures r.Some? <==> (old(store).pending.Some? ==> old(store).pending.value.paths == paths)
      ensures r.Some? ==> r.value == if old(store).pending.Some? then old(store).pending.value.commit else built
      ensures r.Some? ==>
        var at := if old(store).completed.Some? then old(store).completed.value.createdAt else now;
        store == Store(Some(Pending(r.value, paths)), r, Some(Completed(r.value, paths, at)))
      ensures (store, r) == Ending(old(store), Caller(ReadRecord, paths, 0, false), built, now)
      ensures r.None? ==> store == old(store)
    {
      EndsFromStart(store, paths, built, now);
      hide Ending;
      if store.completed.Some? {
        var record := store.completed.value;
        if record.paths != paths {
          return None;
        }
        var ok := EnsureReference(record.commit);
        return Some(record.commit);
      }
      var commit := built;
      if store.pending.Some? {
        if store.pending.value.paths != paths {
          return None;
        }
        commit := store.pending.value.commit;
      } else {
        store := store.(pending := Some(Pending(commit, paths)));
      }
      var ok := EnsureReference(commit);
      store := store.(completed := Some(Completed(commit, paths, now)));
      r := Some(commit);
    }
  }
}
