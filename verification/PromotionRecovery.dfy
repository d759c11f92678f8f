/** When a promotion that moved CURRENT can still be recovered.

    `recover_run` looks for the newest row of the operation that was not aborted.  If that row is not the one
    CURRENT came from, the run cannot be recovered, and because every later promotion first asks for a reconciled
    CURRENT, the ledger stays where it is.
 */
module PromotionRecovery {
  import opened Options
  import opened LedgerTypes
  import opened Leases
  import opened Promotion
  import opened PromotionInvariant
  import opened PromotionSteps
  import opened PromotionTheorems
  import opened PromotionFencing
  import opened PromotionReconciled
  import opened PipelineRuns
  import opened Pipeline

  // ---------------------------------------------------------------- an aborted CURRENT

  /** CURRENT came from a row that was aborted. */
  predicate CurrentAborted(s: Ledger) {
    s.current.Gen? && IsAborted(s, s.current.txn)
  }

  lemma AbortedCurrentStays(sys: System, l: Label)
    requires Reachable(sys) && Next(sys, l).Some? && CurrentAborted(sys.ledger)
    ensures Next(sys, l).value.ledger.current == sys.ledger.current && CurrentAborted(Next(sys, l).value.ledger)
  {
    hide Next;
    hide Reachable;
    hide InChain;
    hide WellFormed;
    ReachableInv(sys);
    PointerMovesToChild(sys, l);
    AbortedForEver(sys, l, sys.ledger.current.txn);
  }

  lemma {:induction false} AbortedCurrentThroughRun(epoch: Epoch, ls: seq<Label>, more: seq<Label>)
    requires Exec(Init(epoch), ls).Some? && CurrentAborted(Exec(Init(epoch), ls).value.ledger)
    requires Exec(Exec(Init(epoch), ls).value, more).Some?
    ensures
      var before, after := Exec(Init(epoch), ls).value.ledger, Exec(Exec(Init(epoch), ls).value, more).value.ledger;
      after.current == before.current && CurrentAborted(after)
    decreases |more|
  {
    hide Next;
    hide CurrentAborted;
    hide Init;
    var sys := Exec(Init(epoch), ls).value;
    if more != [] {
      AbortedCurrentThroughRun(epoch, ls, more[..|more| - 1]);
      var before := Exec(sys, more[..|more| - 1]).value;
      assert Reaches(Init(epoch), sys) && Reaches(sys, before);
      ReachesTransitive(Init(epoch), sys, before);
      AbortedCurrentStays(before, more[|more| - 1]);
    }
  }

  /** A CURRENT whose row was aborted is never left, settled or recoverable again, whatever happens. */
  lemma AbortedCurrentIsNeverLeft(sys: System, after: System)
    requires Reachable(sys) && CurrentAborted(sys.ledger) && Reaches(sys, after)
    ensures after.ledger.current == sys.ledger.current && CurrentAborted(after.ledger)
    ensures !Settled(after.ledger, after.ledger.current) && !Reconciled(after.ledger, after.ledger.current)
    ensures forall op :: !AtCommitted(after.ledger, op)
  {
    hide Next;
    hide Init;
    hide NextOf;
    var epoch :| Reaches(Init(epoch), sys);
    var ls :| Exec(Init(epoch), ls) == Some(sys);
    var more :| Exec(sys, more) == Some(after);
    AbortedCurrentThroughRun(epoch, ls, more);
    forall op
      ensures !AtCommitted(after.ledger, op)
    {
      AtCommittedIsCurrent(after.ledger, op);
    }
  }

  /** The newest live candidate that CURRENT came from is CURRENT's own row. */
  lemma AtCommittedIsCurrent(s: Ledger, op: Operation)
    ensures AtCommitted(s, op) ==>
      s.current.Gen? && s.current.txn.op == op && s.current.txn in s.wal && s.wal[s.current.txn].state != Aborted
      && Latest(s.wal, op) == Some(s.current.txn)
  {
  }

  // ---------------------------------------------------------------- no worker past its check

  /** A worker that has not got past the check, or is only releasing its leases; what it read is up to date. */
  ghost predicate BeforeCheck(s: Ledger, wk: Worker) {
    || Rank(wk.pc) >= 27
    || (&& !wk.recovering && Rank(wk.pc) <= 4
        && (Rank(wk.pc) >= 3 ==> wk.active == s.current)
        && (Rank(wk.pc) == 4 && wk.existing.Some? ==> Latest(s.wal, wk.prep.op) == Some(wk.existing.value.0)))
  }

  /** CURRENT is reconciled, apart perhaps from the marker, which a rebuild of the index writes. */
  predicate LacksOnlyMarker(s: Ledger) {
    s.current.Gen? && Settled(s, s.current) && Done(s, s.current, OperationRow) && Done(s, s.current, RunManifest)
  }

  /** Nobody can get past the check: CURRENT lacks more than its marker and is not the newest live candidate of any
      operation. */
  ghost predicate Stuck(sys: System) {
    && sys.ledger.current.Gen? && sys.ledger.current.txn in sys.ledger.wal
    && !LacksOnlyMarker(sys.ledger)
    && (forall op :: !AtCommitted(sys.ledger, op))
    && (forall w <- sys.workers :: BeforeCheck(sys.ledger, sys.workers[w]))
  }

  lemma StuckIsNotReconciled(s: Ledger)
    requires s.current.Gen? && s.current.txn in s.wal && !LacksOnlyMarker(s)
    ensures !Reconciled(s, s.current)
  {
    ReconciledIffDone(s, s.current);
  }

  /** The part of the ledger that no step of a stuck system writes. */
  predicate SameRows(s: Ledger, t: Ledger) {
    t.current == s.current && t.wal == s.wal && t.events == s.events && t.outbox == s.outbox
  }

  lemma SameRowsKeepFacts(s: Ledger, t: Ledger, wk: Worker)
    requires SameRows(s, t)
    ensures forall op :: AtCommitted(s, op) == AtCommitted(t, op)
    ensures BeforeCheck(s, wk) ==> BeforeCheck(t, wk)
  {
    hide Latest;
    hide NextOf;
  }

  /** A worker before the check reads, takes or releases leases, or raises at the check. */
  lemma EarlyAct(s: Ledger, w: WorkerId, wk: Worker, now: int, ttl: int)
    requires BeforeCheck(s, wk) && !Reconciled(s, s.current) && (forall op :: !AtCommitted(s, op))
    ensures
      match Act(s, w, wk, now, ttl)
      case Raises => true
      case Goes(e, next) => (e.SetLeases? || e.Nothing?) && BeforeCheck(s, next)
      case Returns(e) => e.SetLeases? || e.Nothing?
  {
    hide Latest;
    hide NextOf;
    hide Reconciled;
    hide Acquire;
    hide Release;
    hide ActiveClaim;
    hide Holds;
    hide EventsResolved;
    assert wk.pc == Check ==> !AtCommitted(s, wk.prep.op);
  }

  /** No step of a stuck system touches the rows, and no worker of it gets past the check. */
  lemma StuckStep(sys: System, l: Label)
    requires Stuck(sys) && Next(sys, l).Some?
    ensures
      var after := Next(sys, l).value;
      && SameRows(sys.ledger, after.ledger)
      && (forall w <- after.workers :: BeforeCheck(sys.ledger, after.workers[w]))
  {
    hide Act;
    hide Apply;
    hide Reconciled;
    hide AtCommitted;
    hide LacksOnlyMarker;
    hide Latest;
    hide OutsideWrite;
    hide CandidateTxn;
    hide Holds;
    hide Renewed;
    var s := sys.ledger;
    if l.Do? {
      StuckIsNotReconciled(s);
      EarlyAct(s, l.w, sys.workers[l.w], l.now, l.ttl);
      ApplyFrame(s, Act(s, l.w, sys.workers[l.w], l.now, l.ttl).effect);
    } else if l.Renewal? {
      ApplyFrame(s, SetLeases(Renewed(s, sys.workers[l.w], l.now, l.ttl).value));
    } else if WritesOutside(l) {
      ApplyFrame(s, OutsideWrite(s, l).value);
    }
    assert forall op :: !AtCommitted(s, op);
  }

  /** Nor does one close the operation or the run of CURRENT. */
  lemma StuckLacksMore(sys: System, l: Label)
    requires Stuck(sys) && Next(sys, l).Some? && SameRows(sys.ledger, Next(sys, l).value.ledger)
    ensures !LacksOnlyMarker(Next(sys, l).value.ledger)
  {
    hide Next;
    hide Done;
    hide AtCommitted;
    StepTurns(sys, l, OperationRow);
    StepTurns(sys, l, RunManifest);
  }

  lemma StuckStays(sys: System, l: Label)
    requires Stuck(sys) && Next(sys, l).Some?
    ensures Stuck(Next(sys, l).value) && Next(sys, l).value.ledger.current == sys.ledger.current
  {
    hide Next;
    hide AtCommitted;
    hide BeforeCheck;
    hide LacksOnlyMarker;
    StuckStep(sys, l);
    StuckLacksMore(sys, l);
    var after := Next(sys, l).value;
    forall w <- after.workers
      ensures BeforeCheck(after.ledger, after.workers[w])
    {
      SameRowsKeepFacts(sys.ledger, after.ledger, after.workers[w]);
    }
    SameRowsKeepFacts(sys.ledger, after.ledger, Fresh(Txn(Operation(0, 0, 0), Genesis, Claim(0, 0, {}, 0)), false));
  }

  lemma {:induction false} StuckThroughRun(sys: System, ls: seq<Label>)
    requires Stuck(sys) && Exec(sys, ls).Some?
    ensures Stuck(Exec(sys, ls).value) && Exec(sys, ls).value.ledger.current == sys.ledger.current
    decreases |ls|
  {
    hide Next;
    hide Stuck;
    if ls != [] {
      StuckThroughRun(sys, ls[..|ls| - 1]);
      StuckStays(Exec(sys, ls[..|ls| - 1]).value, ls[|ls| - 1]);
    }
  }

  /** What can be done about CURRENT: recover its run, or rebuild the index. */
  ghost predicate Recoverable(s: Ledger) {
    s.current.Gen? && (AtCommitted(s, s.current.txn.op) || LacksOnlyMarker(s))
  }

  /** CURRENT becomes reconciled without having moved. */
  ghost predicate CanReconcile(sys: System) {
    exists after :: Reaches(sys, after) && after.ledger.current == sys.ledger.current
                    && Reconciled(after.ledger, after.ledger.current)
  }

  /** Whatever workers are running. */
  lemma RecoverableReconciles(sys: System)
    requires Reachable(sys) && Recoverable(sys.ledger)
    ensures CanReconcile(sys)
  {
    hide Next;
    hide Reachable;
    hide Reaches;
    hide AtCommitted;
    hide Reconciled;
    hide LacksOnlyMarker;
    var op := sys.ledger.current.txn.op;
    if AtCommitted(sys.ledger, op) {
      var w := SomeWorker(sys.workers.Keys);
      var clock := SomeReadings(sys.ledger, w, op);
      RecoveryCompletes(sys, w, op, clock);
    } else {
      ReachableInv(sys);
      RebuildReconciles(sys);
    }
  }

  lemma RebuildReconciles(sys: System)
    requires Inv(sys) && LacksOnlyMarker(sys.ledger)
    ensures CanReconcile(sys)
  {
    hide Next;
    hide Reaches;
    hide Reconciled;
    hide Inv;
    hide LacksOnlyMarker;
    var l := Rebuild(sys.ledger.current);
    RebuildGoes(sys);
    MarkerCompletes(sys.ledger);
    ReachesSelf(sys);
    ReachesStep(sys, sys, l);
  }

  lemma RebuildGoes(sys: System)
    requires Inv(sys) && LacksOnlyMarker(sys.ledger)
    ensures Next(sys, Rebuild(sys.ledger.current)) == Some(sys.(ledger := sys.ledger.(marker := Some(sys.ledger.current))))
  {
    hide InChain;
    hide EventsResolved;
    hide WorkerInv;
    hide RowOk;
    StaysTheSame(sys.ledger);
    CurrentEventsResolved(sys.ledger);
  }

  lemma MarkerCompletes(s: Ledger)
    requires LacksOnlyMarker(s)
    ensures Reconciled(s.(marker := Some(s.current)), s.current)
  {
  }

  lemma {:induction false} AncestorResolved(events: map<TxnId, Event>, g: GenId, top: GenId)
    requires InChain(g, top) && EventsResolved(events, top)
    ensures EventsResolved(events, g)
    decreases top
  {
    if g != top {
      AncestorResolved(events, g, top.parent);
    }
  }

  lemma CurrentAncestorResolved(s: Ledger, g: GenId)
    requires Shared(s) && Reconciled(s, s.current) && InChain(g, s.current) && g != s.current
    ensures s.current.Gen? && EventsResolved(s.events, g)
  {
    hide EventsResolved;
    hide RowOk;
    hide EventOf;
    CurrentEventsResolved(s);
    AncestorResolved(s.events, g, s.current);
  }

  /** A rebuild of the index that loaded an earlier generation undoes the reconciliation of CURRENT, and nothing but
      the marker has to be written again. */
  lemma StaleRebuildUndoes(sys: System, g: GenId)
    requires Reachable(sys) && Reconciled(sys.ledger, sys.ledger.current)
    requires InChain(g, sys.ledger.current) && g != sys.ledger.current
    ensures
      var after := Next(sys, Rebuild(g));
      && after.Some? && after.value.ledger.current == sys.ledger.current
      && !Reconciled(after.value.ledger, sys.ledger.current) && LacksOnlyMarker(after.value.ledger)
  {
    hide InChain;
    hide EventsResolved;
    hide Reachable;
    hide WorkerInv;
    hide RowOk;
    ReachableInv(sys);
    CurrentAncestorResolved(sys.ledger, g);
    CurrentHasRow(sys);
    ReconciledIffDone(sys.ledger, sys.ledger.current);
  }

  lemma {:induction false} SomeWorker(ids: set<WorkerId>) returns (w: WorkerId)
    ensures forall id <- ids :: id < w
    decreases |ids|
  {
    if ids == {} {
      w := 0;
    } else {
      var id :| id in ids;
      var above := SomeWorker(ids - {id});
      w := above + id + 1;
      assert forall x <- ids :: x == id || x in ids - {id};
    }
  }

  /** The exact condition for recovery when no worker is past its check, in particular after a crash of all workers:
      an unreconciled CURRENT can become reconciled exactly when the newest live row of its operation is its own or it
      lacks nothing but the marker, and is otherwise never left again. */
  lemma CrashRecoverableIff(sys: System)
    requires Reachable(sys) && !Reconciled(sys.ledger, sys.ledger.current)
    requires forall w <- sys.workers :: BeforeCheck(sys.ledger, sys.workers[w])
    ensures CanReconcile(sys) <==> Recoverable(sys.ledger)
    ensures !Recoverable(sys.ledger) ==>
      forall after | Reaches(sys, after) ::
        after.ledger.current == sys.ledger.current && !Reconciled(after.ledger, after.ledger.current)
  {
    hide Next;
    hide Reachable;
    hide AtCommitted;
    hide Reconciled;
    hide LacksOnlyMarker;
    hide BeforeCheck;
    UnreconciledIsNotEmpty(sys.ledger);
    if Recoverable(sys.ledger) {
      RecoverableReconciles(sys);
    } else {
      forall other
        ensures !AtCommitted(sys.ledger, other)
      {
        AtCommittedIsCurrent(sys.ledger, other);
      }
      ReachableInv(sys);
      CurrentHasRow(sys);
      forall after | Reaches(sys, after)
        ensures after.ledger.current == sys.ledger.current && !Reconciled(after.ledger, after.ledger.current)
      {
        var ls :| Exec(sys, ls) == Some(after);
        StuckThroughRun(sys, ls);
        StuckIsNotReconciled(after.ledger);
      }
    }
  }

  lemma {:induction false} KillsAll(sys: System)
    ensures Reaches(sys, System(sys.ledger, map[]))
    decreases |sys.workers|
  {
    ReachesSelf(sys);
    if sys.workers != map[] {
      var w :| w in sys.workers;
      var fewer := sys.(workers := sys.workers - {w});
      assert fewer.workers.Keys == sys.workers.Keys - {w};
      ReachesStep(sys, sys, Kill(w));
      KillsAll(fewer);
      ReachesTransitive(sys, fewer, System(sys.ledger, map[]));
    }
  }

  /** Whatever workers are running in a reachable state, if all of them are killed now, CURRENT can be reconciled
      exactly when it is, or is recoverable; it is otherwise never left again. */
  lemma CrashNowRecoverableIff(sys: System)
    requires Reachable(sys)
    ensures
      var crashed, s := System(sys.ledger, map[]), sys.ledger;
      && Reaches(sys, crashed)
      && (CanReconcile(crashed) <==> Reconciled(s, s.current) || Recoverable(s))
      && (!Reconciled(s, s.current) && !Recoverable(s) ==>
            forall after | Reaches(crashed, after) :: after.ledger.current == s.current)
  {
    hide Next;
    hide Reconciled;
    hide Recoverable;
    hide BeforeCheck;
    var crashed := System(sys.ledger, map[]);
    KillsAll(sys);
    var epoch :| Reaches(Init(epoch), sys);
    ReachesTransitive(Init(epoch), sys, crashed);
    if Reconciled(sys.ledger, sys.ledger.current) {
      ReachesSelf(crashed);
    } else {
      CrashRecoverableIff(crashed);
    }
  }

  lemma UnreconciledIsNotEmpty(s: Ledger)
    requires !Reconciled(s, s.current)
    ensures s.current.Gen?
  {
  }

  /** At some time all leases have run out, and a call made then is in time. */
  lemma SomeReadings(s: Ledger, w: WorkerId, op: Operation) returns (clock: Readings)
    ensures InTime(s, w, op, clock)
  {
    var now := SomeTime(s.leases);
    LeasesFreeLater(s.leases, w, op, now);
    clock := Readings(now, now, now, 1);
  }
}
