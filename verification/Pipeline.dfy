/** One uninterrupted call of the ingestion pipeline, as code over the control database and the
    workspace files.

    Each method proves that the state it leaves is one the state machine of `Promotion` reaches
    while all other workers stand still, so what is proved there about every run holds of it.
 */
module Pipeline {
  import opened Options
  import opened LedgerTypes
  import opened Leases
  import opened Promotion
  import opened PromotionInvariant
  import opened PromotionSteps
  import opened ControlPlane
  import opened PipelineRuns
  import PromotionTheorems

  datatype Report =
    | Failed
    | AlreadyDone
    | SemanticNoop(active: GenId)
    | Finished(txn: TxnId)

  /** The promotion of `t` is CURRENT and every side effect of it is in place. */
  predicate Closed(s: Ledger, t: TxnId) {
    && s.current == NextOf(t) && s.marker == Some(NextOf(t))
    && t in s.wal && s.wal[t].state == Completed
    && t in s.events && (t in s.outbox ==> s.outbox[t])
    && OperationDone(s, t.op)
    && t.op in s.manifests && s.manifests[t.op] == Manifest(RunSucceeded, t)
  }

  lemma LeasesDoNotMatter(s: Ledger, t: TxnId, table: LeaseTable)
    ensures Closed(s.(leases := table), t) == Closed(s, t)
    ensures OperationDone(s.(leases := table), t.op) == OperationDone(s, t.op)
  {
  }

  lemma FinishCloses(s: Ledger, t: TxnId, source: LeaseToken, global: LeaseToken, now: int, ttl: int)
    requires CanFinish(s, t, source, global, now, ttl)
    ensures Closed(AfterFinish(s, t, source, global, now, ttl), t)
  {
    hide EventsResolved;
    hide NextOf;
    hide HeldTable;
  }

  /** The branch `_promote` takes once it holds its leases. */
  datatype Choice =
    | Refuse
    | CloseNoop
    | Candidate(prep: TxnId, superseded: Option<TxnId>, rebased: bool)

  function ChoiceOf(o: Outcome): Choice {
    match o
    case Goes(_, wk) =>
      if wk.pc == NoopOperation then CloseNoop
      else Candidate(wk.prep, wk.superseded, wk.pc == RebaseBundle)
    case _ => Refuse
  }

  /** The leases of one call last as long as it needs them. */
  predicate Timely(s: Ledger, t: TxnId, clock: Readings) {
    if s.current == t.parent then
      clock.guard < clock.start + clock.ttl && clock.materialize < clock.guard + clock.ttl
    else clock.materialize < clock.start + clock.ttl
  }

  ghost function ChoiceFor(s: Ledger, bundle: TxnId): Choice {
    ChoiceOf(Decision(s, Fresh(bundle, false)))
  }

  /** Exactly when a promotion of the bundle goes through: the leases are free and last, and the bundle, or its
      rebase, is chosen and can be committed. */
  ghost predicate CanPromote(s: Ledger, w: WorkerId, bundle: TxnId, clock: Readings) {
    && clock.ttl > 0 && LeasesFree(s.leases, w, bundle.op, clock.start)
    && var c := ChoiceFor(s, bundle);
       c.Candidate? && Committable(s, c.prep, c.superseded) && Timely(s, c.prep, clock)
  }

  /** The choice depends on the bundle and the ledger, not on the leases. */
  lemma LeasedChoice(s: Ledger, bundle: TxnId, table: LeaseTable, wk: Worker)
    requires wk.prep == bundle
    ensures ChoiceOf(Decision(s.(leases := table), wk)) == ChoiceFor(s, bundle)
  {
    hide NextOf;
    hide Latest;
    hide MergeClaim;
  }

  lemma CommittableLeased(s: Ledger, t: TxnId, superseded: Option<TxnId>, table: LeaseTable)
    ensures Committable(s.(leases := table), t, superseded) == Committable(s, t, superseded)
  {
    hide EventsResolved;
    hide NextOf;
  }

  lemma RestagedCommits(s: Ledger, t: TxnId, superseded: Option<TxnId>, source: LeaseToken, global: LeaseToken, clock: Readings)
    ensures
      var r := Restaged(s, t);
      && Committable(r, t, superseded) == Committable(s, t, superseded)
      && HeldLongEnough(r, t, source, global, clock) == HeldLongEnough(s, t, source, global, clock)
  {
    hide EventsResolved;
    hide NextOf;
    hide BothValid;
  }

  /** With leases taken now, holding them long enough is a matter of the clock readings. */
  lemma TimelyIffHeld(s: Ledger, w: WorkerId, bundle: TxnId, t: TxnId, clock: Readings)
    requires Leased(s, w, bundle, false, clock.start, clock.ttl).1.global.Some?
    ensures
      var (table, wk) := Leased(s, w, bundle, false, clock.start, clock.ttl);
      && wk.source.Some? && clock.ttl > 0
      && (HeldLongEnough(s.(leases := table), t, wk.source.value, wk.global.value, clock) <==> Timely(s, t, clock))
  {
    hide Leased;
    LeasedHolds(s, w, bundle, false, clock.start, clock.ttl);
  }

  /** What the leased body of a promotion decides on is what the caller could see before the call. */
  lemma PromoteIff(s: Ledger, w: WorkerId, bundle: TxnId, clock: Readings)
    ensures
      var (table, wk) := Leased(s, w, bundle, false, clock.start, clock.ttl);
      var leased, c := s.(leases := table), ChoiceOf(Decision(s.(leases := table), wk));
      && wk.prep == bundle
      && c == ChoiceFor(s, bundle)
      && (wk.global.Some? <==> clock.ttl > 0 && LeasesFree(s.leases, w, bundle.op, clock.start))
      && (CanPromote(s, w, bundle, clock) <==>
            wk.global.Some? && wk.source.Some? && c.Candidate? && Committable(leased, c.prep, c.superseded)
            && HeldLongEnough(leased, c.prep, wk.source.value, wk.global.value, clock))
  {
    hide Leased;
    hide Decision;
    hide Committable;
    hide HeldLongEnough;
    hide Timely;
    hide LeasesFree;
    hide BothValid;
    var (table, wk) := Leased(s, w, bundle, false, clock.start, clock.ttl);
    LeasedHolds(s, w, bundle, false, clock.start, clock.ttl);
    LeasedChoice(s, bundle, table, wk);
    var c := ChoiceFor(s, bundle);
    if wk.global.Some? && c.Candidate? {
      CommittableLeased(s, c.prep, c.superseded, table);
      TimelyIffHeld(s, w, bundle, c.prep, clock);
    }
  }

  lemma DecisionKeeps(s: Ledger, wk: Worker)
    ensures
      var o := Decision(s, wk);
      && !o.Returns?
      && (o.Goes? ==>
           && o.worker.source == wk.source && o.worker.global == wk.global && o.worker.active == s.current
           && o.worker.started == wk.started
           && o.worker.prep.op == wk.prep.op
           && (o.worker.pc == NoopOperation ==> s.current.Gen?)
           && (o.worker.pc == NoopOperation || o.worker.pc == RebaseBundle || o.worker.pc == PublishGeneration))
  {
    hide NextOf;
    hide Latest;
    hide Reconciled;
    hide MergeClaim;
  }

  /** The leases are free and the clock readings stay within their time to live. */
  predicate InTime(s: Ledger, w: WorkerId, op: Operation, clock: Readings) {
    && clock.ttl > 0 && LeasesFree(s.leases, w, op, clock.start)
    && clock.guard < clock.start + clock.ttl && clock.materialize < clock.guard + clock.ttl
  }

  lemma EntersRecovery(from: System, w: WorkerId, others: map<WorkerId, Worker>, s: Ledger, op: Operation)
    requires Reaches(from, System(s, others)) && w !in others && w !in from.workers && MayRecover(s, op)
    ensures Standing(from, w, others, s, Fresh(Latest(s.wal, op).value, true))
  {
    hide Reaches;
    hide Standing;
    hide Latest;
    ReachesStep(from, System(s, others), Recover(w, op));
    StandsReached(from, w, others, s, Fresh(Latest(s.wal, op).value, true));
  }

  lemma EntersPromotion(from: System, w: WorkerId, others: map<WorkerId, Worker>, s: Ledger, op: Operation)
    requires Reaches(from, System(s, others)) && w !in others && w !in from.workers && MayPromote(s, op) && Bundle(s, op).Some?
    ensures Standing(from, w, others, s, Fresh(Bundle(s, op).value, false))
  {
    hide Reaches;
    hide Standing;
    hide Bundle;
    hide MayPromote;
    ReachesStep(from, System(s, others), Promotion.Promote(w, op));
    StandsReached(from, w, others, s, Fresh(Bundle(s, op).value, false));
  }

  lemma StartsRecovery(s: Ledger, others: map<WorkerId, Worker>, w: WorkerId, op: Operation)
    requires w !in others && MayRecover(s, op)
    ensures Standing(System(s, others), w, others, s, Fresh(Latest(s.wal, op).value, true))
  {
    hide Reaches;
    hide Standing;
    hide MayRecover;
    ReachesSelf(System(s, others));
    EntersRecovery(System(s, others), w, others, s, op);
  }

  lemma StartsPromotion(s: Ledger, others: map<WorkerId, Worker>, w: WorkerId, op: Operation)
    requires w !in others && MayPromote(s, op) && Bundle(s, op).Some?
    ensures Standing(System(s, others), w, others, s, Fresh(Bundle(s, op).value, false))
  {
    hide Reaches;
    hide Standing;
    hide MayPromote;
    ReachesSelf(System(s, others));
    EntersPromotion(System(s, others), w, others, s, op);
  }

  /** The candidate a bundle leads to on the present CURRENT. */
  function CandidateFor(s: Ledger, t: TxnId): TxnId {
    if s.current == t.parent then t else Rebase(t, s.current)
  }

  /** On a reconciled CURRENT, a bundle of an operation that has no live row, whose claim is not active yet and whose
      candidate was never recorded, goes through as it is or rebased. */
  lemma ClearBundlePromotes(s: Ledger, others: map<WorkerId, Worker>, w: WorkerId, bundle: TxnId, clock: Readings)
    requires Reachable(System(s, others)) && Reconciled(s, s.current)
    requires Latest(s.wal, bundle.op) == None && !ActiveClaim(s.current, bundle.claim) && CandidateFor(s, bundle) !in s.wal
    requires InTime(s, w, bundle.op, clock)
    ensures CanPromote(s, w, bundle, clock) && ChoiceFor(s, bundle).prep == CandidateFor(s, bundle)
  {
    hide Reachable;
    hide Shared;
    hide WorkerInv;
    hide EventsResolved;
    hide NextOf;
    hide MergeClaim;
    hide LeasesFree;
    hide Latest;
    hide Reconciled;
    hide Published;
    hide ActiveClaim;
    ReachableInv(System(s, others));
    ReconciledNotNext(s, bundle);
    CandidateResolves(s, CandidateFor(s, bundle));
  }

  lemma ReconciledNotNext(s: Ledger, t: TxnId)
    requires Shared(s) && Reconciled(s, s.current) && Latest(s.wal, t.op) == None
    ensures s.current != NextOf(t)
  {
    if s.current == NextOf(t) {
      assert t in s.wal && s.wal[t].state == Completed;
      LatestExists(s.wal, t.op);
    }
  }

  lemma CandidateResolves(s: Ledger, t: TxnId)
    requires Shared(s) && Reconciled(s, s.current) && t.parent == s.current
    ensures EventsResolved(Published(s.events, t), NextOf(t))
  {
    hide RowOk;
    hide BundleOk;
    hide RowsDistinct;
    if s.current.Gen? {
      PromotionTheorems.CurrentEventsResolved(s);
    }
    MoreEventsResolve(s.events, Published(s.events, t), s.current);
  }

  /** While CURRENT is not reconciled, no bundle but its own is taken up. */
  lemma UnreconciledRefuses(s: Ledger, others: map<WorkerId, Worker>, op: Operation, bundle: TxnId)
    requires Reachable(System(s, others)) && !Reconciled(s, s.current) && !AtCommitted(s, op)
    requires Bundle(s, op) == Some(bundle)
    ensures ChoiceFor(s, bundle).Refuse?
    ensures forall w, clock :: !CanPromote(s, w, bundle, clock)
  {
    hide Reachable;
    hide Reconciled;
    hide NextOf;
    hide ChainOk;
    hide WellFormed;
    hide RowOk;
    hide BundleOk;
    hide RowsDistinct;
    hide WorkerInv;
    ReachableInv(System(s, others));
    assert bundle.op == op;
  }

  /** In a reachable state whose CURRENT is the newest candidate of `op`, nothing stands in the way
      of recovery but the leases, and recovery leaves CURRENT reconciled. */
  lemma CommittedIsRecoverable(s: Ledger, others: map<WorkerId, Worker>, w: WorkerId, op: Operation, clock: Readings)
    requires Reachable(System(s, others)) && AtCommitted(s, op)
    ensures op in s.operations && op in s.manifests
    ensures
      var t := Latest(s.wal, op).value;
      && (InTime(s, w, op, clock) ==> CanRecover(s, w, t, clock))
      && t in Published(s.events, t) && Published(s.events, t)[t] == EventOf(t)
      && (forall table ::
            var after := FinishedLedger(s, t).(leases := table);
            after.current == s.current && after.events == Published(s.events, t) && Closed(after, t) && Reconciled(after, s.current))
      && (Reconciled(s, s.current) && Terminal(s, op) ==> Closed(s, t) && Published(s.events, t) == s.events)
  {
    hide EventsResolved;
    hide Reachable;
    hide ChainOk;
    hide WellFormed;
    hide Inv;
    hide Closed;
    hide FinishedLedger;
    hide NextOf;
    ReachableInv(System(s, others));
    var t := Latest(s.wal, op).value;
    CommittedFacts(s, others, t);
    forall table
      ensures
        var after := FinishedLedger(s, t).(leases := table);
        after.current == s.current && after.events == Published(s.events, t) && Closed(after, t) && Reconciled(after, s.current)
    {
      FinishedIsClosed(s, t, table);
    }
    if Reconciled(s, s.current) && Terminal(s, op) {
      ReconciledIsClosed(s, t);
    }
  }

  lemma CommittedFacts(s: Ledger, others: map<WorkerId, Worker>, t: TxnId)
    requires Inv(System(s, others)) && t in s.wal && s.current == NextOf(t)
    ensures t in s.outbox && EventsResolved(Published(s.events, t), s.current)
    ensures t in s.events ==> s.events[t] == EventOf(t)
    ensures t.op in s.operations && t.op in s.manifests
  {
    CommittedResolves(s, t);
    assert RowOk(s, t);
  }

  lemma FinishedIsClosed(s: Ledger, t: TxnId, table: LeaseTable)
    requires t in s.wal && s.current == NextOf(t) && t in s.outbox && (t in s.events ==> s.events[t] == EventOf(t))
    ensures
      var after := FinishedLedger(s, t).(leases := table);
      && after.current == s.current && after.events == Published(s.events, t)
      && Closed(after, t) && Reconciled(after, s.current)
  {
  }

  lemma ReconciledIsClosed(s: Ledger, t: TxnId)
    requires t in s.wal && s.current == NextOf(t) && Reconciled(s, s.current)
    ensures Closed(s, t)
  {
  }

  /** From every reachable state in which CURRENT is the newest candidate of an operation, whatever
      crash produced it, one uninterrupted recovery by an idle worker reaches a state in which the
      promotion is closed, CURRENT has not moved, and its one event is the event of the candidate. */
  lemma RecoveryCompletes(sys: System, w: WorkerId, op: Operation, clock: Readings)
    requires Reachable(sys) && w !in sys.workers && AtCommitted(sys.ledger, op) && InTime(sys.ledger, w, op, clock)
    ensures
      var t := Latest(sys.ledger.wal, op).value;
      exists after: System ::
        && Reaches(sys, after) && after.workers == sys.workers
        && after.ledger.current == sys.ledger.current
        && after.ledger.events == Published(sys.ledger.events, t)
        && Closed(after.ledger, t) && Reconciled(after.ledger, after.ledger.current)
  {
    hide Reachable;
    hide Reaches;
    hide Standing;
    hide Latest;
    hide NextOf;
    hide Closed;
    hide CanRecover;
    hide Published;
    hide FinishedLedger;
    hide Reconciled;
    var s, t := sys.ledger, Latest(sys.ledger.wal, op).value;
    ReachesSelf(sys);
    CommittedIsRecoverable(s, sys.workers, w, op, clock);
    if !(Reconciled(s, s.current) && Terminal(s, op)) {
      StartsRecovery(s, sys.workers, w, op);
      var table := RecoveryRuns(sys, w, sys.workers, s, t, clock);
      var after := System(FinishedLedger(s, t).(leases := table), sys.workers);
      assert Reaches(sys, after);
    }
  }

  lemma CommittedResolves(s: Ledger, t: TxnId)
    requires Shared(s) && s.current == NextOf(t)
    ensures t in s.outbox && EventsResolved(Published(s.events, t), s.current)
  {
    ChildNotInChain(t);
    assert ChainOk(s, s.current) && ChainOk(s, t.parent);
    assert InChain(t.parent, t.parent) && InChain(t.parent, s.current);
    BelowCurrentIsSettled(s, t.parent);
    PromotionTheorems.SettledEventsResolved(s, t.parent);
    MoreEventsResolve(s.events, Published(s.events, t), t.parent);
  }

  lemma MoreEventsResolve(a: map<TxnId, Event>, b: map<TxnId, Event>, g: GenId)
    requires EventsResolved(a, g) && forall x <- a :: x in b && b[x] == a[x]
    ensures EventsResolved(b, g)
  {
  }

  /** The branches of a promotion: refuse while CURRENT is not reconciled, unless the bundle is the newest row and CURRENT
      came from it; close a claim that is active already; rebase a bundle that was prepared on another generation,
      superseding its own row unless that got past the commit; take it as it is otherwise, superseding another newest
      row that did not get past the commit. */
  lemma ChoiceMeans(s: Ledger, bundle: TxnId)
    ensures
      var x, stale := Latest(s.wal, bundle.op), s.current != bundle.parent && s.current != NextOf(bundle);
      var early := x.Some? && s.wal[x.value].state in {Prepared, Committing};
      ChoiceFor(s, bundle) ==
        if !(x == Some(bundle) && s.current == NextOf(bundle)) && !Reconciled(s, s.current) then Refuse
        else if x.None? && ActiveClaim(s.current, bundle.claim) then CloseNoop
        else if stale && x == Some(bundle) && !early then Refuse
        else if stale then Candidate(Rebase(bundle, s.current), if x == Some(bundle) then x else None, true)
        else Candidate(bundle, if x != Some(bundle) && early then x else None, false)
  {
    hide NextOf;
    hide Latest;
    hide Reconciled;
    hide Rebase;
    hide ActiveClaim;
  }

  lemma RebaseOf(t: TxnId, g: GenId)
    ensures Rebase(t, g).parent == g && Rebase(t, g).op == t.op
  {
  }

  /** Exactly when a promotion goes through. */
  lemma PromoteMeans(s: Ledger, w: WorkerId, bundle: TxnId, clock: Readings)
    ensures
      var x, stale := Latest(s.wal, bundle.op), s.current != bundle.parent && s.current != NextOf(bundle);
      var t := if stale then Rebase(bundle, s.current) else bundle;
      CanPromote(s, w, bundle, clock) <==>
        && clock.ttl > 0 && LeasesFree(s.leases, w, bundle.op, clock.start)
        && ((x == Some(bundle) && s.current == NextOf(bundle)) || Reconciled(s, s.current))
        && !(x.None? && ActiveClaim(s.current, bundle.claim))
        && !(stale && x == Some(bundle) && s.wal[bundle].state !in {Prepared, Committing})
        && (t in s.wal ==> s.wal[t].state != Aborted)
        && EventsResolved(Published(s.events, t), NextOf(t))
        && (if s.current == t.parent then clock.guard < clock.start + clock.ttl && clock.materialize < clock.guard + clock.ttl
            else clock.materialize < clock.start + clock.ttl)
  {
    hide NextOf;
    hide Latest;
    hide Reconciled;
    hide Rebase;
    hide ActiveClaim;
    hide EventsResolved;
    hide LeasesFree;
    hide ChoiceFor;
    ChoiceMeans(s, bundle);
    RebaseOf(bundle, s.current);
  }

  /** What a promotion that goes through leaves of the ledger. */
  lemma FinishedMeans(s: Ledger, bundle: TxnId, now: int, r: Report, after: Ledger)
    requires r.Finished? && LeftAs(s, ChoiceFor(s, bundle), bundle.op, now, r, after)
    requires r.txn == ChoiceFor(s, bundle).prep
    ensures
      var x, stale := Latest(s.wal, bundle.op), s.current != bundle.parent && s.current != NextOf(bundle);
      var t := r.txn;
      var superseded := x.Some? && s.wal[x.value].state in {Prepared, Committing} && (stale <==> x == Some(bundle));
      && t == (if stale then Rebase(bundle, s.current) else bundle) && t.op == bundle.op && (superseded ==> x != Some(t))
      && RowsAfter(s.wal, after.wal, t, if superseded then x else None, now, s.nextRow)
      && after == s.(current := NextOf(t), generations := s.generations + {NextOf(t)}, wal := after.wal,
                     nextRow := if t in s.wal then s.nextRow else s.nextRow + 1,
                     outbox := s.outbox[t := true], events := if t in s.events then s.events else s.events[t := EventOf(t)],
                     operations := s.operations[bundle.op := OpRow(Succeeded, Some(NextOf(t)))],
                     manifests := s.manifests[bundle.op := Manifest(RunSucceeded, t)], marker := Some(NextOf(t)),
                     staging := if stale then s.staging[bundle.op := t] else s.staging, leases := after.leases)
  {
    hide NextOf;
    hide Latest;
    hide Reconciled;
    hide Rebase;
    hide ActiveClaim;
    hide ChoiceFor;
    hide PromotedLedger;
    hide RowsAfter;
    ChoiceMeans(s, bundle);
    RebaseOf(bundle, s.current);
    var c := ChoiceFor(s, bundle);
    PromotedFields(if c.rebased then Restaged(s, c.prep) else s, c.prep, c.superseded, now);
  }

  /** What a promotion leaves behind, apart from leases, when it finishes, is a no-op or is refused. */
  ghost predicate LeftAs(s: Ledger, c: Choice, op: Operation, now: int, r: Report, after: Ledger) {
    && (r.Finished? ==>
          && c.Candidate? && c.superseded != Some(c.prep) && (c.superseded.Some? ==> c.superseded.value in s.wal)
          && after == PromotedLedger(if c.rebased then Restaged(s, c.prep) else s, c.prep, c.superseded, now)
                        .(leases := after.leases))
    && (r.SemanticNoop? ==> s.current.Gen? && after == NoopClosed(s, op).(leases := after.leases))
    && (c.Refuse? ==> after == s.(leases := after.leases))
  }

  lemma LeftWhateverLeases(s: Ledger, c: Choice, op: Operation, now: int, r: Report, after: Ledger, first: LeaseTable, last: LeaseTable)
    requires LeftAs(s.(leases := first), c, op, now, r, after)
    ensures LeftAs(s, c, op, now, r, after.(leases := last))
  {
    hide PromotedLedger;
    hide Restaged;
    if r.Finished? {
      RestagedLeases(s, c.prep, first);
      PromotedLeases(if c.rebased then Restaged(s, c.prep) else s, c.prep, c.superseded, now, first);
    }
  }

  lemma UnfinishedMeans(s: Ledger, c: Choice, op: Operation, now: int, r: Report, after: Ledger)
    requires LeftAs(s, c, op, now, r, after) && !r.Finished?
    ensures r.SemanticNoop? ==>
      && s.current.Gen?
      && after == s.(operations := s.operations[op := OpRow(Succeeded, Some(s.current))],
                     manifests := s.manifests[op := Manifest(RunSucceeded, s.current.txn)], leases := after.leases)
    ensures c.Refuse? ==> after == s.(leases := after.leases)
  {
  }

  lemma RestagedLeases(s: Ledger, t: TxnId, table: LeaseTable)
    ensures Restaged(s.(leases := table), t) == Restaged(s, t).(leases := table)
  {
  }

  /** What `recover_run` answers and leaves.  A finished operation on a reconciled CURRENT is answered as done.  If CURRENT
      came from the newest live row, the promotion is finished where that is possible.  Otherwise a bundle of an
      unfinished operation is promoted, and there is nothing to recover without one. */
  ghost predicate RecoveredAs(s: Ledger, w: WorkerId, op: Operation, clock: Readings, r: Report, after: Ledger) {
    var x := Latest(s.wal, op);
    var known := op in s.manifests && op in s.operations;
    var terminal :=
      && known && OperationDone(s, op) && s.manifests[op].state == RunSucceeded
      && (x.None? || s.wal[x.value].state == Completed);
    var bundle := if op in s.staging then Some(s.staging[op]) else x;
    if terminal && Reconciled(s, s.current) then r == AlreadyDone && after == s
    else if known && x.Some? && s.current == NextOf(x.value) then
      && after.leases == Freed(s.leases, s.epoch, w, op, clock.start, clock.ttl)
      && (if CanRecover(s, w, x.value, clock) then
            r == Finished(x.value) && after == FinishedLedger(s, x.value).(leases := after.leases)
          else r == Failed && after.current == s.current)
    else if !known || terminal || bundle.None? then r == Failed && after == s
    else
      && after.leases == Freed(s.leases, s.epoch, w, bundle.value.op, clock.start, clock.ttl)
      && (r.Finished? <==> CanPromote(s, w, bundle.value, clock))
      && (r.Finished? ==> Closed(after, r.txn))
      && (r.SemanticNoop? <==>
            && clock.ttl > 0 && LeasesFree(s.leases, w, bundle.value.op, clock.start)
            && Reconciled(s, s.current) && Latest(s.wal, bundle.value.op).None? && ActiveClaim(s.current, bundle.value.claim))
      && (r.SemanticNoop? ==> after.current == s.current && OperationDone(after, bundle.value.op))
      && (r.Failed? || r.SemanticNoop? || r.Finished?)
      && (ChoiceFor(s, bundle.value).Refuse? ==> after.current == s.current)
  }

  /** The operation and its run are recorded as finished and its newest row, if any, is completed. */
  ghost predicate RecordedDone(s: Ledger, op: Operation) {
    && op in s.manifests && op in s.operations
    && OperationDone(s, op) && s.manifests[op].state == RunSucceeded
    && (Latest(s.wal, op).None? || s.wal[Latest(s.wal, op).value].state == Completed)
  }

  lemma EntriesOpen(s: Ledger, op: Operation)
    requires op in s.manifests && op in s.operations && !(RecordedDone(s, op) && Reconciled(s, s.current))
    ensures AtCommitted(s, op) ==> MayRecover(s, op)
    ensures !AtCommitted(s, op) && !RecordedDone(s, op) ==> MayPromote(s, op)
  {
    hide Latest;
    hide Reconciled;
    hide NextOf;
    hide OperationDone;
  }

  lemma DoneAnswered(s: Ledger, w: WorkerId, op: Operation, clock: Readings)
    requires RecordedDone(s, op) && Reconciled(s, s.current)
    ensures RecoveredAs(s, w, op, clock, AlreadyDone, s)
  {
    hide Latest;
    hide Reconciled;
  }

  lemma RefusalAnswered(s: Ledger, w: WorkerId, op: Operation, clock: Readings)
    requires op in s.manifests && op in s.operations ==>
      && !AtCommitted(s, op)
      && ((RecordedDone(s, op) && !Reconciled(s, s.current)) || (op !in s.staging && Latest(s.wal, op).None?))
      && !(RecordedDone(s, op) && Reconciled(s, s.current))
    ensures RecoveredAs(s, w, op, clock, Failed, s)
  {
    hide Latest;
    hide Reconciled;
    hide NextOf;
  }

  lemma RecoveryAnswered(s: Ledger, w: WorkerId, op: Operation, clock: Readings, r: Report, after: Ledger)
    requires op in s.manifests && op in s.operations && AtCommitted(s, op)
    requires !(RecordedDone(s, op) && Reconciled(s, s.current))
    requires after.leases == Freed(s.leases, s.epoch, w, op, clock.start, clock.ttl)
    requires
      var t := Latest(s.wal, op).value;
      if CanRecover(s, w, t, clock) then r == Finished(t) && after == FinishedLedger(s, t).(leases := after.leases)
      else r == Failed && after.current == s.current
    ensures RecoveredAs(s, w, op, clock, r, after)
  {
    hide Latest;
    hide Reconciled;
    hide NextOf;
    hide Freed;
    hide FinishedLedger;
    hide CanRecover;
  }

  lemma PromotionAnswered(s: Ledger, w: WorkerId, op: Operation, bundle: TxnId, clock: Readings, r: Report, after: Ledger)
    requires op in s.manifests && op in s.operations && !AtCommitted(s, op) && Bundle(s, op) == Some(bundle)
    requires !RecordedDone(s, op)
    requires after.leases == Freed(s.leases, s.epoch, w, bundle.op, clock.start, clock.ttl)
    requires r.Finished? <==> CanPromote(s, w, bundle, clock)
    requires r.Finished? ==> Closed(after, r.txn)
    requires r.SemanticNoop? <==>
      && clock.ttl > 0 && LeasesFree(s.leases, w, bundle.op, clock.start)
      && Reconciled(s, s.current) && Latest(s.wal, bundle.op).None? && ActiveClaim(s.current, bundle.claim)
    requires r.SemanticNoop? ==> after.current == s.current && OperationDone(after, bundle.op)
    requires r.Failed? || r.SemanticNoop? || r.Finished?
    requires ChoiceFor(s, bundle).Refuse? ==> after.current == s.current
    ensures RecoveredAs(s, w, op, clock, r, after)
  {
    hide Latest;
    hide Reconciled;
    hide NextOf;
    hide Freed;
    hide CanPromote;
    hide Closed;
    hide LeasesFree;
    hide ActiveClaim;
    hide OperationDone;
    hide ChoiceFor;
  }

  lemma SameExtends(t: LeaseTable, source: LeaseToken, global: LeaseToken)
    ensures OnlyExtended(t, t, source, global)
  {
  }

  lemma SwapExtends(s: Ledger, t: TxnId, source: LeaseToken, global: LeaseToken, now: int, ttl: int)
    ensures OnlyExtended(s.leases, AfterSwap(s, t, source, global, now, ttl).leases, source, global)
  {
    hide HeldTable;
    hide OnlyExtended;
    hide CanSwap;
    SameExtends(s.leases, source, global);
    HeldExtends(s.leases, source, global, now, ttl);
  }

  lemma FinishExtends(s: Ledger, t: TxnId, source: LeaseToken, global: LeaseToken, now: int, ttl: int)
    ensures OnlyExtended(s.leases, AfterFinish(s, t, source, global, now, ttl).leases, source, global)
  {
    hide HeldTable;
    hide OnlyExtended;
    hide CanMaterialize;
    SameExtends(s.leases, source, global);
    HeldExtends(s.leases, source, global, now, ttl);
  }

  class IngestPipeline {
    const db: ControlDB
    const worker: WorkerId
    var current: GenId
    var generations: set<GenId>
    var events: map<TxnId, Event>
    var manifests: map<Operation, Manifest>
    var marker: Option<GenId>
    var staging: map<Operation, TxnId>

    /** A fresh workspace. */
    constructor (db: ControlDB, worker: WorkerId)
      ensures this.db == db && this.worker == worker
      ensures current == Genesis && generations == {Genesis} && events == map[] && manifests == map[]
      ensures marker == None && staging == map[]
    {
      this.db, this.worker := db, worker;
      current, generations, events, manifests, marker, staging := Genesis, {Genesis}, map[], map[], None, map[];
    }

    function Snapshot(): Ledger
      reads this, db
    {
      Ledger(current, generations, db.wal, db.nextRow, db.outbox, events, db.operations, manifests, marker,
             staging, db.epoch, db.leases)
    }

    /** Asks for the source lease and then for the global lease. */
    method AcquireBoth(t: TxnId, recovering: bool, now: int, ttl: int)
      returns (source: Option<LeaseToken>, global: Option<LeaseToken>)
      modifies db`leases
      ensures
        var (table, wk) := Leased(old(Snapshot()), worker, t, recovering, now, ttl);
        db.leases == table && source == wk.source && global == wk.global
      ensures old(db.Ordered()) ==> db.Ordered()
    {
      global := None;
      source := db.AcquireLease(SourcePartition(t.op.source), worker, ttl, now);
      if source.Some? {
        global := db.AcquireLease(LedgerCurrent, worker, ttl, now);
      }
    }

    /** The `finally` clause. */
    method ReleaseBoth(source: Option<LeaseToken>, global: Option<LeaseToken>)
      modifies db`leases
      ensures db.leases == Released(old(db.leases), source, global)
    {
      if global.Some? {
        var _ := db.ReleaseLease(global.value);
      }
      if source.Some? {
        var _ := db.ReleaseLease(source.value);
      }
    }

    /** Checks and extends both leases inside one writer transaction. */
    method HoldBoth(source: LeaseToken, global: LeaseToken, now: int, ttl: int) returns (held: bool)
      requires source.partition != global.partition
      modifies db`leases
      ensures held <==> ttl > 0 && BothValid(old(db.leases), source, global, now)
      ensures db.leases == HeldTable(old(db.leases), source, global, now, ttl)
      ensures OnlyExtended(old(db.leases), db.leases, source, global)
      ensures old(db.Ordered()) ==> db.Ordered()
    {
      HeldExtends(db.leases, source, global, now, ttl);
      HoldPair(db.leases, source, global, now, ttl);
      var r := db.HoldValidLeases([source, global], now, Some(ttl));
      held := r.Some?;
    }

    /** Publishes the event, marks the outbox entry and materializes CURRENT under the leases. */
    method Reconcile(t: TxnId, source: LeaseToken, global: LeaseToken, now: int, ttl: int) returns (ok: bool)
      requires source.partition != global.partition
      requires t in db.wal && PastCommit(db.wal[t].state)
      modifies this`events, this`marker, db`outbox, db`wal, db`leases
      ensures ok <==> CanMaterialize(old(Snapshot()), t, source, global, now, ttl)
      ensures events == Published(old(events), t)
      ensures db.outbox == Marked(old(db.outbox), t)
      ensures db.wal == MovedTo(old(db.wal), t, Furthest(old(db.wal)[t].state, Reconciling))
      ensures db.leases == HeldTable(old(db.leases), source, global, now, ttl)
      ensures marker == if ok then Some(current) else old(marker)
    {
      hide EventsResolved;
      hide NextOf;
      hide BothValid;
      hide HeldTable;
      if t !in events {
        events := events[t := EventOf(t)];
      }
      db.MarkEventAppended(t);
      var moved := db.AdvancePromotionState(t, Reconciling);
      var held := HoldBoth(source, global, now, ttl);
      ok := held && current == NextOf(t) && EventsResolved(events, current);
      if ok {
        marker := Some(current);
      }
    }

    /** Everything after the pointer moved. */
    method FinishPromotion(t: TxnId, source: LeaseToken, global: LeaseToken, now: int, ttl: int) returns (ok: bool)
      requires source.partition != global.partition
      modifies this`events, this`marker, this`manifests, db`outbox, db`wal, db`leases, db`operations
      ensures ok <==> CanFinish(old(Snapshot()), t, source, global, now, ttl)
      ensures Snapshot() == AfterFinish(old(Snapshot()), t, source, global, now, ttl)
    {
      hide CanMaterialize;
      hide NextOf;
      hide HeldTable;
      hide Published;
      hide Marked;
      hide Furthest;
      ghost var s := Snapshot();
      if t !in db.wal || db.wal[t].state == Aborted {
        return false;
      }
      ok := ReconcileCommitted(t, source, global, now, ttl);
      if ok {
        CanMaterializeCurrent(s, t, source, global, now, ttl);
        CloseRun(t);
      }
    }

    /** Marks the row committed and the operation reconciling, then reconciles. */
    method ReconcileCommitted(t: TxnId, source: LeaseToken, global: LeaseToken, now: int, ttl: int) returns (ok: bool)
      requires source.partition != global.partition && t in db.wal && db.wal[t].state != Aborted
      modifies this`events, this`marker, db`outbox, db`wal, db`leases, db`operations
      ensures ok <==> CanMaterialize(old(Snapshot()), t, source, global, now, ttl)
      ensures Snapshot() == HalfFinished(old(Snapshot()), t, source, global, now, ttl).(marker := marker)
      ensures marker == if ok then Some(current) else old(marker)
    {
      hide EventsResolved;
      hide NextOf;
      hide BothValid;
      hide HeldTable;
      hide Published;
      hide Marked;
      hide MovedTo;
      hide Furthest;
      ghost var before := db.wal;
      ok := db.AdvancePromotionState(t, Committed);
      db.operations := db.operations[t.op := OpRow(OpReconciling, None)];
      MovedFurther(before, t, Committed, Reconciling);
      ok := Reconcile(t, source, global, now, ttl);
    }

    /** Records the successful operation, completes the row and closes the run. */
    method CloseRun(t: TxnId)
      requires t in db.wal && PastCommit(db.wal[t].state)
      modifies this`manifests, db`wal, db`operations
      ensures db.operations == old(db.operations)[t.op := OpRow(Succeeded, Some(NextOf(t)))]
      ensures db.wal == MovedTo(old(db.wal), t, Completed)
      ensures manifests == old(manifests)[t.op := Manifest(RunSucceeded, t)]
    {
      db.operations := db.operations[t.op := OpRow(Succeeded, Some(NextOf(t)))];
      var completed := db.AdvancePromotionState(t, Completed);
      manifests := manifests[t.op := Manifest(RunSucceeded, t)];
    }

    /** `FinishPromotion`, followed on the state machine. */
    method FinishAsRun(t: TxnId, source: LeaseToken, global: LeaseToken, now: int, ttl: int,
                       ghost from: System, ghost others: map<WorkerId, Worker>, ghost wk: Worker) returns (ok: bool)
      requires source.partition != global.partition
      requires Standing(from, worker, others, Snapshot(), wk)
      requires wk.pc == ToCommitted && wk.prep == t && wk.source == Some(source) && wk.global == Some(global)
      modifies this`events, this`marker, this`manifests, db`outbox, db`wal, db`leases, db`operations
      ensures Standing(from, worker, others, Snapshot(), wk.(pc := ReleaseGlobal))
      ensures ok <==> CanFinish(old(Snapshot()), t, source, global, now, ttl)
      ensures Snapshot() == AfterFinish(old(Snapshot()), t, source, global, now, ttl)
      ensures OnlyExtended(old(db.leases), db.leases, source, global)
    {
      hide Standing;
      hide CanFinish;
      hide AfterFinish;
      hide OnlyExtended;
      FinishExtends(Snapshot(), t, source, global, now, ttl);
      FinishRuns(from, worker, others, Snapshot(), wk, now, ttl);
      ok := FinishPromotion(t, source, global, now, ttl);
    }

    /** `_recover_committed`: finishes the side effects of a promotion that already moved CURRENT. */
    method RecoverCommitted(t: TxnId, clock: Readings, ghost from: System, ghost others: map<WorkerId, Worker>)
      returns (ok: bool)
      requires db.Ordered() && worker !in others
      requires Standing(from, worker, others, Snapshot(), Fresh(t, true))
      modifies this, db
      ensures Reaches(from, System(Snapshot(), others))
      ensures current == old(current)
      ensures ok <==> CanRecover(old(Snapshot()), worker, t, clock)
      ensures ok ==> Snapshot() == FinishedLedger(old(Snapshot()), t).(leases := db.leases)
      ensures db.leases == Freed(old(db.leases), db.epoch, worker, t.op, clock.start, clock.ttl)
    {
      hide Standing;
      hide Reaches;
      hide EventsResolved;
      hide NextOf;
      hide Latest;
      hide Leased;
      hide OnlyExtended;
      hide Freed;
      hide FinishedLedger;
      hide CanRecover;
      hide CanGuard;
      hide Released;
      hide Published;
      hide BothValid;
      hide ControlDB.Ordered;
      ghost var s := Snapshot();
      var source, global := AcquireBoth(t, true, clock.start, clock.ttl);
      ghost var wk := Leased(s, worker, t, true, clock.start, clock.ttl).1;
      LeaseRuns(from, worker, others, s, t, true, clock.start, clock.ttl);
      LeasedHolds(s, worker, t, true, clock.start, clock.ttl);
      GuardAfterLease(s, worker, t, clock);
      ok := false;
      if global.Some? {
        ghost var table := db.leases;
        ok := GuardAndFinish(t, source.value, global.value, clock, from, others, wk);
        if ok {
          FinishedLeases(s, t, table);
        }
      }
      ReleaseRuns(from, worker, others, Snapshot(), wk.(pc := ReleaseGlobal));
      ReleasedIsFreed(s, worker, t, true, clock.start, clock.ttl, db.leases);
      ReleaseBoth(source, global);
    }

    /** Takes the writer lock and looks again at the newest row, CURRENT and the outbox. */
    method Guard(t: TxnId, source: LeaseToken, global: LeaseToken, now: int, ttl: int,
                 ghost from: System, ghost others: map<WorkerId, Worker>, ghost wk: Worker) returns (ok: bool)
      requires db.Ordered() && source.partition != global.partition
      requires Standing(from, worker, others, Snapshot(), wk)
      requires wk.pc == RecoverGuard && wk.prep == t && wk.source == Some(source) && wk.global == Some(global)
      modifies db`leases
      ensures ok <==> CanGuard(old(Snapshot()), t, Latest(old(db.wal), t.op), source, global, now, ttl)
      ensures Snapshot() == old(Snapshot()).(leases := HeldTable(old(db.leases), source, global, now, ttl))
      ensures OnlyExtended(old(db.leases), db.leases, source, global)
      ensures Standing(from, worker, others, Snapshot(), wk.(pc := if ok then ToCommitted else ReleaseGlobal))
    {
      hide Standing;
      hide NextOf;
      hide Latest;
      hide HeldTable;
      hide BothValid;
      hide CanGuard;
      hide OnlyExtended;
      hide ControlDB.Ordered;
      ghost var s := Snapshot();
      GuardRuns(from, worker, others, s, wk, now, ttl);
      var held := HoldBoth(source, global, now, ttl);
      var latest := db.PromotionForOperation(t.op);
      ok := held && latest == Some(t) && current == NextOf(t) && t in db.outbox;
      GuardPasses(s, t, latest, source, global, now, ttl);
    }

    method GuardAndFinish(t: TxnId, source: LeaseToken, global: LeaseToken, clock: Readings,
                          ghost from: System, ghost others: map<WorkerId, Worker>, ghost wk: Worker) returns (ok: bool)
      requires db.Ordered() && source.partition != global.partition
      requires Standing(from, worker, others, Snapshot(), wk)
      requires wk.pc == RecoverGuard && wk.prep == t && wk.source == Some(source) && wk.global == Some(global)
      modifies this`events, this`marker, this`manifests, db`outbox, db`wal, db`leases, db`operations
      ensures Standing(from, worker, others, Snapshot(), wk.(pc := ReleaseGlobal))
      ensures ok ==> t in old(db.wal)
      ensures OnlyExtended(old(db.leases), db.leases, source, global)
      ensures ok <==>
        && CanGuard(old(Snapshot()), t, Latest(old(db.wal), t.op), source, global, clock.guard, clock.ttl)
        && clock.materialize < clock.guard + clock.ttl
        && EventsResolved(Published(old(events), t), current)
      ensures ok ==> Snapshot() == FinishedLedger(old(Snapshot()), t).(leases := db.leases)
    {
      hide Standing;
      hide EventsResolved;
      hide NextOf;
      hide Latest;
      hide AfterFinish;
      hide CanFinish;
      hide FinishedLedger;
      hide HeldTable;
      hide Published;
      hide CanGuard;
      hide OnlyExtended;
      hide ControlDB.Ordered;
      ghost var s := Snapshot();
      ok := Guard(t, source, global, clock.guard, clock.ttl, from, others, wk);
      ghost var extended := db.leases;
      if ok {
        FinishAfterGuard(s, t, Latest(s.wal, t.op), source, global, clock);
        ok := FinishAsRun(t, source, global, clock.materialize, clock.ttl, from, others, wk.(pc := ToCommitted));
        ExtendedFurther(s.leases, extended, db.leases, source, global);
      }
    }

    /** `_promote`, followed on the state machine. */
    method PromoteAsRun(bundle: TxnId, clock: Readings, ghost from: System, ghost others: map<WorkerId, Worker>)
      returns (r: Report)
      requires db.Ordered() && worker !in others
      requires Standing(from, worker, others, Snapshot(), Fresh(bundle, false))
      modifies this, db
      ensures Reaches(from, System(Snapshot(), others))
      ensures r.Finished? <==> CanPromote(old(Snapshot()), worker, bundle, clock)
      ensures r.Finished? ==>
        r.txn == ChoiceFor(old(Snapshot()), bundle).prep && r.txn.op == bundle.op && Closed(Snapshot(), r.txn)
      ensures r.SemanticNoop? <==>
        clock.ttl > 0 && LeasesFree(old(db.leases), worker, bundle.op, clock.start) && ChoiceFor(old(Snapshot()), bundle).CloseNoop?
      ensures r.SemanticNoop? ==> current == old(current) == r.active && OperationDone(Snapshot(), bundle.op)
      ensures ChoiceFor(old(Snapshot()), bundle).Refuse? ==> current == old(current)
      ensures
        clock.ttl > 0 && LeasesFree(old(db.leases), worker, bundle.op, clock.start) ==>
          LeftAs(old(Snapshot()), ChoiceFor(old(Snapshot()), bundle), bundle.op, clock.start, r, Snapshot())
      ensures
        clock.ttl <= 0 || !LeasesFree(old(db.leases), worker, bundle.op, clock.start) ==>
          Snapshot() == old(Snapshot()).(leases := db.leases)
      ensures r.Failed? || r.SemanticNoop? || r.Finished?
      ensures db.leases == Freed(old(db.leases), db.epoch, worker, bundle.op, clock.start, clock.ttl)
    {
      hide Standing;
      hide Reaches;
      hide Leased;
      hide Released;
      hide Closed;
      hide OperationDone;
      hide BothValid;
      hide Decision;
      hide Committable;
      hide HeldLongEnough;
      hide LeasesFree;
      hide CanPromote;
      hide ChoiceFor;
      hide LeftAs;
      hide OnlyExtended;
      hide Freed;
      hide ControlDB.Ordered;
      ghost var s, before := Snapshot(), Snapshot();
      PromoteIff(s, worker, bundle, clock);
      var source, global := AcquireBoth(bundle, false, clock.start, clock.ttl);
      ghost var wk := Leased(s, worker, bundle, false, clock.start, clock.ttl).1;
      LeaseRuns(from, worker, others, s, bundle, false, clock.start, clock.ttl);
      LeasedHolds(s, worker, bundle, false, clock.start, clock.ttl);
      ghost var first := db.leases;
      r := Failed;
      if global.Some? {
        r, wk := PromoteLeased(bundle, source.value, global.value, clock, from, others, wk);
      }
      s := Snapshot();
      ReleaseRuns(from, worker, others, s, wk);
      ReleasedIsFreed(before, worker, bundle, false, clock.start, clock.ttl, db.leases);
      ReleaseBoth(source, global);
      LeasesDoNotMatter(s, if r.Finished? then r.txn else bundle, db.leases);
      if global.Some? {
        LeftWhateverLeases(before, ChoiceFor(before, bundle), bundle.op, clock.start, r, s, first, db.leases);
      }
    }

    /** `_promote`. */
    method Promote(bundle: TxnId, clock: Readings, ghost from: System, ghost others: map<WorkerId, Worker>)
      returns (r: Report)
      requires db.Ordered() && worker !in others
      requires Standing(from, worker, others, Snapshot(), Fresh(bundle, false))
      modifies this, db
      ensures Reaches(from, System(Snapshot(), others))
      ensures r.Failed? || r.SemanticNoop? || r.Finished?
      ensures
        var t, p, q := old(db.leases), SourcePartition(bundle.op.source), LedgerCurrent;
        var a, b := IssuedToken(t, p, worker, clock.start), IssuedToken(t, q, worker, clock.start);
        db.leases ==
          if clock.ttl <= 0 || a.None? then t
          else if b.None? then t[p := LeaseRow(db.epoch, None, a.value, 0)]
          else t[p := LeaseRow(db.epoch, None, a.value, 0)][q := LeaseRow(db.epoch, None, b.value, 0)]
      ensures db.leases == Freed(old(db.leases), db.epoch, worker, bundle.op, clock.start, clock.ttl)
      ensures ChoiceFor(old(Snapshot()), bundle).Refuse? ==> current == old(current)
      ensures r.Finished? <==> CanPromote(old(Snapshot()), worker, bundle, clock)
      ensures r.Finished? ==> r.txn.op == bundle.op && Closed(Snapshot(), r.txn)
      ensures
        var s, x := old(Snapshot()), Latest(old(db.wal), bundle.op);
        var stale := s.current != bundle.parent && s.current != NextOf(bundle);
        var t := if stale then Rebase(bundle, s.current) else bundle;
        var early := x.Some? && s.wal[x.value].state in {Prepared, Committing};
        var admitted :=
          && clock.ttl > 0 && LeasesFree(s.leases, worker, bundle.op, clock.start)
          && ((x == Some(bundle) && s.current == NextOf(bundle)) || Reconciled(s, s.current));
        var noop := x.None? && ActiveClaim(s.current, bundle.claim);
        var stuck := stale && x == Some(bundle) && !early;
        && (r.SemanticNoop? <==> admitted && noop)
        && (r.SemanticNoop? ==>
              && r.active == s.current && s.current.Gen?
              && Snapshot() == s.(operations := s.operations[bundle.op := OpRow(Succeeded, Some(s.current))],
                                  manifests := s.manifests[bundle.op := Manifest(RunSucceeded, s.current.txn)],
                                  leases := db.leases))
        && (r.Finished? <==>
              && admitted && !noop && !stuck
              && (t in s.wal ==> s.wal[t].state != Aborted) && EventsResolved(Published(s.events, t), NextOf(t))
              && (if s.current == t.parent then
                    clock.guard < clock.start + clock.ttl && clock.materialize < clock.guard + clock.ttl
                  else clock.materialize < clock.start + clock.ttl))
        && (!admitted || (!noop && stuck) ==> r.Failed? && Snapshot() == s.(leases := db.leases))
      ensures r.Finished? ==>
        var s, x, t := old(Snapshot()), Latest(old(db.wal), bundle.op), r.txn;
        var stale := s.current != bundle.parent && s.current != NextOf(bundle);
        var superseded := x.Some? && s.wal[x.value].state in {Prepared, Committing} && (stale <==> x == Some(bundle));
        && t == (if stale then Rebase(bundle, s.current) else bundle)
        && db.wal.Keys == s.wal.Keys + {t}
        && db.wal[t] == (if t in s.wal then s.wal[t] else WalRow(Prepared, clock.start, s.nextRow)).(state := Completed)
        && (superseded ==> db.wal[x.value] == s.wal[x.value].(state := Aborted))
        && (forall u <- s.wal | u != t && !(superseded && x == Some(u)) :: db.wal[u] == s.wal[u])
        && current == NextOf(t) && generations == s.generations + {NextOf(t)}
        && events == (if t in s.events then s.events else s.events[t := EventOf(t)]) && db.outbox == s.outbox[t := true]
        && db.operations == s.operations[bundle.op := OpRow(Succeeded, Some(NextOf(t)))]
        && manifests == s.manifests[bundle.op := Manifest(RunSucceeded, t)] && marker == Some(NextOf(t))
        && staging == if stale then s.staging[bundle.op := t] else s.staging
    {
      hide Standing;
      hide Reaches;
      hide Closed;
      hide OperationDone;
      hide NextOf;
      hide Latest;
      hide Reconciled;
      hide Rebase;
      hide ActiveClaim;
      hide EventsResolved;
      hide Published;
      hide LeasesFree;
      hide ChoiceFor;
      hide CanPromote;
      hide LeftAs;
      hide ControlDB.Ordered;
      ghost var s := Snapshot();
      ChoiceMeans(s, bundle);
      PromoteMeans(s, worker, bundle, clock);
      r := PromoteAsRun(bundle, clock, from, others);
      if r.Finished? {
        FinishedMeans(s, bundle, clock.start, r, Snapshot());
      } else if clock.ttl > 0 && LeasesFree(s.leases, worker, bundle.op, clock.start) {
        UnfinishedMeans(s, ChoiceFor(s, bundle), bundle.op, clock.start, r, Snapshot());
      }
    }

    /** What to do with a bundle, from CURRENT, the newest row and the reconciliation of CURRENT. */
    method Choose(bundle: TxnId, ghost wk: Worker) returns (c: Choice)
      requires db.Ordered() && wk.prep == bundle
      ensures c == ChoiceOf(Decision(Snapshot(), wk))
    {
      hide NextOf;
      hide Latest;
      hide Reconciled;
      hide Rebase;
      var active := current;
      var existing := db.PromotionForOperation(bundle.op);
      var own := existing == Some(bundle) && active == NextOf(bundle);
      if !own && !Reconciled(Snapshot(), active) {
        return Refuse;
      }
      if existing.None? && ActiveClaim(active, bundle.claim) {
        return CloseNoop;
      }
      if active != bundle.parent && active != NextOf(bundle) {
        if existing != Some(bundle) {
          c := Candidate(Rebase(bundle, active), None, true);
        } else if Superseding(db.wal[bundle].state) {
          c := Candidate(Rebase(bundle, active), existing, true);
        } else {
          c := Refuse;
        }
      } else if existing.Some? && existing.value != bundle && Superseding(db.wal[existing.value].state) {
        c := Candidate(bundle, existing, false);
      } else {
        c := Candidate(bundle, None, false);
      }
    }

    /** The body of `_promote` between taking and releasing the leases. */
    method PromoteLeased(bundle: TxnId, source: LeaseToken, global: LeaseToken, clock: Readings,
                         ghost from: System, ghost others: map<WorkerId, Worker>, ghost wk: Worker)
      returns (r: Report, ghost last: Worker)
      requires db.Ordered() && source.partition != global.partition
      requires Standing(from, worker, others, Snapshot(), wk)
      requires wk.pc == ReadActive && wk.prep == bundle && wk.source == Some(source) && wk.global == Some(global)
      requires wk.started == clock.start
      modifies this, db
      ensures Standing(from, worker, others, Snapshot(), last)
      ensures last.pc == ReleaseGlobal && last.source == wk.source && last.global == wk.global
      ensures OnlyExtended(old(db.leases), db.leases, source, global)
      ensures
        var c := ChoiceOf(Decision(old(Snapshot()), wk));
        && (r.Finished? <==> c.Candidate? && Committable(old(Snapshot()), c.prep, c.superseded)
                             && HeldLongEnough(old(Snapshot()), c.prep, source, global, clock))
        && (r.Finished? ==> r.txn == c.prep && r.txn.op == bundle.op && Closed(Snapshot(), r.txn))
        && (r.SemanticNoop? <==> c.CloseNoop?)
        && (c.Refuse? ==> current == old(current))
        && LeftAs(old(Snapshot()), c, bundle.op, clock.start, r, Snapshot())
      ensures r.SemanticNoop? ==> current == old(current) == r.active && OperationDone(Snapshot(), bundle.op)
      ensures r.Failed? || r.SemanticNoop? || r.Finished?
    {
      hide Standing;
      hide Decision;
      hide Closed;
      hide Restaged;
      hide NoopClosed;
      hide Committable;
      hide HeldLongEnough;
      hide PromotedLedger;
      hide OnlyExtended;
      SameExtends(db.leases, source, global);
      ghost var s := Snapshot();
      Raised(from, worker, others, s, wk);
      DecisionRuns(from, worker, others, s, wk);
      DecisionKeeps(s, wk);
      var c := Choose(bundle, wk);
      r, last := Failed, wk.(pc := ReleaseGlobal);
      if c.Refuse? {
        return;
      }
      last := Decision(s, wk).worker;
      if c.CloseNoop? {
        NoopRuns(from, worker, others, s, last);
        CloseAsNoop(bundle.op);
        r := SemanticNoop(current);
      } else {
        if c.rebased {
          RestageRuns(from, worker, others, s, last);
          RestagedCommits(s, c.prep, c.superseded, source, global, clock);
          Restage(c.prep);
        }
        var ok := CommitCandidate(c.prep, c.superseded, source, global, clock, from, others, last.(pc := PublishGeneration));
        r := if ok then Finished(c.prep) else Failed;
      }
      last := last.(pc := ReleaseGlobal);
    }

    /** The claim is already active: only the operation and the run are closed. */
    method CloseAsNoop(op: Operation)
      requires current.Gen?
      modifies this`manifests, db`operations
      ensures Snapshot() == NoopClosed(old(Snapshot()), op)
    {
      db.operations := db.operations[op := OpRow(Succeeded, Some(current))];
      manifests := manifests[op := Manifest(RunSucceeded, current.txn)];
    }

    /** `_rebase_prepared` rewrites the bundle and the run's manifest. */
    method Restage(t: TxnId)
      modifies this`staging, this`manifests
      ensures Snapshot() == Restaged(old(Snapshot()), t)
    {
      staging := staging[t.op := t];
      manifests := manifests[t.op := Manifest(RunPrepared, t)];
    }

    /** Publishes the candidate generation and stores its row and its outbox entry. */
    method RecordCandidate(t: TxnId, now: int)
      requires db.Ordered()
      modifies this`generations, db`wal, db`nextRow, db`outbox
      ensures db.Ordered() && Snapshot() == Recorded(old(Snapshot()), t, now)
    {
      hide NextOf;
      hide Recorded;
      RecordedFields(Snapshot(), t, now);
      generations := generations + {NextOf(t)};
      db.StorePromotion(t, now);
      db.StoreEventOutbox(t);
    }

    method AbortSuperseded(superseded: Option<TxnId>) returns (ok: bool)
      modifies db`wal
      ensures ok == CanAbort(old(Snapshot()), superseded)
      ensures Snapshot() == if ok then Dropped(old(Snapshot()), superseded) else old(Snapshot())
    {
      ok := true;
      if superseded.Some? {
        ok := db.UpdatePromotionState(superseded.value, Aborted);
      }
    }

    /** Publishes the candidate, records it, swaps the pointer and reconciles. */
    method CommitCandidate(t: TxnId, superseded: Option<TxnId>, source: LeaseToken, global: LeaseToken, clock: Readings,
                           ghost from: System, ghost others: map<WorkerId, Worker>, ghost wk: Worker) returns (ok: bool)
      requires db.Ordered() && source.partition != global.partition
      requires Standing(from, worker, others, Snapshot(), wk)
      requires wk.pc == PublishGeneration && wk.prep == t && wk.superseded == superseded && wk.started == clock.start
      requires wk.source == Some(source) && wk.global == Some(global)
      modifies this`generations, this`current, this`events, this`marker, this`manifests
      modifies db`wal, db`nextRow, db`outbox, db`leases, db`operations
      ensures Standing(from, worker, others, Snapshot(), wk.(pc := ReleaseGlobal))
      ensures ok <==> Committable(old(Snapshot()), t, superseded) && HeldLongEnough(old(Snapshot()), t, source, global, clock)
      ensures ok ==> Closed(Snapshot(), t)
      ensures OnlyExtended(old(db.leases), db.leases, source, global)
      ensures ok ==> superseded != Some(t) && (superseded.Some? ==> superseded.value in old(db.wal))
      ensures ok ==> Snapshot() == PromotedLedger(old(Snapshot()), t, superseded, clock.start).(leases := db.leases)
    {
      hide Standing;
      hide NextOf;
      hide AfterFinish;
      hide CanFinish;
      hide Closed;
      hide Recorded;
      hide Dropped;
      hide CanAbort;
      hide SwapsNow;
      hide AfterSwap;
      hide Committable;
      hide HeldLongEnough;
      hide PromotedLedger;
      hide OnlyExtended;
      ghost var first := Snapshot();
      SameExtends(first.leases, source, global);
      CommitIff(Snapshot(), t, superseded, source, global, clock);
      RecordRuns(from, worker, others, Snapshot(), wk);
      RecordCandidate(t, clock.start);
      ghost var s := Snapshot();
      ok := AbortSuperseded(superseded);
      if !ok {
        Raised(from, worker, others, s, wk.(pc := Pc.AbortSuperseded));
        return;
      }
      AbortRuns(from, worker, others, s, wk.(pc := Pc.AbortSuperseded));
      SwapExtends(Snapshot(), t, source, global, clock.guard, clock.ttl);
      ok := SwapPointer(t, source, global, clock.guard, clock.ttl, from, others, wk.(pc := Reread));
      if ok {
        s := Snapshot();
        ok := FinishAsRun(t, source, global, clock.materialize, clock.ttl, from, others, wk.(pc := ToCommitted));
        if ok {
          FinishCloses(s, t, source, global, clock.materialize, clock.ttl);
          FinishedIsPromoted(first, t, superseded, source, global, clock);
        }
        ExtendedFurther(first.leases, s.leases, db.leases, source, global);
      }
    }

    /** Rereads the pointer and, unless it already names the candidate, moves it under the leases. */
    method SwapPointer(t: TxnId, source: LeaseToken, global: LeaseToken, now: int, ttl: int,
                       ghost from: System, ghost others: map<WorkerId, Worker>, ghost wk: Worker) returns (ok: bool)
      requires source.partition != global.partition
      requires Standing(from, worker, others, Snapshot(), wk)
      requires wk.pc == Reread && wk.prep == t && wk.source == Some(source) && wk.global == Some(global)
      modifies this`current, db`wal, db`leases
      ensures Standing(from, worker, others, Snapshot(), wk.(pc := if ok then ToCommitted else ReleaseGlobal))
      ensures ok <==> SwapsNow(old(Snapshot()), t, source, global, now, ttl)
      ensures Snapshot() == AfterSwap(old(Snapshot()), t, source, global, now, ttl)
    {
      hide Standing;
      hide OnlyExtended;
      hide NextOf;
      hide MovedTo;
      hide BothValid;
      hide HeldTable;
      hide Furthest;
      ghost var s := Snapshot();
      Raised(from, worker, others, s, wk);
      if current != t.parent {
        ok := current == NextOf(t);
        if ok {
          RereadRuns(from, worker, others, s, wk);
        }
        return;
      }
      ok := db.AdvancePromotionState(t, Committing);
      if !ok {
        return;
      }
      RereadRuns(from, worker, others, s, wk);
      ok := ReplaceCurrent(t, source, global, now, ttl, from, others, wk.(pc := Swap));
    }

    /** The fenced commit: both leases are checked and extended in one transaction with the write of CURRENT. */
    method ReplaceCurrent(t: TxnId, source: LeaseToken, global: LeaseToken, now: int, ttl: int,
                          ghost from: System, ghost others: map<WorkerId, Worker>, ghost wk: Worker) returns (ok: bool)
      requires source.partition != global.partition && current == t.parent
      requires Standing(from, worker, others, Snapshot(), wk)
      requires wk.pc == Swap && wk.prep == t && wk.source == Some(source) && wk.global == Some(global)
      modifies this`current, db`leases
      ensures Standing(from, worker, others, Snapshot(), wk.(pc := if ok then ToCommitted else ReleaseGlobal))
      ensures ok <==> CanSwap(old(Snapshot()), t, source, global, now, ttl)
      ensures
        var held := old(Snapshot()).(leases := HeldTable(old(db.leases), source, global, now, ttl));
        Snapshot() == if ok then held.(current := NextOf(t)) else held
    {
      hide Standing;
      hide OnlyExtended;
      hide NextOf;
      hide BothValid;
      hide HeldTable;
      SwapRuns(from, worker, others, Snapshot(), wk, now, ttl);
      var held := HoldBoth(source, global, now, ttl);
      ok := held && NextOf(t) in generations;
      if ok {
        current := NextOf(t);
      } else {
        Raised(from, worker, others, Snapshot(), wk);
      }
    }

    /** `recover_run`, branch by branch. */
    method RecoverAsRun(op: Operation, clock: Readings, ghost others: map<WorkerId, Worker>) returns (r: Report)
      requires db.Ordered() && worker !in others
      modifies this, db
      ensures Reaches(System(old(Snapshot()), others), System(Snapshot(), others))
      ensures RecoveredAs(old(Snapshot()), worker, op, clock, r, Snapshot())
    {
      hide Standing;
      hide Reaches;
      hide Latest;
      hide Reachable;
      hide NextOf;
      hide Reconciled;
      hide Closed;
      hide CanRecover;
      hide CanPromote;
      hide ChoiceFor;
      hide LeasesFree;
      hide Published;
      hide FinishedLedger;
      hide ActiveClaim;
      hide Rebase;
      hide EventsResolved;
      hide Freed;
      hide RecoveredAs;
      hide RowsAfter;
      hide MayPromote;
      hide MayRecover;
      hide Terminal;
      ghost var s, from := Snapshot(), System(Snapshot(), others);
      ReachesSelf(from);
      r := Failed;
      if op !in manifests || op !in db.operations {
        RefusalAnswered(s, worker, op, clock);
        return;
      }
      var wal := db.PromotionForOperation(op);
      if OperationDone(Snapshot(), op) && manifests[op].state == RunSucceeded && (wal.None? || db.wal[wal.value].state == Completed) {
        if Reconciled(Snapshot(), current) {
          DoneAnswered(s, worker, op, clock);
          return AlreadyDone;
        }
        if wal.None? || current != NextOf(wal.value) {
          RefusalAnswered(s, worker, op, clock);
          return;
        }
      }
      EntriesOpen(s, op);
      if wal.Some? && current == NextOf(wal.value) {
        StartsRecovery(s, others, worker, op);
        var ok := RecoverCommitted(wal.value, clock, from, others);
        r := if ok then Finished(wal.value) else Failed;
        RecoveryAnswered(s, worker, op, clock, r, Snapshot());
      } else if op in staging || wal.Some? {
        var bundle := if op in staging then staging[op] else wal.value;
        StartsPromotion(s, others, worker, op);
        r := Promote(bundle, clock, from, others);
        PromotionAnswered(s, worker, op, bundle, clock, r, Snapshot());
      } else {
        RefusalAnswered(s, worker, op, clock);
      }
    }

    /** `recover_run`.  Whatever it does is a run of the protocol.  While CURRENT is not reconciled, a call made
        when both leases are free, and quick enough to keep them, succeeds exactly if CURRENT is the newest
        live candidate of the operation; it then closes the promotion completely, without moving CURRENT
        and with one event. */
    method RecoverRun(op: Operation, clock: Readings, ghost others: map<WorkerId, Worker>) returns (r: Report)
      requires db.Ordered() && worker !in others
      modifies this, db
      ensures Reaches(System(old(Snapshot()), others), System(Snapshot(), others))
      ensures
        var s := old(Snapshot());
        Reachable(System(s, others)) && AtCommitted(s, op) && InTime(s, worker, op, clock) ==>
          var t := Latest(s.wal, op).value;
          && !r.Failed?
          && current == old(current)
          && events == Published(old(events), t) && events[t] == EventOf(t)
          && Closed(Snapshot(), t) && Reconciled(Snapshot(), current)
      ensures
        var s := old(Snapshot());
        Reachable(System(s, others)) && !Reconciled(s, s.current) ==>
          && (InTime(s, worker, op, clock) ==> (!r.Failed? <==> AtCommitted(s, op)))
          && (!AtCommitted(s, op) ==> r.Failed? && current == old(current))
      ensures RecoveredAs(old(Snapshot()), worker, op, clock, r, Snapshot())
    {
      hide Reaches;
      hide Latest;
      hide Reachable;
      hide NextOf;
      hide Reconciled;
      hide Closed;
      hide CanRecover;
      hide CanPromote;
      hide ChoiceFor;
      hide LeasesFree;
      hide EventOf;
      hide Published;
      hide FinishedLedger;
      hide ActiveClaim;
      ghost var s := Snapshot();
      if Reachable(System(s, others)) {
        if AtCommitted(s, op) {
          CommittedIsRecoverable(s, others, worker, op, clock);
        } else if !Reconciled(s, s.current) && Bundle(s, op).Some? {
          UnreconciledRefuses(s, others, op, Bundle(s, op).value);
        }
      }
      r := RecoverAsRun(op, clock, others);
    }
  }
}
