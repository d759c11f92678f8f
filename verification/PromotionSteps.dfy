/** Every step of the promotion protocol keeps the invariant, over all interleavings of workers
    and with exceptions and kills at every step. */
module PromotionSteps {
  import opened Options
  import opened LedgerTypes
  import opened Leases
  import opened Promotion
  import opened PromotionInvariant

  // ---------------------------------------------------------------- durable effects

  /** A lease-table change made on behalf of `w` never revives another worker's fence. */
  ghost predicate FencesKept(a: LeaseTable, b: LeaseTable, w: WorkerId) {
    && TableStep(a, b)
    && forall l: LeaseToken :: l.owner != w && Matches(b, l) ==> Matches(a, l)
  }

  ghost predicate UpdateOk(s: Ledger, t: TxnId, to: PromotionState) {
    && t in s.wal
    && Evolves(s.wal[t].state, to) && to != Prepared
    && (PastCommit(to) ==> InChain(NextOf(t), s.current))
    && (to == Completed ==> t in s.events && t in s.outbox && s.outbox[t])
  }

  ghost predicate SwapOk(s: Ledger, t: TxnId) {
    && s.current == t.parent && Canonical(t)
    && t in s.wal && s.wal[t].state != Prepared && t in s.outbox
    && Settled(s, s.current)
  }

  /** The conditions under which an effect keeps the shared state in order. */
  ghost predicate EffectOk(s: Ledger, e: Effect) {
    match e
    case SetLeases(table) => TableStep(s.leases, table)
    case WriteStaging(t) => BundleOk(s, t)
    case InsertRow(t, _) => BundleOk(s, t) && NextOf(t) in s.generations
    case UpdateRow(t, to) => UpdateOk(s, t, to)
    case MoveCurrent(t) => SwapOk(s, t)
    case _ => true
  }

  lemma StaysTheSame(s: Ledger)
    ensures InChain(s.current, s.current)
    ensures forall p :: Evolves(p, p)
  {
  }

  /** Each effect writes one place. */
  lemma ApplyFrame(s: Ledger, e: Effect)
    ensures
      var t := Apply(s, e);
      && t.epoch == s.epoch
      && (!e.SetLeases? ==> t.leases == s.leases)
      && (!e.MoveCurrent? ==> t.current == s.current)
      && (!e.InsertRow? && !e.UpdateRow? ==> t.wal == s.wal && t.nextRow == s.nextRow)
      && (!e.AddEvent? ==> t.events == s.events)
      && (!e.InsertOutbox? && !e.MarkOutbox? ==> t.outbox == s.outbox)
      && (!e.AddGeneration? ==> t.generations == s.generations)
      && (!e.WriteStaging? ==> t.staging == s.staging)
  {
  }

  /** What the effects that write a map leave of it. */
  lemma ApplyWrites(s: Ledger, e: Effect)
    ensures
      var t := Apply(s, e);
      && (e.AddGeneration? ==> t.generations == s.generations + {NextOf(e.txn)})
      && (e.AddEvent? && e.txn in s.events ==> t.events == s.events)
      && (e.AddEvent? && e.txn !in s.events ==> t.events == s.events[e.txn := EventOf(e.txn)])
      && (e.InsertOutbox? && e.txn !in s.outbox ==> t.outbox == s.outbox[e.txn := false])
      && (e.InsertOutbox? && e.txn in s.outbox ==> t.outbox == s.outbox)
      && (e.MarkOutbox? && e.txn in s.outbox ==> t.outbox == s.outbox[e.txn := true])
      && (e.MarkOutbox? && e.txn !in s.outbox ==> t.outbox == s.outbox)
      && (e.InsertRow? && e.txn in s.wal ==> t.wal == s.wal)
      && (e.InsertRow? && e.txn !in s.wal ==> t.wal == s.wal[e.txn := WalRow(Prepared, e.created, s.nextRow)])
      && (e.UpdateRow? && e.txn !in s.wal ==> t.wal == s.wal)
      && (e.UpdateRow? && e.txn in s.wal ==> t.wal == s.wal[e.txn := s.wal[e.txn].(state := e.to)])
      && (e.MoveCurrent? ==> t.current == NextOf(e.txn))
      && (e.SetLeases? ==> t.leases == e.table)
      && (e.WriteStaging? ==> t.staging == s.staging[e.txn.op := e.txn])
  {
  }

  lemma EffectGrows(s: Ledger, e: Effect)
    requires EffectOk(s, e)
    ensures Grows(s, Apply(s, e))
  {
    hide Apply;
    hide InChain;
    hide Evolves;
    hide NextOf;
    hide Canonical;
    hide Settled;
    StaysTheSame(s);
    if e.MoveCurrent? {
      ParentOfNext(e.txn);
    }
    ApplyFrame(s, e);
    ApplyWrites(s, e);
    ApplyKeepsKeys(s, e);
  }

  lemma ParentOfNext(t: TxnId)
    ensures InChain(t.parent, NextOf(t))
  {
    assert InChain(t.parent, t.parent);
  }

  lemma ApplyKeepsKeys(s: Ledger, e: Effect)
    ensures s.operations.Keys <= Apply(s, e).operations.Keys && s.manifests.Keys <= Apply(s, e).manifests.Keys
  {
  }

  /** The rows and bundles after the pointer moved. */
  lemma SwapKeepsRows(s: Ledger, x: TxnId)
    requires Shared(s) && SwapOk(s, x)
    ensures forall y <- s.wal :: RowOk(Apply(s, MoveCurrent(x)), y)
    ensures forall op <- s.staging :: BundleOk(Apply(s, MoveCurrent(x)), s.staging[op])
  {
    var t := Apply(s, MoveCurrent(x));
    assert InChain(s.current, s.current) && InChain(s.current, t.current);
    forall y <- t.wal
      ensures RowOk(t, y)
    {
      assert RowOk(s, y);
      InChainTransitive(y.parent, s.current, t.current);
      if InChain(NextOf(y), s.current) {
        InChainTransitive(NextOf(y), s.current, t.current);
      }
    }
    forall op <- t.staging
      ensures BundleOk(t, t.staging[op])
    {
      InChainTransitive(t.staging[op].parent, s.current, t.current);
    }
  }

  lemma SwapKeepsChain(s: Ledger, x: TxnId)
    requires Shared(s) && SwapOk(s, x)
    ensures
      var t := Apply(s, MoveCurrent(x));
      WellFormed(t.current) && ChainOk(t, t.current) && RowsDistinct(t)
  {
    var t := Apply(s, MoveCurrent(x));
    EffectGrows(s, MoveCurrent(x));
    ChainOkGrows(s, t, s.current);
  }

  lemma SwapKeepsShared(s: Ledger, x: TxnId)
    requires Shared(s) && SwapOk(s, x)
    ensures Shared(Apply(s, MoveCurrent(x)))
  {
    hide Apply;
    hide RowOk;
    hide BundleOk;
    hide ChainOk;
    hide WellFormed;
    hide RowsDistinct;
    hide NextOf;
    SwapKeepsRows(s, x);
    SwapKeepsChain(s, x);
    ApplyFrame(s, MoveCurrent(x));
  }

  lemma UpdatedRowOk(s: Ledger, x: TxnId, to: PromotionState)
    requires Shared(s) && UpdateOk(s, x, to)
    ensures RowOk(Apply(s, UpdateRow(x, to)), x)
  {
    hide WellFormed;
    hide ChainOk;
    hide InChain;
    hide NextOf;
    hide Canonical;
    hide RowsDistinct;
    assert RowOk(s, x);
  }

  lemma UpdateKeepsDistinct(s: Ledger, x: TxnId, to: PromotionState)
    requires RowsDistinct(s) && x in s.wal
    ensures RowsDistinct(Apply(s, UpdateRow(x, to)))
  {
  }

  /** A row that a step does not touch stays in order while the pointer stays. */
  lemma RowOkKept(s: Ledger, t: Ledger, y: TxnId)
    requires y in s.wal && RowOk(s, y) && Grows(s, t)
    requires t.current == s.current && y in t.wal && t.wal[y] == s.wal[y]
    ensures RowOk(t, y)
  {
    hide InChain;
    hide NextOf;
    hide Canonical;
    hide Evolves;
  }

  lemma UpdateKeepsShared(s: Ledger, x: TxnId, to: PromotionState)
    requires Shared(s) && UpdateOk(s, x, to)
    ensures Shared(Apply(s, UpdateRow(x, to)))
  {
    hide Apply;
    hide RowsDistinct;
    hide WellFormed;
    hide ChainOk;
    hide RowOk;
    hide Grows;
    hide BundleOk;
    hide NextOf;
    hide InChain;
    var t := Apply(s, UpdateRow(x, to));
    EffectGrows(s, UpdateRow(x, to));
    ApplyFrame(s, UpdateRow(x, to));
    ApplyWrites(s, UpdateRow(x, to));
    ChainOkGrows(s, t, s.current);
    UpdatedRowOk(s, x, to);
    UpdateKeepsDistinct(s, x, to);
    forall y <- t.wal
      ensures RowOk(t, y)
    {
      if y != x { RowOkKept(s, t, y); }
    }
    forall op <- t.staging ensures BundleOk(t, t.staging[op]) { BundleOkKept(s, t, t.staging[op]); }
  }

  lemma BundleOkKept(s: Ledger, t: Ledger, b: TxnId)
    requires BundleOk(s, b) && t.current == s.current && Grows(s, t)
    ensures BundleOk(t, b)
  {
  }

  lemma InsertedRowOk(s: Ledger, x: TxnId, created: int)
    requires Shared(s) && BundleOk(s, x) && NextOf(x) in s.generations && x !in s.wal
    ensures RowOk(Apply(s, InsertRow(x, created)), x)
  {
    if InChain(NextOf(x), s.current) {
      ChainGeneration(s, s.current, NextOf(x));
    }
  }

  lemma InsertKeepsDistinct(s: Ledger, x: TxnId, created: int)
    requires RowsDistinct(s)
    ensures RowsDistinct(Apply(s, InsertRow(x, created)))
  {
  }

  lemma InsertKeepsShared(s: Ledger, x: TxnId, created: int)
    requires Shared(s) && BundleOk(s, x) && NextOf(x) in s.generations
    ensures Shared(Apply(s, InsertRow(x, created)))
  {
    hide Apply;
    hide WellFormed;
    hide ChainOk;
    hide RowOk;
    hide BundleOk;
    hide RowsDistinct;
    hide Grows;
    hide InChain;
    hide NextOf;
    var e := InsertRow(x, created);
    var t := Apply(s, e);
    EffectGrows(s, e);
    ApplyFrame(s, e);
    ApplyWrites(s, e);
    ChainOkGrows(s, t, s.current);
    InsertKeepsDistinct(s, x, created);
    if x !in s.wal {
      InsertedRowOk(s, x, created);
    }
    forall y <- t.wal | y in s.wal ensures RowOk(t, y) { RowOkKept(s, t, y); }
    forall op <- t.staging ensures BundleOk(t, t.staging[op]) { BundleOkKept(s, t, t.staging[op]); }
  }

  lemma PlainKeepsShared(s: Ledger, e: Effect)
    requires Shared(s) && EffectOk(s, e)
    requires !e.InsertRow? && !e.UpdateRow? && !e.MoveCurrent?
    ensures Shared(Apply(s, e))
  {
    hide Apply;
    hide WellFormed;
    hide ChainOk;
    hide RowOk;
    hide Grows;
    hide BundleOk;
    hide NextOf;
    hide InChain;
    var t := Apply(s, e);
    EffectGrows(s, e);
    ApplyFrame(s, e);
    ApplyWrites(s, e);
    ChainOkGrows(s, t, s.current);
    forall y <- t.wal ensures RowOk(t, y) { RowOkKept(s, t, y); }
    forall op <- t.staging ensures BundleOk(t, t.staging[op]) { BundleOkKept(s, t, t.staging[op]); }
  }

  lemma EffectKeepsShared(s: Ledger, e: Effect)
    requires Shared(s) && EffectOk(s, e)
    ensures Shared(Apply(s, e))
  {
    match e
    case InsertRow(x, created) => InsertKeepsShared(s, x, created);
    case UpdateRow(x, to) => UpdateKeepsShared(s, x, to);
    case MoveCurrent(x) => SwapKeepsShared(s, x);
    case _ => PlainKeepsShared(s, e);
  }

  // ---------------------------------------------------------------- the acting worker

  ghost predicate Keeps(s: Ledger, o: Outcome) {
    match o
    case Raises => true
    case Goes(e, wk) => EffectOk(s, e) && WorkerOk(Apply(s, e), wk)
    case Returns(e) => EffectOk(s, e)
  }

  lemma AcquireKeeps(s: Ledger, w: WorkerId, wk: Worker, now: int, ttl: int)
    requires WorkerOk(s, wk) && PhaseOf(wk.pc) == Acquiring
    ensures Keeps(s, AcquireAction(s, w, wk, now, ttl))
  {
  }

  lemma CheckKeeps(s: Ledger, wk: Worker)
    requires Shared(s) && WorkerOk(s, wk) && wk.pc == Check
    ensures Keeps(s, ReadAction(s, wk))
  {
    hide NextOf;
    hide Canonical;
    hide WellFormed;
    hide RowOk;
    hide BundleOk;
    hide RowsDistinct;
    hide InChain;
    hide Evolves;
    hide Reconciled;
    hide Settled;
    if Reconciled(s, wk.active) {
      ReconciledIsSettled(s, wk.active);
    }
  }

  lemma ReadKeeps(s: Ledger, wk: Worker)
    requires WorkerOk(s, wk) && (wk.pc == ReadActive || wk.pc == ReadWal)
    ensures Keeps(s, ReadAction(s, wk))
  {
    hide NextOf;
    hide Canonical;
    hide Settled;
    StaysTheSame(s);
  }

  /** The worker found neither the parent nor the candidate active, and rebases. */
  lemma RebaseKeeps(s: Ledger, wk: Worker)
    requires WellFormed(s.current) && WorkerOk(s, wk) && wk.pc == Decide
    requires wk.active != wk.prep.parent && wk.active != NextOf(wk.prep)
    ensures Keeps(s, DecideAction(wk))
  {
    hide ActiveClaim;
    hide MergeClaim;
    WellFormedAncestor(wk.active, s.current);
    RebaseIsCanonical(wk.prep, wk.active);
    assert InChain(wk.active, wk.active);
  }

  lemma PublishDecisionKeeps(s: Ledger, wk: Worker)
    requires WorkerOk(s, wk) && wk.pc == Decide
    requires wk.active == wk.prep.parent || wk.active == NextOf(wk.prep)
    ensures Keeps(s, DecideAction(wk))
  {
    hide ActiveClaim;
    hide MergeClaim;
    hide InChain;
    hide Canonical;
    assert OwnCommitted(wk) || Settled(s, wk.active);
  }

  lemma DecideKeeps(s: Ledger, wk: Worker)
    requires WellFormed(s.current) && WorkerOk(s, wk) && wk.pc == Decide
    ensures Keeps(s, DecideAction(wk))
  {
    hide Keeps;
    hide WorkerOk;
    hide DecideAction;
    hide WellFormed;
    if wk.active != wk.prep.parent && wk.active != NextOf(wk.prep) {
      RebaseKeeps(s, wk);
    } else {
      PublishDecisionKeeps(s, wk);
    }
  }

  lemma AbortKeeps(s: Ledger, wk: Worker)
    requires WorkerOk(s, wk) && wk.pc == AbortSuperseded
    ensures Keeps(s, AbortAction(s, wk))
  {
    var o := AbortAction(s, wk);
    if o.Goes? && o.effect.UpdateRow? {
      EffectGrows(s, o.effect);
      WorkerOkGrows(s, Apply(s, o.effect), wk);
    }
  }

  lemma PrepareBundleKeeps(s: Ledger, wk: Worker)
    requires WorkerOk(s, wk) && (wk.pc == RebaseBundle || wk.pc == RebaseManifest || wk.pc == PublishGeneration)
    ensures Keeps(s, PrepareAction(s, wk))
  {
    hide Apply;
    hide InChain;
    hide NextOf;
    hide Canonical;
    hide Grows;
    hide Settled;
    hide AbortAction;
    hide Evolves;
    var e := PrepareAction(s, wk).effect;
    EffectGrows(s, e);
    WorkerOkGrows(s, Apply(s, e), wk);
    ApplyFrame(s, e);
    ApplyWrites(s, e);
  }

  lemma PrepareRowKeeps(s: Ledger, wk: Worker)
    requires WorkerOk(s, wk) && (wk.pc == StoreWal || wk.pc == StoreOutbox)
    ensures Keeps(s, PrepareAction(s, wk))
  {
    hide Apply;
    hide InChain;
    hide NextOf;
    hide Canonical;
    hide Grows;
    hide Settled;
    hide AbortAction;
    hide Evolves;
    var e := PrepareAction(s, wk).effect;
    EffectGrows(s, e);
    WorkerOkGrows(s, Apply(s, e), wk);
    ApplyFrame(s, e);
    ApplyWrites(s, e);
  }

  lemma PrepareKeeps(s: Ledger, wk: Worker)
    requires WorkerOk(s, wk) && PhaseOf(wk.pc) == Preparing
    ensures Keeps(s, PrepareAction(s, wk))
  {
    hide Keeps;
    hide WorkerOk;
    hide AbortAction;
    if wk.pc == AbortSuperseded {
      AbortKeeps(s, wk);
    } else if wk.pc == StoreWal || wk.pc == StoreOutbox {
      PrepareRowKeeps(s, wk);
    } else {
      PrepareBundleKeeps(s, wk);
    }
  }

  predicate Advancing(wk: Worker, target: PromotionState, next: Pc) {
    || (wk.pc == ToCommitting && target == Committing && next == Swap)
    || (wk.pc == ToCommitted && target == Committed && next == SetReconciling)
    || (wk.pc == ToReconciling && target == Reconciling && next == Materialize)
    || (wk.pc == ToCompleted && target == Completed && next == SetManifest)
  }

  lemma AdvancedRowOk(s: Ledger, wk: Worker, target: PromotionState)
    requires WorkerOk(s, wk) && (exists next :: Advancing(wk, target, next))
    requires wk.prep in s.wal && Order(s.wal[wk.prep].state) < Order(target)
    ensures UpdateOk(s, wk.prep, Successor(s.wal[wk.prep].state))
  {
  }

  lemma AdvanceMoves(s: Ledger, wk: Worker, target: PromotionState, next: Pc)
    requires WorkerOk(s, wk) && Advancing(wk, target, next)
    requires wk.prep in s.wal && Order(s.wal[wk.prep].state) < Order(target)
    ensures
      var e := UpdateRow(wk.prep, Successor(s.wal[wk.prep].state));
      EffectOk(s, e) && WorkerOk(Apply(s, e), wk)
  {
    hide Apply;
    hide WorkerOk;
    hide Grows;
    hide UpdateOk;
    AdvancedRowOk(s, wk, target);
    var e := UpdateRow(wk.prep, Successor(s.wal[wk.prep].state));
    EffectGrows(s, e);
    WorkerOkGrows(s, Apply(s, e), wk);
  }

  lemma AdvancePasses(s: Ledger, wk: Worker, target: PromotionState, next: Pc)
    requires WorkerOk(s, wk) && Advancing(wk, target, next)
    requires wk.prep in s.wal && s.wal[wk.prep].state != Aborted && Order(s.wal[wk.prep].state) >= Order(target)
    ensures WorkerOk(s, wk.(pc := next))
  {
    hide InChain;
    hide NextOf;
    hide Canonical;
    hide Settled;
    hide Evolves;
  }

  lemma AdvanceKeeps(s: Ledger, wk: Worker, target: PromotionState, next: Pc)
    requires WorkerOk(s, wk) && Advancing(wk, target, next)
    ensures Keeps(s, Advance(s, wk, target, next))
  {
    hide WorkerOk;
    hide Apply;
    hide Advancing;
    NothingApplied(s);
    if wk.prep in s.wal && s.wal[wk.prep].state != Aborted {
      AdvanceTargets(wk, target, next);
      if Order(s.wal[wk.prep].state) < Order(target) {
        AdvanceMoves(s, wk, target, next);
      } else {
        AdvancePasses(s, wk, target, next);
      }
    }
  }

  lemma NothingApplied(s: Ledger)
    ensures Apply(s, Nothing) == s
  {
  }

  lemma AdvanceTargets(wk: Worker, target: PromotionState, next: Pc)
    requires Advancing(wk, target, next)
    ensures Order(target) <= 4
  {
  }

  lemma SwapKeeps(s: Ledger, wk: Worker, now: int)
    requires WorkerOk(s, wk) && wk.pc == Swap
    ensures Keeps(s, CommitAction(s, wk, now))
  {
    ChildNotInChain(wk.prep);
    if CommitAction(s, wk, now).Goes? {
      var e := MoveCurrent(wk.prep);
      assert SwapOk(s, wk.prep);
      EffectGrows(s, e);
      WorkerOkGrows(s, Apply(s, e), wk);
      assert InChain(NextOf(wk.prep), NextOf(wk.prep));
    }
  }

  lemma RereadKeeps(s: Ledger, wk: Worker, now: int)
    requires WorkerOk(s, wk) && (wk.pc == Reread || wk.pc == RecoverGuard)
    ensures Keeps(s, CommitAction(s, wk, now))
  {
    hide NextOf;
    hide Canonical;
    hide Settled;
    hide Holds;
    hide Evolves;
    StaysTheSame(s);
  }

  lemma CommitKeeps(s: Ledger, wk: Worker, now: int)
    requires WorkerOk(s, wk) && PhaseOf(wk.pc) == Swapping
    ensures Keeps(s, CommitAction(s, wk, now))
  {
    hide Keeps;
    hide WorkerOk;
    hide Advance;
    hide Holds;
    if wk.pc == Swap {
      SwapKeeps(s, wk, now);
    } else if wk.pc == ToCommitting {
      AdvanceKeeps(s, wk, Committing, Swap);
    } else {
      RereadKeeps(s, wk, now);
    }
  }

  lemma PublishKeeps(s: Ledger, wk: Worker, now: int)
    requires WorkerOk(s, wk) && (wk.pc == PublishEvent || wk.pc == MarkAppended)
    ensures Keeps(s, FinishAction(s, wk, now))
  {
    hide Apply;
    hide InChain;
    hide NextOf;
    hide Canonical;
    hide Grows;
    hide Settled;
    hide EventOf;
    hide Evolves;
    hide ReadsOk;
    var e := if wk.pc == PublishEvent then AddEvent(wk.prep) else MarkOutbox(wk.prep);
    EffectGrows(s, e);
    WorkerOkGrows(s, Apply(s, e), wk);
    ApplyFrame(s, e);
    ApplyWrites(s, e);
    ReadsOkLater(Apply(s, e), wk, FinishAction(s, wk, now).worker.pc);
  }

  /** After the commit the facts about what was read no longer matter. */
  lemma ReadsOkLater(s: Ledger, wk: Worker, next: Pc)
    requires Rank(next) > 16
    ensures ReadsOk(s, wk.(pc := next))
  {
  }

  /** A worker that only changed status rows goes on with the facts it had. */
  lemma StatusKeepsFacts(s: Ledger, wk: Worker, next: Pc)
    requires WorkerOk(s, wk)
    requires 19 <= Rank(wk.pc) <= 26 && (Rank(next) == Rank(wk.pc) + 1)
    requires wk.pc != PublishEvent && wk.pc != MarkAppended && wk.pc != ToReconciling
    ensures WorkerOk(s, wk.(pc := next))
  {
    hide InChain;
    hide NextOf;
    hide Canonical;
    hide PastCommit;
  }

  lemma StatusKeeps(s: Ledger, wk: Worker, now: int)
    requires WorkerOk(s, wk)
    requires wk.pc == SetReconciling || wk.pc == Materialize || wk.pc == SetSucceeded || wk.pc == SetManifest
    ensures Keeps(s, FinishAction(s, wk, now))
  {
    hide WorkerOk;
    hide Grows;
    hide Apply;
    hide EventsResolved;
    hide Holds;
    hide InChain;
    hide NextOf;
    var o := FinishAction(s, wk, now);
    if o.Goes? {
      EffectGrows(s, o.effect);
      WorkerOkGrows(s, Apply(s, o.effect), wk);
      StatusKeepsFacts(Apply(s, o.effect), wk, o.worker.pc);
    }
  }

  lemma FinishKeeps(s: Ledger, wk: Worker, now: int)
    requires WorkerOk(s, wk) && PhaseOf(wk.pc) == Finishing
    ensures Keeps(s, FinishAction(s, wk, now))
  {
    hide WorkerOk;
    hide Keeps;
    match wk.pc
    case ToCommitted => AdvanceKeeps(s, wk, Committed, SetReconciling);
    case PublishEvent | MarkAppended => PublishKeeps(s, wk, now);
    case ToReconciling => AdvanceKeeps(s, wk, Reconciling, Materialize);
    case ToCompleted => AdvanceKeeps(s, wk, Completed, SetManifest);
    case _ => StatusKeeps(s, wk, now);
  }

  lemma ActKeeps(s: Ledger, w: WorkerId, wk: Worker, now: int, ttl: int)
    requires Shared(s) && WorkerOk(s, wk)
    ensures Keeps(s, Act(s, w, wk, now, ttl))
  {
    match PhaseOf(wk.pc)
    case Acquiring => AcquireKeeps(s, w, wk, now, ttl);
    case Reading => if wk.pc == Decide { DecideKeeps(s, wk); } else if wk.pc == Check { CheckKeeps(s, wk); } else { ReadKeeps(s, wk); }
    case Closing => NoopKeeps(s, wk);
    case Preparing => PrepareKeeps(s, wk);
    case Swapping => CommitKeeps(s, wk, now);
    case Finishing => FinishKeeps(s, wk, now);
    case Releasing => ReleaseKeeps(s, wk);
  }

  lemma NoopGoesOn(s: Ledger, wk: Worker, next: Pc)
    requires WorkerOk(s, wk) && PhaseOf(wk.pc) == Closing && (next == NoopManifest || next == ReleaseGlobal)
    ensures WorkerOk(s, wk.(pc := next))
  {
    hide InChain;
    hide NextOf;
    hide Canonical;
    hide Settled;
    hide Evolves;
  }

  lemma NoopKeeps(s: Ledger, wk: Worker)
    requires WorkerOk(s, wk) && PhaseOf(wk.pc) == Closing
    ensures Keeps(s, NoopAction(wk))
  {
    hide Apply;
    hide WorkerOk;
    hide Grows;
    var o := NoopAction(wk);
    if o.Goes? {
      EffectGrows(s, o.effect);
      NoopGoesOn(s, wk, o.worker.pc);
      WorkerOkGrows(s, Apply(s, o.effect), o.worker);
    }
  }

  lemma ReleaseKeeps(s: Ledger, wk: Worker)
    requires WorkerOk(s, wk) && PhaseOf(wk.pc) == Releasing
    ensures Keeps(s, ReleaseAction(s, wk))
  {
    hide Apply;
    hide InChain;
    hide NextOf;
    hide Canonical;
    var o := ReleaseAction(s, wk);
    if o.Goes? {
      EffectGrows(s, o.effect);
      WorkerOkGrows(s, Apply(s, o.effect), wk);
    }
  }

  // ---------------------------------------------------------------- fences

  /** What an effect of worker `w` does to the fences of the others. */
  ghost predicate FenceEffect(s: Ledger, w: WorkerId, wk: Worker, e: Effect) {
    && (e.SetLeases? ==> FencesKept(s.leases, e.table, w))
    && (e.MoveCurrent? ==> GlobalFence(s, wk))
  }

  ghost predicate KeepsFences(s: Ledger, w: WorkerId, wk: Worker, o: Outcome) {
    match o
    case Raises => true
    case Goes(e, next) => FenceEffect(s, w, wk, e) && TokensOk(Apply(s, e), w, next) && FenceOk(Apply(s, e), next)
    case Returns(e) => FenceEffect(s, w, wk, e)
  }

  lemma AcquireKeepsFences(s: Ledger, w: WorkerId, wk: Worker, now: int, ttl: int)
    requires TokensOk(s, w, wk) && PhaseOf(wk.pc) == Acquiring
    ensures KeepsFences(s, w, wk, AcquireAction(s, w, wk, now, ttl))
  {
    var o := AcquireAction(s, w, wk, now, ttl);
    if o.Goes? {
      ApplyFrame(s, o.effect);
      assert Apply(s, o.effect).leases == o.effect.table;
      hide Apply;
    }
  }

  lemma ReleaseKeepsOthers(t: LeaseTable, w: WorkerId, l: LeaseToken)
    requires l.owner == w
    ensures FencesKept(t, Release(t, l), w)
    ensures forall p <- t :: p in Release(t, l) && Release(t, l)[p].token == t[p].token
  {
  }

  lemma ReleaseKeepsFences(s: Ledger, w: WorkerId, wk: Worker)
    requires TokensOk(s, w, wk) && PhaseOf(wk.pc) == Releasing
    ensures KeepsFences(s, w, wk, ReleaseAction(s, wk))
  {
    hide Apply;
    hide Release;
    hide FencesKept;
    hide Matches;
    var o := ReleaseAction(s, wk);
    ApplyFrame(s, o.effect);
    ApplyWrites(s, o.effect);
    if wk.global.Some? { ReleaseKeepsOthers(s.leases, w, wk.global.value); }
    if wk.source.Some? { ReleaseKeepsOthers(s.leases, w, wk.source.value); }
  }

  lemma ReadKeepsFences(s: Ledger, w: WorkerId, wk: Worker)
    requires TokensOk(s, w, wk) && FenceOk(s, wk) && PhaseOf(wk.pc) == Reading
    ensures KeepsFences(s, w, wk, ReadAction(s, wk))
  {
  }

  lemma CommitKeepsFences(s: Ledger, w: WorkerId, wk: Worker, now: int)
    requires TokensOk(s, w, wk) && FenceOk(s, wk) && PhaseOf(wk.pc) == Swapping
    ensures KeepsFences(s, w, wk, CommitAction(s, wk, now))
  {
    var o := CommitAction(s, wk, now);
    if wk.pc != Swap {
      WriteKeepsFences(s, w, wk, o);
    } else if o.Goes? {
      ApplyFrame(s, o.effect);
      hide Apply;
    }
  }

  /** Actions outside those phases neither touch the leases nor the pointer nor what was read. */
  lemma WriteKeepsFences(s: Ledger, w: WorkerId, wk: Worker, o: Outcome)
    requires TokensOk(s, w, wk) && FenceOk(s, wk) && !o.Returns?
    requires o.Goes? ==>
      && !o.effect.SetLeases? && !o.effect.MoveCurrent?
      && o.worker == wk.(pc := o.worker.pc)
      && 2 <= Rank(wk.pc) <= 26 && (3 <= Rank(o.worker.pc) <= 16 ==> 3 <= Rank(wk.pc) <= 16)
    ensures KeepsFences(s, w, wk, o)
  {
    hide Apply;
    if o.Goes? {
      ApplyFrame(s, o.effect);
    }
  }

  lemma ActKeepsFences(s: Ledger, w: WorkerId, wk: Worker, now: int, ttl: int)
    requires TokensOk(s, w, wk) && FenceOk(s, wk)
    ensures KeepsFences(s, w, wk, Act(s, w, wk, now, ttl))
  {
    hide KeepsFences;
    hide TokensOk;
    hide FenceOk;
    match PhaseOf(wk.pc)
    case Acquiring => AcquireKeepsFences(s, w, wk, now, ttl);
    case Reading => ReadKeepsFences(s, w, wk);
    case Closing => WriteKeepsFences(s, w, wk, NoopAction(wk));
    case Preparing => WriteKeepsFences(s, w, wk, PrepareAction(s, wk));
    case Swapping => CommitKeepsFences(s, w, wk, now);
    case Finishing => WriteKeepsFences(s, w, wk, FinishAction(s, wk, now));
    case Releasing => ReleaseKeepsFences(s, w, wk);
  }

  /** A worker that does not act keeps its facts. */
  lemma OtherKept(s: Ledger, e: Effect, w: WorkerId, wk: Worker, x: WorkerId, xk: Worker)
    requires x != w && WorkerInv(s, x, xk) && TokensOk(s, w, wk)
    requires EffectOk(s, e) && FenceEffect(s, w, wk, e)
    ensures WorkerInv(Apply(s, e), x, xk)
  {
    EffectGrows(s, e);
    WorkerOkGrows(s, Apply(s, e), xk);
  }

  // ---------------------------------------------------------------- the step theorem

  lemma DoKeepsInv(sys: System, w: WorkerId, now: int, ttl: int)
    requires Inv(sys) && w in sys.workers && Next(sys, Do(w, now, ttl)).Some?
    ensures Inv(Next(sys, Do(w, now, ttl)).value)
  {
    var s, wk := sys.ledger, sys.workers[w];
    var o := Act(s, w, wk, now, ttl);
    ActKeeps(s, w, wk, now, ttl);
    ActKeepsFences(s, w, wk, now, ttl);
    EffectKeepsShared(s, o.effect);
    forall x | x in sys.workers && x != w
      ensures WorkerInv(Apply(s, o.effect), x, sys.workers[x])
    {
      OtherKept(s, o.effect, w, wk, x, sys.workers[x]);
    }
  }

  lemma StageGrows(s: Ledger, op: Operation, parent: GenId, proposal: Claim)
    ensures Grows(s, Staged(s, op, parent, proposal))
  {
    StaysTheSame(s);
  }

  lemma StageKeepsShared(s: Ledger, op: Operation, parent: GenId, proposal: Claim)
    requires Shared(s) && InChain(parent, s.current)
    ensures Grows(s, Staged(s, op, parent, proposal)) && Shared(Staged(s, op, parent, proposal))
  {
    hide WellFormed;
    hide ChainOk;
    hide RowOk;
    hide Grows;
    hide InChain;
    hide BundleOk;
    hide RowsDistinct;
    hide CandidateTxn;
    var t := Staged(s, op, parent, proposal);
    StageGrows(s, op, parent, proposal);
    ChainOkGrows(s, t, s.current);
    StagedBundleOk(s, op, parent, proposal);
    DistinctByRows(s, t);
    forall y <- t.wal ensures RowOk(t, y) { RowOkKept(s, t, y); }
    forall o <- s.staging ensures BundleOk(t, s.staging[o]) { BundleOkKept(s, t, s.staging[o]); }
  }

  lemma StagedBundleOk(s: Ledger, op: Operation, parent: GenId, proposal: Claim)
    requires InChain(parent, s.current) && WellFormed(s.current)
    ensures CandidateTxn(op, parent, proposal).op == op && BundleOk(Staged(s, op, parent, proposal), CandidateTxn(op, parent, proposal))
  {
    WellFormedAncestor(parent, s.current);
    CandidateIsCanonical(op, parent, proposal);
  }

  lemma DistinctByRows(s: Ledger, t: Ledger)
    requires RowsDistinct(s) && t.wal == s.wal && t.nextRow == s.nextRow
    ensures RowsDistinct(t)
  {
  }

  /** A change of the ledger that is not made by a worker and leaves the leases and the pointer alone. */
  lemma OutsideKeepsInv(sys: System, t: Ledger)
    requires Inv(sys) && Shared(t) && Grows(sys.ledger, t)
    requires t.leases == sys.ledger.leases && t.epoch == sys.ledger.epoch && t.current == sys.ledger.current
    ensures Inv(sys.(ledger := t))
  {
    hide InChain;
    hide WorkerOk;
    hide Shared;
    hide Grows;
    forall x <- sys.workers
      ensures WorkerInv(t, x, sys.workers[x])
    {
      WorkerOkGrows(sys.ledger, t, sys.workers[x]);
    }
  }

  lemma StageKeepsInv(sys: System, op: Operation, parent: GenId, proposal: Claim)
    requires Inv(sys) && InChain(parent, sys.ledger.current)
    ensures Inv(sys.(ledger := Staged(sys.ledger, op, parent, proposal)))
  {
    hide InChain;
    hide WorkerInv;
    hide Shared;
    hide Grows;
    StageKeepsShared(sys.ledger, op, parent, proposal);
    OutsideKeepsInv(sys, Staged(sys.ledger, op, parent, proposal));
  }

  lemma OutsideWriteKeepsInv(sys: System, e: Effect)
    requires Inv(sys) && (e.WriteManifest? || e.WriteOperation? || e.SetMarker?)
    ensures Inv(sys.(ledger := Apply(sys.ledger, e)))
  {
    hide Apply;
    hide WorkerInv;
    hide Shared;
    hide Grows;
    EffectKeepsShared(sys.ledger, e);
    EffectGrows(sys.ledger, e);
    ApplyFrame(sys.ledger, e);
    OutsideKeepsInv(sys, Apply(sys.ledger, e));
  }

  lemma FreshWorkerOk(s: Ledger, w: WorkerId, t: TxnId, recovering: bool)
    requires BundleOk(s, t) && (recovering ==> t in s.wal && NextOf(t) in s.generations)
    ensures WorkerInv(s, w, Fresh(t, recovering))
  {
    hide InChain;
    hide NextOf;
    hide Canonical;
  }

  lemma EntryBundleOk(s: Ledger, t: TxnId)
    requires Shared(s) && (t in s.wal || exists op :: op in s.staging && s.staging[op] == t)
    ensures BundleOk(s, t)
    ensures t in s.wal ==> NextOf(t) in s.generations
  {
    assert t in s.wal ==> RowOk(s, t);
  }

  lemma EntryKeepsInv(sys: System, l: Label)
    requires Inv(sys) && (l.Promote? || l.Recover?) && Next(sys, l).Some?
    ensures Inv(Next(sys, l).value)
  {
    hide InChain;
    hide NextOf;
    hide Canonical;
    hide Terminal;
    hide Reconciled;
    hide Shared;
    hide WorkerInv;
    hide BundleOk;
    hide IsLatest;
    var s := sys.ledger;
    var t := Next(sys, l).value.workers[l.w].prep;
    if IsLatest(s.wal, l.op, t) { LatestInWal(s.wal, l.op, t); }
    EntryBundleOk(s, t);
    FreshWorkerOk(s, l.w, t, l.Recover?);
  }

  lemma LatestInWal(wal: Wal, op: Operation, t: TxnId)
    requires IsLatest(wal, op, t)
    ensures t in wal
  {
  }

  lemma RenewalKeepsInv(sys: System, l: Label)
    requires Inv(sys) && l.Renewal? && Next(sys, l).Some?
    ensures Inv(Next(sys, l).value)
  {
    var s, wk := sys.ledger, sys.workers[l.w];
    var table := Renewed(s, wk, l.now, l.ttl).value;
    HoldKeepsFences(s.leases, [wk.source.value, wk.global.value], l.now, Some(l.ttl));
    var t := Apply(s, SetLeases(table));
    EffectKeepsShared(s, SetLeases(table));
    EffectGrows(s, SetLeases(table));
    forall x <- sys.workers
      ensures WorkerInv(t, x, sys.workers[x])
    {
      WorkerOkGrows(s, t, sys.workers[x]);
    }
  }

  /** Every step of the protocol keeps the invariant. */
  lemma StepKeepsInv(sys: System, l: Label)
    requires Inv(sys) && Next(sys, l).Some?
    ensures Inv(Next(sys, l).value)
  {
    hide Inv;
    hide Act;
    hide Apply;
    hide OutsideWrite;
    match l
    case Stage(op, parent, proposal) => StageKeepsInv(sys, op, parent, proposal);
    case PrepareRun(_) | AwaitRun(_) | AwaitOperation(_) | Rebuild(_) =>
      OutsideWriteKeepsInv(sys, OutsideWrite(sys.ledger, l).value);
    case Promote(_, _) => EntryKeepsInv(sys, l);
    case Recover(_, _) => EntryKeepsInv(sys, l);
    case Do(w, now, ttl) => DoKeepsInv(sys, w, now, ttl);
    case Renewal(_, _, _) => RenewalKeepsInv(sys, l);
    case Raise(_) => LeaveKeepsInv(sys, l);
    case Kill(_) => LeaveKeepsInv(sys, l);
  }

  /** A worker that raises or is killed leaves the shared state alone. */
  lemma LeaveKeepsInv(sys: System, l: Label)
    requires Inv(sys) && Next(sys, l).Some? && (l.Raise? || l.Kill?)
    ensures Inv(Next(sys, l).value)
  {
    hide Shared;
    hide Act;
    hide Apply;
    hide WorkerInv;
    if l.Raise? {
      RaisedWorkerInv(sys.ledger, l.w, sys.workers[l.w]);
    }
  }

  lemma RaisedWorkerInv(s: Ledger, w: WorkerId, wk: Worker)
    requires WorkerInv(s, w, wk)
    ensures WorkerInv(s, w, wk.(pc := ReleaseGlobal))
  {
    hide InChain;
    hide NextOf;
    hide Canonical;
    hide Matches;
  }

  lemma {:induction false} RunKeepsInv(sys: System, ls: seq<Label>)
    requires Inv(sys) && Exec(sys, ls).Some?
    ensures Inv(Exec(sys, ls).value)
    decreases |ls|
  {
    if ls != [] {
      RunKeepsInv(sys, ls[..|ls| - 1]);
      StepKeepsInv(Exec(sys, ls[..|ls| - 1]).value, ls[|ls| - 1]);
    }
  }

  lemma ReachableInv(sys: System)
    requires Reachable(sys)
    ensures Inv(sys)
  {
    var epoch :| Reaches(Init(epoch), sys);
    var ls :| Exec(Init(epoch), ls) == Some(sys);
    RunKeepsInv(Init(epoch), ls);
  }
}
