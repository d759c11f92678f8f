/** What every step of the promotion protocol keeps.

    All facts a worker relies on between two of its steps are monotone: `Grows` says how the shared
    state may change, every step grows it, and a worker's facts survive growth.  It is then enough
    to look at the acting worker.
 */
module PromotionInvariant {
  import opened Options
  import opened LedgerTypes
  import opened Leases
  import opened Promotion

  function Rank(pc: Pc): nat {
    match pc
    case AcquireSource => 0
    case AcquireGlobal => 1
    case ReadActive => 2
    case ReadWal => 3
    case Check => 4
    case Decide => 5
    case NoopOperation => 6
    case NoopManifest => 7
    case RebaseBundle => 8
    case RebaseManifest => 9
    case PublishGeneration => 10
    case StoreWal => 11
    case StoreOutbox => 12
    case AbortSuperseded => 13
    case Reread => 14
    case ToCommitting => 15
    case Swap => 16
    case RecoverGuard => 17
    case ToCommitted => 18
    case SetReconciling => 19
    case PublishEvent => 20
    case MarkAppended => 21
    case ToReconciling => 22
    case Materialize => 23
    case SetSucceeded => 24
    case ToCompleted => 25
    case SetManifest => 26
    case ReleaseGlobal => 27
    case ReleaseSource => 28
  }

  predicate PastCommit(p: PromotionState) {
    p == Committed || p == Reconciling || p == Completed
  }

  // ---------------------------------------------------------------- growth

  ghost predicate Grows(s: Ledger, t: Ledger) {
    && InChain(s.current, t.current)
    && s.generations <= t.generations
    && s.operations.Keys <= t.operations.Keys
    && s.manifests.Keys <= t.manifests.Keys
    && (forall x <- s.wal :: x in t.wal && Evolves(s.wal[x].state, t.wal[x].state))
    && (forall x <- s.events :: x in t.events && t.events[x] == s.events[x])
    && (forall x <- s.outbox :: x in t.outbox && (s.outbox[x] ==> t.outbox[x]))
  }

  // ---------------------------------------------------------------- the worker's facts

  /** Before the swap: the candidate's parent was found reconciled, or the candidate is already in
      the ancestry of CURRENT. */
  ghost predicate ParentSettled(s: Ledger, wk: Worker) {
    Settled(s, wk.prep.parent) || InChain(NextOf(wk.prep), s.current)
  }

  /** A prepared bundle was built on an ancestor of CURRENT and its operation has a row and a run. */
  ghost predicate BundleOk(s: Ledger, t: TxnId) {
    Canonical(t) && InChain(t.parent, s.current) && t.op in s.operations && t.op in s.manifests
  }

  /** The row a worker decided to abort is not the generation it found active, unless that row has
      been completed. */
  ghost predicate SupersededOk(s: Ledger, wk: Worker) {
    wk.superseded.Some? ==>
      && wk.superseded.value in s.wal
      && wk.superseded.value != wk.prep
      && (NextOf(wk.superseded.value) != wk.active || s.wal[wk.superseded.value].state == Completed)
  }

  ghost predicate ReadsOk(s: Ledger, wk: Worker) {
    var r := Rank(wk.pc);
    && (3 <= r <= 16 ==> InChain(wk.active, s.current) && InChain(wk.prep.parent, wk.active))
    && (4 <= r <= 16 && wk.existing.Some? ==>
         && wk.existing.value.0 in s.wal
         && wk.existing.value.0.op == wk.prep.op
         && Evolves(wk.existing.value.1, s.wal[wk.existing.value.0].state))
    && (r == 5 && !OwnCommitted(wk) ==> Settled(s, wk.active))
    && (8 <= r <= 16 ==> ParentSettled(s, wk) && SupersededOk(s, wk))
    && (8 <= r <= 16 && wk.active != wk.prep.parent ==> wk.active == NextOf(wk.prep))
  }

  ghost predicate WritesOk(s: Ledger, wk: Worker) {
    var r := Rank(wk.pc);
    var t := wk.prep;
    && (11 <= r <= 26 ==> NextOf(t) in s.generations)
    && (12 <= r <= 26 ==> t in s.wal)
    && (13 <= r <= 26 && r != 17 ==> t in s.outbox)
    && (r == 16 ==> s.wal[t].state != Prepared)
    && (18 <= r <= 26 ==> InChain(NextOf(t), s.current))
    && (19 <= r <= 26 ==> PastCommit(s.wal[t].state))
    && (21 <= r <= 26 ==> t in s.events)
    && (22 <= r <= 26 ==> s.outbox[t])
    && (23 <= r <= 26 ==> s.wal[t].state == Reconciling || s.wal[t].state == Completed)
  }

  ghost predicate WorkerOk(s: Ledger, wk: Worker) {
    && BundleOk(s, wk.prep)
    && (wk.recovering && Rank(wk.pc) <= 1 ==> wk.prep in s.wal && NextOf(wk.prep) in s.generations)
    && ReadsOk(s, wk)
    && WritesOk(s, wk)
  }

  lemma WorkerOkGrows(s: Ledger, t: Ledger, wk: Worker)
    requires Grows(s, t) && WorkerOk(s, wk)
    ensures WorkerOk(t, wk)
  {
    InChainTransitive(wk.prep.parent, s.current, t.current);
    if InChain(NextOf(wk.prep), s.current) {
      InChainTransitive(NextOf(wk.prep), s.current, t.current);
    }
    if InChain(wk.active, s.current) {
      InChainTransitive(wk.active, s.current, t.current);
    }
  }

  // ---------------------------------------------------------------- the shared state

  /** The write-ahead rows agree with the pointer. */
  ghost predicate RowOk(s: Ledger, t: TxnId)
    requires t in s.wal
  {
    var p := s.wal[t].state;
    && BundleOk(s, t)
    && NextOf(t) in s.generations
    && (PastCommit(p) ==> InChain(NextOf(t), s.current))
    && (p == Prepared ==> !InChain(NextOf(t), s.current))
    && (p == Committing && InChain(NextOf(t), s.current) ==> s.current == NextOf(t))
    && (p == Completed ==> t in s.events && t in s.outbox && s.outbox[t])
  }

  /** Every generation below CURRENT is settled; CURRENT itself has an outbox entry and a row that
      left `Prepared`. */
  ghost predicate ChainOk(s: Ledger, g: GenId) {
    g.Genesis? ||
    (&& g.txn in s.wal && s.wal[g.txn].state != Prepared
     && g.txn in s.outbox
     && (g != s.current ==> Settled(s, g))
     && ChainOk(s, g.parent))
  }

  ghost predicate RowsDistinct(s: Ledger) {
    && (forall t <- s.wal :: s.wal[t].rowid < s.nextRow)
    && (forall t <- s.wal, u <- s.wal :: s.wal[t].rowid == s.wal[u].rowid ==> t == u)
  }

  ghost predicate Shared(s: Ledger) {
    && WellFormed(s.current)
    && ChainOk(s, s.current)
    && (forall t <- s.wal :: RowOk(s, t))
    && (forall t <- s.events :: s.events[t] == EventOf(t))
    && (forall op <- s.staging :: s.staging[op].op == op && BundleOk(s, s.staging[op]))
    && RowsDistinct(s)
  }

  /** A token in a worker's hands was issued by the table. */
  ghost predicate TokenOk(s: Ledger, w: WorkerId, l: LeaseToken, p: Partition) {
    && l.partition == p && l.owner == w && l.epoch == s.epoch
    && p in s.leases && l.token <= s.leases[p].token
  }

  ghost predicate TokensOk(s: Ledger, w: WorkerId, wk: Worker) {
    && (wk.source.Some? ==> TokenOk(s, w, wk.source.value, SourcePartition(wk.prep.op.source)))
    && (wk.global.Some? ==> TokenOk(s, w, wk.global.value, LedgerCurrent))
    && (1 <= Rank(wk.pc) <= 26 ==> wk.source.Some?)
    && (2 <= Rank(wk.pc) <= 26 ==> wk.global.Some?)
  }

  /** The fence of the global lease is still this worker's. */
  predicate GlobalFence(s: Ledger, wk: Worker) {
    wk.global.Some? && Matches(s.leases, wk.global.value)
  }

  /** Whoever holds the global fence and has not swapped yet knows CURRENT. */
  ghost predicate FenceOk(s: Ledger, wk: Worker) {
    GlobalFence(s, wk) && 3 <= Rank(wk.pc) <= 16 ==> wk.active == s.current
  }

  ghost predicate Inv(sys: System) {
    && Shared(sys.ledger)
    && (forall w <- sys.workers :: WorkerInv(sys.ledger, w, sys.workers[w]))
  }

  ghost predicate WorkerInv(s: Ledger, w: WorkerId, wk: Worker) {
    WorkerOk(s, wk) && TokensOk(s, w, wk) && FenceOk(s, wk)
  }

  // ---------------------------------------------------------------- facts about ancestries

  lemma ChainGeneration(s: Ledger, top: GenId, g: GenId)
    requires ChainOk(s, top) && InChain(g, top)
    ensures ChainOk(s, g)
  {
  }

  /** Any generation in the ancestry other than CURRENT is settled. */
  lemma BelowCurrentIsSettled(s: Ledger, g: GenId)
    requires ChainOk(s, s.current) && InChain(g, s.current) && g != s.current
    ensures Settled(s, g)
  {
    ChainGeneration(s, s.current, g);
  }

  lemma ChainOkGrows(s: Ledger, t: Ledger, g: GenId)
    requires ChainOk(s, g) && Grows(s, t)
    requires s.current == t.current || Settled(s, s.current)
    ensures ChainOk(t, g)
    decreases g
  {
    if g.Gen? {
      ChainOkGrows(s, t, g.parent);
    }
  }

  lemma ReconciledIsSettled(s: Ledger, g: GenId)
    requires Shared(s) && InChain(g, s.current) && Reconciled(s, g)
    ensures Settled(s, g)
  {
    ChainGeneration(s, s.current, g);
  }
}
