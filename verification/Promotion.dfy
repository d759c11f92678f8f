/** The fenced promotion protocol of the ingestion pipeline, as a state machine.

    Each database transaction, each file publication and each read of a shared location is one
    step, so other workers can run between any two of them.  A worker can raise (its `finally`
    clause then releases its leases) or be killed at every step.
 */
module Promotion {
  import opened Options
  import opened LedgerTypes
  import opened Leases

  // ---------------------------------------------------------------- write-ahead rows

  datatype PromotionState = Prepared | Committing | Committed | Reconciling | Completed | Aborted

  /** The transitions `update_promotion_state` accepts, besides writing the same state again. */
  predicate Legal(from: PromotionState, to: PromotionState) {
    match from
    case Prepared => to == Committing || to == Aborted
    case Committing => to == Committed || to == Aborted
    case Committed => to == Reconciling
    case Reconciling => to == Completed
    case Completed => false
    case Aborted => false
  }

  function Order(p: PromotionState): nat {
    match p
    case Prepared => 0
    case Committing => 1
    case Committed => 2
    case Reconciling => 3
    case Completed => 4
    case Aborted => 5
  }

  /** `b` is reachable from `a` by legal transitions. */
  predicate Evolves(a: PromotionState, b: PromotionState) {
    a == b || (a != Aborted && Order(a) < Order(b) && (b == Aborted ==> Order(a) <= 1))
  }

  function Successor(p: PromotionState): PromotionState
    requires Order(p) < 4
  {
    match p
    case Prepared => Committing
    case Committing => Committed
    case Committed => Reconciling
    case Reconciling => Completed
  }

  predicate Superseding(p: PromotionState) {
    p == Prepared || p == Committing
  }

  datatype WalRow = WalRow(state: PromotionState, created: int, rowid: nat)

  type Wal = map<TxnId, WalRow>

  predicate Newer(a: WalRow, b: WalRow) {
    a.created > b.created || (a.created == b.created && a.rowid > b.rowid)
  }

  /** `t` is the row `promotion_for_operation` selects: the newest one that was not aborted. */
  predicate IsLatest(wal: Wal, op: Operation, t: TxnId) {
    && t in wal && t.op == op && wal[t].state != Aborted
    && forall u <- wal :: u.op == op && wal[u].state != Aborted ==> !Newer(wal[u], wal[t])
  }

  ghost function Latest(wal: Wal, op: Operation): (r: Option<TxnId>)
    ensures r.Some? ==> IsLatest(wal, op, r.value)
  {
    if exists t :: IsLatest(wal, op, t) then
      var t :| IsLatest(wal, op, t);
      Some(t)
    else None
  }

  // ---------------------------------------------------------------- state

  datatype OperationState = Running | AwaitingApproval | OpReconciling | Succeeded
  datatype OpRow = OpRow(state: OperationState, result: Option<GenId>)

  datatype RunState = RunPreparing | RunPrepared | RunAwaitingApproval | RunSucceeded
  datatype Manifest = Manifest(state: RunState, txn: TxnId)

  /** The next action of a worker inside `_promote` or `_recover_committed`. */
  datatype Pc =
    | AcquireSource | AcquireGlobal | ReadActive | ReadWal | Check | Decide
    | NoopOperation | NoopManifest
    | RebaseBundle | RebaseManifest
    | PublishGeneration | StoreWal | StoreOutbox | AbortSuperseded | Reread | ToCommitting | Swap
    | RecoverGuard
    | ToCommitted | SetReconciling | PublishEvent | MarkAppended | ToReconciling | Materialize
    | SetSucceeded | ToCompleted | SetManifest
    | ReleaseGlobal | ReleaseSource

  /** `started` is the clock reading that both lease requests and the write-ahead row carry. */
  datatype Worker = Worker(
    pc: Pc,
    prep: TxnId,
    recovering: bool,
    source: Option<LeaseToken>,
    global: Option<LeaseToken>,
    active: GenId,
    existing: Option<(TxnId, PromotionState)>,
    superseded: Option<TxnId>,
    started: int)

  /** Everything that survives a crash: the files of the workspace and the control database. */
  datatype Ledger = Ledger(
    current: GenId,
    generations: set<GenId>,
    wal: Wal,
    nextRow: nat,
    outbox: map<TxnId, bool>,      // true once the event is marked appended
    events: map<TxnId, Event>,
    operations: map<Operation, OpRow>,
    manifests: map<Operation, Manifest>,
    marker: Option<GenId>,
    staging: map<Operation, TxnId>,
    epoch: Epoch,
    leases: LeaseTable)

  datatype System = System(ledger: Ledger, workers: map<WorkerId, Worker>)

  function Init(epoch: Epoch): System {
    System(Ledger(Genesis, {Genesis}, map[], 0, map[], map[], map[], map[], None, map[], epoch, map[]), map[])
  }

  // ---------------------------------------------------------------- what a worker reads

  /** `_assert_active_generation_reconciled` accepts `g`. */
  predicate Reconciled(s: Ledger, g: GenId) {
    g.Genesis? ||
    (&& g.txn in s.events && s.events[g.txn] == EventOf(g.txn)
     && s.marker == Some(g)
     && g.txn.op in s.manifests && s.manifests[g.txn.op] == Manifest(RunSucceeded, g.txn)
     && (g.txn in s.wal ==>
           && s.wal[g.txn].state == Completed
           && OperationDone(s, g.txn.op)
           && g.txn in s.outbox && s.outbox[g.txn]))
  }

  predicate OperationDone(s: Ledger, op: Operation) {
    op in s.operations && s.operations[op].state == Succeeded && s.operations[op].result.Some?
  }

  /** The part of `Reconciled` that no step ever takes back. */
  predicate Settled(s: Ledger, g: GenId) {
    g.Genesis? ||
    (&& g.txn in s.wal && s.wal[g.txn].state == Completed
     && g.txn in s.events && s.events[g.txn] == EventOf(g.txn)
     && g.txn in s.outbox && s.outbox[g.txn])
  }

  /** The worker is finishing a promotion of its own that already moved the pointer. */
  predicate OwnCommitted(wk: Worker) {
    wk.existing.Some? && wk.existing.value.0 == wk.prep && wk.active == NextOf(wk.prep)
  }

  /** The generation already holds exactly this claim. */
  predicate ActiveClaim(g: GenId, claim: Claim) {
    var records := RecordsOf(g);
    claim.id in records && !records[claim.id].tombstone && records[claim.id].claim == claim
  }

  /** Both leases would pass `hold_valid_leases` at time `now`. */
  predicate Holds(s: Ledger, wk: Worker, now: int) {
    && wk.source.Some? && Valid(s.leases, wk.source.value, now)
    && wk.global.Some? && Valid(s.leases, wk.global.value, now)
  }

  /** Every generation in the ancestry has its promotion event, and the event agrees with it. */
  predicate EventsResolved(events: map<TxnId, Event>, g: GenId) {
    g.Genesis? || (g.txn in events && events[g.txn] == EventOf(g.txn) && EventsResolved(events, g.parent))
  }

  // ---------------------------------------------------------------- durable effects

  /** The one durable write of an action. */
  datatype Effect =
    | Nothing
    | SetLeases(table: LeaseTable)
    | WriteOperation(op: Operation, opRow: OpRow)
    | WriteManifest(op: Operation, manifest: Manifest)
    | WriteStaging(txn: TxnId)
    | AddGeneration(txn: TxnId)
    | InsertRow(txn: TxnId, created: int)
    | UpdateRow(txn: TxnId, to: PromotionState)
    | InsertOutbox(txn: TxnId)
    | MarkOutbox(txn: TxnId)
    | AddEvent(txn: TxnId)
    | MoveCurrent(txn: TxnId)
    | SetMarker(gen: GenId)

  function Apply(s: Ledger, e: Effect): Ledger {
    match e
    case Nothing => s
    case SetLeases(table) => s.(leases := table)
    case WriteOperation(op, opRow) => s.(operations := s.operations[op := opRow])
    case WriteManifest(op, manifest) => s.(manifests := s.manifests[op := manifest])
    case WriteStaging(t) => s.(staging := s.staging[t.op := t])
    case AddGeneration(t) => s.(generations := s.generations + {NextOf(t)})
    case InsertRow(t, created) =>
      if t in s.wal then s
      else s.(wal := s.wal[t := WalRow(Prepared, created, s.nextRow)], nextRow := s.nextRow + 1)
    case UpdateRow(t, to) => if t in s.wal then s.(wal := s.wal[t := s.wal[t].(state := to)]) else s
    case InsertOutbox(t) => if t in s.outbox then s else s.(outbox := s.outbox[t := false])
    case MarkOutbox(t) => if t in s.outbox then s.(outbox := s.outbox[t := true]) else s
    case AddEvent(t) => if t in s.events then s else s.(events := s.events[t := EventOf(t)])
    case MoveCurrent(t) => s.(current := NextOf(t))
    case SetMarker(g) => s.(marker := Some(g))
  }

  // ---------------------------------------------------------------- actions

  /** What an action of a busy worker does: raise, write and go on, or write and return. */
  datatype Outcome =
    | Raises
    | Goes(effect: Effect, worker: Worker)
    | Returns(effect: Effect)

  /** One iteration of `_advance_promotion_state`: one legal transition towards `target`, or the
      next action once the row is there.  An aborted row raises. */
  function Advance(s: Ledger, wk: Worker, target: PromotionState, next: Pc): Outcome
    requires Order(target) <= 4
  {
    if wk.prep !in s.wal || s.wal[wk.prep].state == Aborted then Raises
    else if Order(s.wal[wk.prep].state) < Order(target) then
      Goes(UpdateRow(wk.prep, Successor(s.wal[wk.prep].state)), wk)
    else Goes(Nothing, wk.(pc := next))
  }

  function AcquireAction(s: Ledger, w: WorkerId, wk: Worker, now: int, ttl: int): Outcome {
    var p := if wk.pc == AcquireSource then SourcePartition(wk.prep.op.source) else LedgerCurrent;
    var start := if wk.pc == AcquireSource then now else wk.started;
    var r := Acquire(s.leases, s.epoch, p, w, ttl, start);
    if r.None? then Raises
    else if wk.pc == AcquireSource then
      Goes(SetLeases(r.value.0), wk.(pc := AcquireGlobal, source := Some(r.value.1), started := now))
    else
      Goes(SetLeases(r.value.0),
           wk.(pc := if wk.recovering then RecoverGuard else ReadActive, global := Some(r.value.1)))
  }

  ghost function ReadAction(s: Ledger, wk: Worker): Outcome {
    match wk.pc
    case ReadActive => Goes(Nothing, wk.(pc := ReadWal, active := s.current))
    case ReadWal =>
      var latest := Latest(s.wal, wk.prep.op);
      Goes(Nothing, wk.(pc := Check,
                        existing := if latest.Some? then Some((latest.value, s.wal[latest.value].state)) else None))
    case Check =>
      if OwnCommitted(wk) || Reconciled(s, wk.active) then Goes(Nothing, wk.(pc := Decide)) else Raises
    case _ => DecideAction(wk)
  }

  function DecideAction(wk: Worker): Outcome {
    if wk.existing.None? && ActiveClaim(wk.active, wk.prep.claim) then
      Goes(Nothing, wk.(pc := NoopOperation))
    else if wk.active != wk.prep.parent && wk.active != NextOf(wk.prep) then
      var own := wk.existing.Some? && wk.existing.value.0 == wk.prep;
      if own && !Superseding(wk.existing.value.1) then Raises
      else
        Goes(Nothing, wk.(pc := RebaseBundle,
                          prep := Rebase(wk.prep, wk.active),
                          superseded := if own then Some(wk.prep) else None))
    else
      var other := wk.existing.Some? && wk.existing.value.0 != wk.prep && Superseding(wk.existing.value.1);
      Goes(Nothing, wk.(pc := PublishGeneration,
                        superseded := if other then Some(wk.existing.value.0) else None))
  }

  /** The semantic no-op: the claim is already active, so only the operation and run are closed. */
  function NoopAction(wk: Worker): Outcome {
    if wk.pc == NoopOperation then
      Goes(WriteOperation(wk.prep.op, OpRow(Succeeded, Some(wk.active))), wk.(pc := NoopManifest))
    else if wk.active.Genesis? then Raises
    else Goes(WriteManifest(wk.prep.op, Manifest(RunSucceeded, wk.active.txn)), wk.(pc := ReleaseGlobal))
  }

  function PrepareAction(s: Ledger, wk: Worker): Outcome {
    var t := wk.prep;
    match wk.pc
    case RebaseBundle => Goes(WriteStaging(t), wk.(pc := RebaseManifest))
    case RebaseManifest => Goes(WriteManifest(t.op, Manifest(RunPrepared, t)), wk.(pc := PublishGeneration))
    case PublishGeneration => Goes(AddGeneration(t), wk.(pc := StoreWal))
    case StoreWal => Goes(InsertRow(t, wk.started), wk.(pc := StoreOutbox))
    case StoreOutbox => Goes(InsertOutbox(t), wk.(pc := AbortSuperseded))
    case _ => AbortAction(s, wk)
  }

  function AbortAction(s: Ledger, wk: Worker): Outcome {
    if wk.superseded.None? then Goes(Nothing, wk.(pc := Reread))
    else
      var x := wk.superseded.value;
      if x !in s.wal || !(Legal(s.wal[x].state, Aborted) || s.wal[x].state == Aborted) then Raises
      else Goes(UpdateRow(x, Aborted), wk.(pc := Reread))
  }

  ghost function CommitAction(s: Ledger, wk: Worker, now: int): Outcome {
    var t := wk.prep;
    match wk.pc
    case Reread =>
      if s.current == t.parent then Goes(Nothing, wk.(pc := ToCommitting))
      else if s.current == NextOf(t) then Goes(Nothing, wk.(pc := ToCommitted))
      else Raises
    case ToCommitting => Advance(s, wk, Committing, Swap)
    case Swap =>
      if Holds(s, wk, now) && s.current == t.parent && NextOf(t) in s.generations then
        Goes(MoveCurrent(t), wk.(pc := ToCommitted))
      else Raises
    case _ =>
      if Holds(s, wk, now) && Latest(s.wal, t.op) == Some(t) && s.current == NextOf(t) && t in s.outbox then
        Goes(Nothing, wk.(pc := ToCommitted))
      else Raises
  }

  function FinishAction(s: Ledger, wk: Worker, now: int): Outcome {
    var t := wk.prep;
    match wk.pc
    case ToCommitted => Advance(s, wk, Committed, SetReconciling)
    case SetReconciling => Goes(WriteOperation(t.op, OpRow(OpReconciling, None)), wk.(pc := PublishEvent))
    case PublishEvent => Goes(AddEvent(t), wk.(pc := MarkAppended))
    case MarkAppended => Goes(MarkOutbox(t), wk.(pc := ToReconciling))
    case ToReconciling => Advance(s, wk, Reconciling, Materialize)
    case Materialize =>
      if Holds(s, wk, now) && s.current == NextOf(t) && EventsResolved(s.events, s.current) then
        Goes(SetMarker(s.current), wk.(pc := SetSucceeded))
      else Raises
    case SetSucceeded => Goes(WriteOperation(t.op, OpRow(Succeeded, Some(NextOf(t)))), wk.(pc := ToCompleted))
    case ToCompleted => Advance(s, wk, Completed, SetManifest)
    case _ => Goes(WriteManifest(t.op, Manifest(RunSucceeded, t)), wk.(pc := ReleaseGlobal))
  }

  /** The `finally` clause. */
  function ReleaseAction(s: Ledger, wk: Worker): Outcome {
    if wk.pc == ReleaseGlobal then
      Goes(if wk.global.Some? then SetLeases(Release(s.leases, wk.global.value)) else Nothing,
           wk.(pc := ReleaseSource))
    else
      Returns(if wk.source.Some? then SetLeases(Release(s.leases, wk.source.value)) else Nothing)
  }

  datatype Phase = Acquiring | Reading | Closing | Preparing | Swapping | Finishing | Releasing

  function PhaseOf(pc: Pc): Phase {
    match pc
    case AcquireSource | AcquireGlobal => Acquiring
    case ReadActive | ReadWal | Check | Decide => Reading
    case NoopOperation | NoopManifest => Closing
    case RebaseBundle | RebaseManifest | PublishGeneration | StoreWal | StoreOutbox | AbortSuperseded => Preparing
    case Reread | ToCommitting | Swap | RecoverGuard => Swapping
    case ToCommitted | SetReconciling | PublishEvent | MarkAppended | ToReconciling | Materialize
       | SetSucceeded | ToCompleted | SetManifest => Finishing
    case ReleaseGlobal | ReleaseSource => Releasing
  }

  /** One action of a busy worker at clock reading `now`. */
  ghost function Act(s: Ledger, w: WorkerId, wk: Worker, now: int, ttl: int): Outcome {
    match PhaseOf(wk.pc)
    case Acquiring => AcquireAction(s, w, wk, now, ttl)
    case Reading => ReadAction(s, wk)
    case Closing => NoopAction(wk)
    case Preparing => PrepareAction(s, wk)
    case Swapping => CommitAction(s, wk, now)
    case Finishing => FinishAction(s, wk, now)
    case Releasing => ReleaseAction(s, wk)
  }

  // ---------------------------------------------------------------- entry points

  /** `recover_run` finds the operation, its run and its row in their final states. */
  ghost predicate Terminal(s: Ledger, op: Operation) {
    && OperationDone(s, op)
    && op in s.manifests && s.manifests[op].state == RunSucceeded
    && (Latest(s.wal, op).None? || s.wal[Latest(s.wal, op).value].state == Completed)
  }

  /** The newest row of the operation is the one CURRENT came from. */
  ghost predicate AtCommitted(s: Ledger, op: Operation) {
    Latest(s.wal, op).Some? && s.current == NextOf(Latest(s.wal, op).value)
  }

  /** `_promote` is entered from `ingest` unless the operation is done, and from `recover_run`
      unless the run is terminal or the pointer already moved. */
  ghost predicate MayPromote(s: Ledger, op: Operation) {
    !OperationDone(s, op) || (!Terminal(s, op) && !AtCommitted(s, op))
  }

  ghost predicate MayRecover(s: Ledger, op: Operation) {
    AtCommitted(s, op) && !(Terminal(s, op) && Reconciled(s, s.current))
  }

  /** The prepared bundle of an operation: its staging directory, or its write-ahead row. */
  ghost function Bundle(s: Ledger, op: Operation): Option<TxnId> {
    if op in s.staging then Some(s.staging[op]) else Latest(s.wal, op)
  }

  function Fresh(t: TxnId, recovering: bool): Worker {
    Worker(AcquireSource, t, recovering, None, None, Genesis, None, None, 0)
  }

  /** `PrepareRun` is a write of `_prepare` to its run before it has a bundle, `Stage` the end of `_prepare` or
      of `import_proposal`: it wrote a bundle built on a generation that was CURRENT when it read the pointer.
      `AwaitRun` and `AwaitOperation` are the two writes of an ingestion that stops for approval.  `Rebuild` is
      the marker write of `rebuild-index`, for a generation that was CURRENT when it loaded it.  `Renewal` is a
      heartbeat.  `Raise` is any exception. */
  datatype Label =
    | PrepareRun(op: Operation)
    | Stage(op: Operation, parent: GenId, proposal: Claim)
    | AwaitRun(op: Operation)
    | AwaitOperation(op: Operation)
    | Rebuild(gen: GenId)
    | Promote(w: WorkerId, op: Operation)
    | Recover(w: WorkerId, op: Operation)
    | Do(w: WorkerId, now: int, ttl: int)
    | Renewal(w: WorkerId, now: int, ttl: int)
    | Raise(w: WorkerId)
    | Kill(w: WorkerId)

  function Staged(s: Ledger, op: Operation, parent: GenId, proposal: Claim): Ledger {
    var t := CandidateTxn(op, parent, proposal);
    s.(staging := s.staging[op := t],
       operations := if op in s.operations then s.operations else s.operations[op := OpRow(Running, None)],
       manifests := s.manifests[op := Manifest(RunPrepared, t)])
  }

  predicate WritesOutside(l: Label) {
    l.PrepareRun? || l.AwaitRun? || l.AwaitOperation? || l.Rebuild?
  }

  /** The one write of a step that needs no lease and no worker. */
  ghost function OutsideWrite(s: Ledger, l: Label): (r: Option<Effect>)
    requires WritesOutside(l)
    ensures r.Some? ==> r.value.WriteManifest? || r.value.WriteOperation? || r.value.SetMarker?
  {
    match l
    case PrepareRun(op) =>
      if op in s.manifests then Some(WriteManifest(op, s.manifests[op].(state := RunPreparing))) else None
    case AwaitRun(op) =>
      if op in s.manifests then Some(WriteManifest(op, s.manifests[op].(state := RunAwaitingApproval))) else None
    case AwaitOperation(op) =>
      if op in s.operations then Some(WriteOperation(op, OpRow(AwaitingApproval, None))) else None
    case Rebuild(g) =>
      if InChain(g, s.current) && EventsResolved(s.events, g) then Some(SetMarker(g)) else None
  }

  function Renewed(s: Ledger, wk: Worker, now: int, ttl: int): Option<LeaseTable>
    requires Holds(s, wk, now)
  {
    var held := Hold(s.leases, [wk.source.value, wk.global.value], now, Some(ttl));
    if held.None? || ttl <= 0 then None else Some(held.value.0)
  }

  ghost function Settle(sys: System, w: WorkerId, o: Outcome): Option<System> {
    match o
    case Raises => None
    case Goes(e, wk) => Some(System(Apply(sys.ledger, e), sys.workers[w := wk]))
    case Returns(e) => Some(System(Apply(sys.ledger, e), sys.workers - {w}))
  }

  /** The system after one step, or `None` when the step cannot be taken. */
  ghost function Next(sys: System, l: Label): Option<System> {
    var s := sys.ledger;
    match l
    case Stage(op, parent, proposal) =>
      if InChain(parent, s.current) then Some(sys.(ledger := Staged(s, op, parent, proposal))) else None
    case PrepareRun(_) | AwaitRun(_) | AwaitOperation(_) | Rebuild(_) =>
      var e := OutsideWrite(s, l);
      if e.Some? then Some(sys.(ledger := Apply(s, e.value))) else None
    case Promote(w, op) =>
      if w in sys.workers || !MayPromote(s, op) || Bundle(s, op).None? then None
      else Some(sys.(workers := sys.workers[w := Fresh(Bundle(s, op).value, false)]))
    case Recover(w, op) =>
      if w in sys.workers || !MayRecover(s, op) then None
      else Some(sys.(workers := sys.workers[w := Fresh(Latest(s.wal, op).value, true)]))
    case Do(w, now, ttl) =>
      if w in sys.workers then Settle(sys, w, Act(s, w, sys.workers[w], now, ttl)) else None
    case Renewal(w, now, ttl) =>
      if w in sys.workers && Holds(s, sys.workers[w], now) && Renewed(s, sys.workers[w], now, ttl).Some? then
        Some(sys.(ledger := Apply(s, SetLeases(Renewed(s, sys.workers[w], now, ttl).value))))
      else None
    case Raise(w) =>
      if w in sys.workers then Some(sys.(workers := sys.workers[w := sys.workers[w].(pc := ReleaseGlobal)])) else None
    case Kill(w) =>
      if w in sys.workers then Some(sys.(workers := sys.workers - {w})) else None
  }

  /** The state after a sequence of steps, if every one of them can be taken. */
  ghost function Exec(s: System, ls: seq<Label>): Option<System>
    decreases |ls|
  {
    if ls == [] then Some(s)
    else
      var before := Exec(s, ls[..|ls| - 1]);
      if before.None? then None else Next(before.value, ls[|ls| - 1])
  }

  ghost predicate Reaches(s: System, t: System) {
    exists ls :: Exec(s, ls) == Some(t)
  }

  ghost predicate Reachable(s: System) {
    exists epoch :: Reaches(Init(epoch), s)
  }

  lemma ReachesSelf(s: System)
    ensures Reaches(s, s)
  {
    assert Exec(s, []) == Some(s);
  }

  lemma ReachesStep(s: System, t: System, l: Label)
    requires Reaches(s, t) && Next(t, l).Some?
    ensures Reaches(s, Next(t, l).value)
  {
    var ls :| Exec(s, ls) == Some(t);
    var more := ls + [l];
    assert more[..|more| - 1] == ls;
    assert Exec(s, more) == Next(t, l);
  }

  lemma {:induction false} ExecAppend(s: System, xs: seq<Label>, ys: seq<Label>)
    requires Exec(s, xs).Some?
    ensures Exec(s, xs + ys) == Exec(Exec(s, xs).value, ys)
    decreases |ys|
  {
    if ys == [] {
      assert xs + ys == xs;
    } else {
      ExecAppend(s, xs, ys[..|ys| - 1]);
      assert (xs + ys)[..|xs + ys| - 1] == xs + ys[..|ys| - 1];
    }
  }

  lemma ReachesTransitive(s: System, t: System, u: System)
    requires Reaches(s, t) && Reaches(t, u)
    ensures Reaches(s, u)
  {
    var xs :| Exec(s, xs) == Some(t);
    var ys :| Exec(t, ys) == Some(u);
    ExecAppend(s, xs, ys);
    assert Exec(s, xs + ys) == Some(u);
  }
}
