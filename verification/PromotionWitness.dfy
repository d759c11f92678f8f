/** Runs that show what the unfenced writes of the protocol allow.

    The abort of a superseded row and the status writes are not made under the leases.  A worker
    that overran its leases can therefore abort the row its successor is about to commit, and can
    reopen the operation of a generation that was already reconciled.
 */
module PromotionWitness {
  import opened Options
  import opened LedgerTypes
  import opened Leases
  import opened Promotion
  import opened PromotionInvariant
  import opened ControlPlane
  import opened PipelineRuns
  import opened Pipeline
  import opened PromotionFencing

  // ---------------------------------------------------------------- one promotion running alone

  /** The ledger when a worker that met no obstacle stands before the swap. */
  function BeforeSwap(s: Ledger, t: TxnId, now: int): Ledger {
    s.(generations := s.generations + {NextOf(t)},
       wal := s.wal[t := WalRow(Committing, now, s.nextRow)],
       nextRow := s.nextRow + 1,
       outbox := s.outbox[t := false])
  }

  lemma RecordsToSwap(from: System, w: WorkerId, others: map<WorkerId, Worker>, s: Ledger, wk: Worker)
    requires Standing(from, w, others, s, wk) && wk.pc == PublishGeneration && wk.superseded == None
    requires wk.prep !in s.wal && wk.prep !in s.outbox && s.current == wk.prep.parent
    ensures Standing(from, w, others, BeforeSwap(s, wk.prep, wk.started), wk.(pc := Swap))
  {
    hide Standing;
    hide NextOf;
    hide Recorded;
    var t, now := wk.prep, wk.started;
    RecordRuns(from, w, others, s, wk);
    RecordedFields(s, t, now);
    var s1 := Recorded(s, t, now);
    assert s1.wal == s.wal[t := WalRow(Prepared, now, s.nextRow)] && s1.current == s.current;
    AbortRuns(from, w, others, s1, wk.(pc := AbortSuperseded));
    RereadRuns(from, w, others, s1, wk.(pc := Reread));
    assert s1.wal[t := WalRow(Committing, now, s.nextRow)] == s.wal[t := WalRow(Committing, now, s.nextRow)];
  }

  lemma LeasedExpires(s: Ledger, w: WorkerId, t: TxnId, recovering: bool, now: int, ttl: int)
    requires AllExpired(s.leases, now) && ttl > 0
    ensures AllExpired(Leased(s, w, t, recovering, now, ttl).0, now + ttl)
  {
  }

  lemma HeldExpires(t: LeaseTable, source: LeaseToken, global: LeaseToken, now: int, ttl: int, later: int)
    requires AllExpired(t, later) && now + ttl <= later
    ensures AllExpired(HeldTable(t, source, global, now, ttl), later)
  {
  }

  lemma ReleasedExpires(t: LeaseTable, source: Option<LeaseToken>, global: Option<LeaseToken>, later: int)
    requires AllExpired(t, later) && later >= 0
    ensures AllExpired(Released(t, source, global), later)
  {
  }

  /** The ledger a worker records its candidate in. */
  function BaseFor(s: Ledger, t: TxnId): Ledger {
    if s.current == t.parent then s else Restaged(s, Rebase(t, s.current))
  }

  /** The operation has no row and its claim is new, or its newest row is another one that was completed since
      the bundle was built. */
  ghost predicate NewOrOutdated(s: Ledger, t: TxnId) {
    var latest := Latest(s.wal, t.op);
    if latest.None? then t.claim.id !in RecordsOf(s.current)
    else latest.value != t && s.wal[latest.value].state == Completed && s.current != t.parent
  }

  /** Nothing is in the way of promoting the bundle `t`, as it is or rebased: CURRENT is reconciled and the candidate
      was never recorded. */
  ghost predicate Unobstructed(s: Ledger, t: TxnId) {
    && Reconciled(s, s.current) && NewOrOutdated(s, t)
    && s.current != NextOf(t)
    && CandidateFor(s, t) !in s.wal && CandidateFor(s, t) !in s.outbox
  }

  lemma DecidesToPublish(s: Ledger, t: TxnId, wk: Worker)
    requires Unobstructed(s, t) && wk.prep == t && wk.superseded == None
    ensures
      var o := Decision(s, wk);
      && o.Goes?
      && o.worker == wk.(pc := if s.current == t.parent then PublishGeneration else RebaseBundle,
                         prep := CandidateFor(s, t), active := s.current, existing := o.worker.existing)
  {
    hide Latest;
    hide NextOf;
    hide MergeClaim;
  }

  /** An unobstructed worker runs up to the swap. */
  lemma RunsToSwap(from: System, w: WorkerId, others: map<WorkerId, Worker>, s: Ledger, t: TxnId, now: int, ttl: int)
    returns (table: LeaseTable, wk: Worker)
    requires Standing(from, w, others, s, Fresh(t, false)) && Unobstructed(s, t)
    requires ttl > 0 && AllExpired(s.leases, now)
    ensures Standing(from, w, others, BeforeSwap(BaseFor(s, t), CandidateFor(s, t), now).(leases := table), wk)
    ensures wk.pc == Swap && wk.prep == CandidateFor(s, t) && wk.source.Some? && wk.global.Some?
    ensures wk.source.value.partition != wk.global.value.partition
    ensures forall at :: at < now + ttl ==> BothValid(table, wk.source.value, wk.global.value, at)
    ensures AllExpired(table, now + ttl)
  {
    hide Standing;
    hide Leased;
    hide BothValid;
    hide BeforeSwap;
    hide AllExpired;
    LeasesFreeLater(s.leases, w, t.op, now);
    LeaseRuns(from, w, others, s, t, false, now, ttl);
    LeasedHolds(s, w, t, false, now, ttl);
    LeasedExpires(s, w, t, false, now, ttl);
    table, wk := Leased(s, w, t, false, now, ttl).0, Leased(s, w, t, false, now, ttl).1;
    BaseFacts(s, t, now, table);
    assert Unobstructed(s.(leases := table), t);
    wk := PreparesToSwap(from, w, others, s.(leases := table), t, wk, now);
  }

  lemma RestagedFacts(s: Ledger, t: TxnId, table: LeaseTable)
    ensures
      var r := Restaged(s, t);
      && r.current == s.current && r.wal == s.wal && r.outbox == s.outbox
      && Restaged(s.(leases := table), t) == r.(leases := table)
  {
  }

  lemma BaseFacts(s: Ledger, t: TxnId, now: int, table: LeaseTable)
    ensures CandidateFor(s, t).parent == s.current
    ensures
      var base, leased := BaseFor(s, t), s.(leases := table);
      && base.current == s.current && base.wal == s.wal && base.outbox == s.outbox
      && BaseFor(leased, t) == base.(leases := table)
      && CandidateFor(leased, t) == CandidateFor(s, t)
      && BeforeSwap(BaseFor(leased, t), CandidateFor(s, t), now) == BeforeSwap(base, CandidateFor(s, t), now).(leases := table)
  {
    hide MergeClaim;
    hide NextOf;
    hide Restaged;
    RestagedFacts(s, Rebase(t, s.current), table);
  }

  lemma PreparesToSwap(from: System, w: WorkerId, others: map<WorkerId, Worker>, s: Ledger, t: TxnId, wk: Worker, now: int)
    returns (last: Worker)
    requires Standing(from, w, others, s, wk) && Unobstructed(s, t)
    requires wk.pc == ReadActive && wk.prep == t && wk.superseded == None && wk.started == now
    ensures last == wk.(pc := Swap, prep := CandidateFor(s, t), active := s.current, existing := last.existing)
    ensures Standing(from, w, others, BeforeSwap(BaseFor(s, t), CandidateFor(s, t), now), last)
  {
    hide Standing;
    hide Latest;
    hide Reconciled;
    hide NewOrOutdated;
    hide NextOf;
    hide Decision;
    hide BeforeSwap;
    hide Restaged;
    DecidesToPublish(s, t, wk);
    DecisionRuns(from, w, others, s, wk);
    BaseFacts(s, t, now, s.leases);
    last := Decision(s, wk).worker;
    if s.current != t.parent {
      RestageRuns(from, w, others, s, last);
    }
    last := last.(pc := PublishGeneration);
    RecordsToSwap(from, w, others, BaseFor(s, t), last);
    last := last.(pc := Swap);
  }

  /** From the swap to the end of the call. */
  lemma SwapsAndCloses(from: System, w: WorkerId, others: map<WorkerId, Worker>, s: Ledger, wk: Worker, now: int, ttl: int)
    returns (table: LeaseTable)
    requires Standing(from, w, others, s, wk) && w !in others && wk.pc == Swap && wk.source.Some? && wk.global.Some?
    requires wk.source.value.partition != wk.global.value.partition
    requires CanSwap(s, wk.prep, wk.source.value, wk.global.value, now, ttl)
    requires wk.prep in s.wal && s.wal[wk.prep].state != Aborted
    requires EventsResolved(Published(s.events, wk.prep), NextOf(wk.prep))
    requires AllExpired(s.leases, now + ttl) && now + ttl >= 0
    ensures Reaches(from, System(FinishedLedger(s.(current := NextOf(wk.prep)), wk.prep).(leases := table), others))
    ensures AllExpired(table, now + ttl)
  {
    hide Standing;
    hide Reaches;
    hide NextOf;
    hide EventsResolved;
    hide Published;
    hide Marked;
    hide MovedTo;
    hide Released;
    SwapRuns(from, w, others, s, wk, now, ttl);
    var t, source, global := wk.prep, wk.source.value, wk.global.value;
    var s1 := s.(leases := HeldTable(s.leases, source, global, now, ttl), current := NextOf(t));
    FinishRuns(from, w, others, s1, wk.(pc := ToCommitted), now, ttl);
    var s2 := AfterFinish(s1, t, source, global, now, ttl);
    ReleaseRuns(from, w, others, s2, wk.(pc := ReleaseGlobal));
    table := Released(s2.leases, wk.source, wk.global);
    HeldExpires(s.leases, source, global, now, ttl, now + ttl);
    HeldExpires(s1.leases, source, global, now, ttl, now + ttl);
    ReleasedExpires(s2.leases, wk.source, wk.global, now + ttl);
  }

  // ---------------------------------------------------------------- an aborted row is committed

  const OpX := Operation(0, 0, 0)
  const OpY := Operation(1, 1, 0)
  const ClaimX := Claim(0, 0, {0}, 0)
  const ClaimY := Claim(1, 0, {1}, 0)

  function BundleX(): TxnId {
    Txn(OpX, Genesis, ClaimX)
  }

  function BundleY(): TxnId {
    Txn(OpY, Genesis, ClaimY)
  }

  /** Both operations were prepared on the empty ledger. */
  function StagedBoth(): Ledger {
    Staged(Staged(Init(0).ledger, OpX, Genesis, ClaimX), OpY, Genesis, ClaimY)
  }

  lemma StagedFacts()
    ensures Reaches(Init(0), System(StagedBoth(), map[]))
    ensures StagedBoth().staging == map[OpX := BundleX(), OpY := BundleY()]
    ensures StagedBoth().current == Genesis && StagedBoth().leases == map[]
    ensures StagedBoth().wal == map[] && StagedBoth().outbox == map[] && StagedBoth().events == map[]
    ensures !OperationDone(StagedBoth(), OpX) && !OperationDone(StagedBoth(), OpY)
    ensures OpX != OpY
  {
    hide Reaches;
    assert CandidateTxn(OpX, Genesis, ClaimX) == BundleX() && CandidateTxn(OpY, Genesis, ClaimY) == BundleY();
    var start := Init(0);
    ReachesSelf(start);
    var first := System(Staged(start.ledger, OpX, Genesis, ClaimX), map[]);
    ReachesStep(start, start, Stage(OpX, Genesis, ClaimX));
    ReachesStep(start, first, Stage(OpY, Genesis, ClaimY));
  }

  /** Worker 2 starts at some time, takes its leases and reads CURRENT.  Its heartbeat then reads a clock that was set
      back to 0, and it stalls. */
  lemma StaleReader(start: nat) returns (table: LeaseTable, wk: Worker)
    ensures Reaches(Init(0), System(StagedBoth().(leases := table), map[2 := wk]))
    ensures wk.pc == ReadWal && wk.prep == BundleX() && wk.active == Genesis && wk.superseded == None && wk.started == start
    ensures AllExpired(table, 1)
  {
    hide Reaches;
    hide Standing;
    hide StagedBoth;
    hide Leased;
    hide BothValid;
    hide HeldTable;
    StagedFacts();
    var s, t := StagedBoth(), BundleX();
    var from := Init(0);
    EntersPromotion(from, 2, map[], s, OpX);
    LeasesFreeLater(s.leases, 2, OpX, start);
    LeaseRuns(from, 2, map[], s, t, false, start, 1);
    LeasedHolds(s, 2, t, false, start, 1);
    var leased, held := Leased(s, 2, t, false, start, 1).0, Leased(s, 2, t, false, start, 1).1;
    ReadRuns(from, 2, map[], s.(leases := leased), held);
    wk := held.(pc := ReadWal, active := Genesis);
    HoldRuns(from, 2, map[], s.(leases := leased), wk, 0, 1);
    table := HeldTable(leased, wk.source.value, wk.global.value, 0, 1);
    TwoLeasesExpire(s, t, start);
    StandsReached(from, 2, map[], s.(leases := table), wk);
    assert map[][2 := wk] == map[2 := wk];
  }

  lemma TwoLeasesExpire(s: Ledger, t: TxnId, start: nat)
    requires s.leases == map[]
    ensures
      var (leased, wk) := Leased(s, 2, t, false, start, 1);
      wk.source.Some? && wk.global.Some? && AllExpired(HeldTable(leased, wk.source.value, wk.global.value, 0, 1), 1)
  {
  }

  function BeforeY(): Ledger {
    BeforeSwap(StagedBoth(), BundleY(), 10)
  }

  /** Operation Y was promoted completely. */
  function AfterY(): Ledger {
    FinishedLedger(BeforeY().(current := NextOf(BundleY())), BundleY())
  }

  lemma YUnobstructed(table: LeaseTable)
    ensures Unobstructed(StagedBoth().(leases := table), BundleY())
    ensures CanSwapY(BeforeY()) && EventsResolved(Published(BeforeY().events, BundleY()), NextOf(BundleY()))
  {
    StagedFacts();
    assert EventsResolved(Published(map[], BundleY()), Genesis);
  }

  predicate CanSwapY(s: Ledger) {
    && s.current == Genesis && NextOf(BundleY()) in s.generations
    && BundleY() in s.wal && s.wal[BundleY()].state == Committing
  }

  lemma AfterYFacts()
    ensures AfterY().current == NextOf(BundleY())
    ensures AfterY().wal == map[BundleY() := WalRow(Completed, 10, StagedBoth().nextRow)]
    ensures AfterY().outbox == map[BundleY() := true]
    ensures AfterY().staging == StagedBoth().staging
    ensures Reconciled(AfterY(), NextOf(BundleY()))
    ensures !OperationDone(AfterY(), OpX)
    ensures BundleX().claim.id !in RecordsOf(NextOf(BundleY()))
  {
    StagedFacts();
  }

  /** A worker stands before the swap of Y, having met no obstacle. */
  lemma WinnerToSwap(from: System, w: WorkerId, others: map<WorkerId, Worker>, leases: LeaseTable)
    returns (table: LeaseTable, wk: Worker)
    requires Reaches(from, System(StagedBoth().(leases := leases), others)) && w !in others && w !in from.workers && AllExpired(leases, 10)
    ensures Standing(from, w, others, BeforeY().(leases := table), wk)
    ensures wk.pc == Swap && wk.prep == BundleY() && wk.source.Some? && wk.global.Some?
    ensures wk.source.value.partition != wk.global.value.partition
    ensures CanSwap(BeforeY().(leases := table), BundleY(), wk.source.value, wk.global.value, 10, 90)
    ensures AllExpired(table, 100)
  {
    hide Reaches;
    hide Standing;
    hide StagedBoth;
    hide NextOf;
    StagedFacts();
    YUnobstructed(leases);
    var s, t := StagedBoth().(leases := leases), BundleY();
    EntersPromotion(from, w, others, s, OpY);
    table, wk := RunsToSwap(from, w, others, s, t, 10, 90);
  }

  lemma WinnerPromotes(from: System, others: map<WorkerId, Worker>, leases: LeaseTable) returns (table: LeaseTable)
    requires Reaches(from, System(StagedBoth().(leases := leases), others)) && 1 !in others && 1 !in from.workers && AllExpired(leases, 10)
    ensures Reaches(from, System(AfterY().(leases := table), others)) && AllExpired(table, 100)
  {
    hide Reaches;
    hide Standing;
    hide StagedBoth;
    hide NextOf;
    hide BeforeSwap;
    var held, wk := WinnerToSwap(from, 1, others, leases);
    YUnobstructed(leases);
    table := SwapsAndCloses(from, 1, others, BeforeY().(leases := held), wk, 10, 90);
  }

  /** The candidate of X once it is rebased onto Y. */
  function RebasedX(): TxnId {
    Rebase(BundleX(), NextOf(BundleY()))
  }

  /** A worker rebased X onto Y and stands before the swap. */
  function BeforeX(now: int): Ledger {
    BeforeSwap(Restaged(AfterY(), RebasedX()), RebasedX(), now)
  }

  lemma BeforeXFacts(now: int)
    ensures RebasedX().op == OpX && RebasedX().parent == NextOf(BundleY()) && RebasedX() != BundleX()
    ensures BeforeX(now).current == NextOf(BundleY()) && NextOf(RebasedX()) in BeforeX(now).generations
    ensures RebasedX() in BeforeX(now).wal && BeforeX(now).wal[RebasedX()].state == Committing
    ensures BeforeX(now).wal[RebasedX()].created == now
    ensures forall t <- BeforeX(now).wal :: t.op == OpX ==> t == RebasedX()
    ensures BundleX() !in BeforeX(now).wal
  {
    AfterYFacts();
  }

  lemma XUnobstructed(leases: LeaseTable)
    ensures Unobstructed(AfterY().(leases := leases), BundleX())
    ensures CandidateFor(AfterY().(leases := leases), BundleX()) == RebasedX()
    ensures BaseFor(AfterY().(leases := leases), BundleX()) == Restaged(AfterY(), RebasedX()).(leases := leases)
    ensures MayPromote(AfterY().(leases := leases), OpX)
    ensures Bundle(AfterY().(leases := leases), OpX) == Some(BundleX())
  {
    hide AfterY;
    AfterYFacts();
    StagedFacts();
    hide StagedBoth;
    assert NextOf(BundleY()) != NextOf(BundleX());
    assert NextOf(BundleY()) != Genesis;
    hide NextOf;
    hide MergeClaim;
    hide Reaches;
  }

  lemma LoserToSwap(from: System, w: WorkerId, others: map<WorkerId, Worker>, leases: LeaseTable, now: int)
    returns (table: LeaseTable, wk: Worker)
    requires Reaches(from, System(AfterY().(leases := leases), others)) && w !in others && w !in from.workers && AllExpired(leases, now)
    ensures Standing(from, w, others, BeforeX(now).(leases := table), wk)
    ensures wk.pc == Swap && wk.prep == RebasedX() && wk.source.Some? && wk.global.Some?
    ensures wk.source.value.partition != wk.global.value.partition
    ensures CanSwap(BeforeX(now).(leases := table), RebasedX(), wk.source.value, wk.global.value, now, 100)
    ensures AllExpired(table, now + 100)
  {
    hide Reaches;
    hide Standing;
    hide AfterY;
    hide NextOf;
    hide MergeClaim;
    hide Unobstructed;
    hide Restaged;
    hide MayPromote;
    hide Bundle;
    hide CandidateFor;
    hide BaseFor;
    hide RebasedX;
    BeforeXFacts(now);
    XUnobstructed(leases);
    var s, t := AfterY().(leases := leases), BundleX();
    EntersPromotion(from, w, others, s, OpX);
    table, wk := RunsToSwap(from, w, others, s, t, now, 100);
  }

  /** The stale worker finds the row of X, prepared on an older CURRENT, and decides to supersede it. */
  lemma StaleDecision(s: Ledger, wk: Worker)
    requires wk.pc == ReadWal && wk.prep == BundleX() && wk.active == Genesis && wk.superseded == None
    requires RebasedX() in s.wal && s.wal[RebasedX()].state == Committing
    requires forall t <- s.wal :: t.op == OpX ==> t == RebasedX()
    ensures
      DecisionAt(s, wk) == Goes(Nothing, wk.(pc := PublishGeneration, existing := Some((RebasedX(), Committing)),
                                             superseded := Some(RebasedX())))
  {
    hide RebasedX;
    hide BeforeX;
    hide NextOf;
    hide MergeClaim;
    hide ActiveClaim;
    BeforeXFacts(0);
    assert IsLatest(s.wal, OpX, RebasedX());
    assert Latest(s.wal, OpX) == Some(RebasedX());
  }

  /** It records its own candidate, with its own starting time, and stands before the abort. */
  lemma StaleRecord(from: System, others: map<WorkerId, Worker>, s: Ledger, wk: Worker) returns (last: Worker)
    requires Standing(from, 2, others, s, wk)
    requires wk.pc == ReadWal && wk.prep == BundleX() && wk.active == Genesis && wk.superseded == None
    requires RebasedX() in s.wal && s.wal[RebasedX()].state == Committing
    requires forall t <- s.wal :: t.op == OpX ==> t == RebasedX()
    ensures Standing(from, 2, others, Recorded(s, BundleX(), wk.started), last)
    ensures last.pc == AbortSuperseded && last.superseded == Some(RebasedX())
  {
    hide Standing;
    hide DecisionAt;
    hide RebasedX;
    hide NextOf;
    hide Apply;
    StaleDecision(s, wk);
    DecisionAtRuns(from, 2, others, s, wk);
    last := DecisionAt(s, wk).worker;
    RecordRuns(from, 2, others, s, last);
    last := last.(pc := AbortSuperseded);
  }

  /** Then it aborts the row. */
  lemma StaleAbort(from: System, others: map<WorkerId, Worker>, s: Ledger, wk: Worker) returns (after: Ledger, last: Worker)
    requires Standing(from, 2, others, s, wk)
    requires wk.pc == ReadWal && wk.prep == BundleX() && wk.active == Genesis && wk.superseded == None
    requires RebasedX() in s.wal && s.wal[RebasedX()].state == Committing
    requires forall t <- s.wal :: t.op == OpX ==> t == RebasedX()
    ensures Standing(from, 2, others, after, last)
    ensures IsAborted(after, RebasedX()) && after.current == s.current && after.leases == s.leases
    ensures s.generations <= after.generations
  {
    hide Standing;
    hide RebasedX;
    hide Recorded;
    last := StaleRecord(from, others, s, wk);
    var recorded := Recorded(s, BundleX(), wk.started);
    RecordedFacts(s, BundleX(), wk.started, RebasedX());
    AbortRuns(from, 2, others, recorded, last);
    after, last := Dropped(recorded, Some(RebasedX())), last.(pc := Reread);
  }

  lemma RecordedFacts(s: Ledger, t: TxnId, now: int, x: TxnId)
    requires x in s.wal
    ensures
      var after := Recorded(s, t, now);
      && x in after.wal && after.wal[x] == s.wal[x]
      && after.current == s.current && after.leases == s.leases && s.generations <= after.generations
  {
    hide Recorded;
    hide NextOf;
    RecordedFields(s, t, now);
  }

  /** The protocol does reach a state whose CURRENT is the generation of an aborted row.  Worker 2 read
      CURRENT and lost its leases; worker 1 promoted Y, rebased X onto it and stands before the
      swap; worker 2 wakes up, takes that row for superseded and aborts it; worker 1 swaps. */
  lemma AbortedRowIsCommitted() returns (sys: System, t: TxnId)
    ensures Reachable(sys) && IsAborted(sys.ledger, t) && sys.ledger.current == NextOf(t)
  {
    hide Reaches;
    hide Standing;
    hide AfterY;
    hide BeforeX;
    hide StagedBoth;
    hide NextOf;
    hide RebasedX;
    hide HeldTable;
    var from := Init(0);
    var table, stale := StaleReader(0);
    table := WinnerPromotes(from, map[2 := stale], table);
    var wk;
    table, wk := LoserToSwap(from, 1, map[2 := stale], table, 100);
    BeforeXFacts(100);
    Singleton(2, stale);
    Singleton(1, wk);
    OtherView(from, 1, wk, 2, stale, map[], BeforeX(100).(leases := table));
    var s, last := StaleAbort(from, map[1 := wk], BeforeX(100).(leases := table), stale);
    OtherView(from, 2, last, 1, wk, map[], s);
    Singleton(2, last);
    t := RebasedX();
    SwapRuns(from, 1, map[2 := last], s, wk, 100, 100);
    var held := s.(leases := HeldTable(s.leases, wk.source.value, wk.global.value, 100, 100), current := NextOf(t));
    StandsReached(from, 1, map[2 := last], held, wk.(pc := ToCommitted));
    sys := System(held, map[2 := last][1 := wk.(pc := ToCommitted)]);
  }

  lemma Singleton(w: WorkerId, wk: Worker)
    ensures map[][w := wk] == map[w := wk]
  {
  }

  // ---------------------------------------------------------------- a generation is left unreconciled

  /** Y is CURRENT and its row is committed, but nothing of it is reconciled. */
  function CommittedY(): Ledger {
    BeforeY().(current := NextOf(BundleY()), wal := MovedTo(BeforeY().wal, BundleY(), Committed))
  }

  /** Worker 3 moves CURRENT to Y, marks its row committed and stalls until its leases run out. */
  lemma StalledCommitter() returns (table: LeaseTable, wk: Worker)
    ensures Standing(Init(0), 3, map[], CommittedY().(leases := table), wk)
    ensures wk.pc == SetReconciling && wk.prep == BundleY()
    ensures AllExpired(table, 100)
  {
    hide Reaches;
    hide Standing;
    hide StagedBoth;
    hide NextOf;
    StagedFacts();
    var from := Init(0);
    assert StagedBoth().(leases := map[]) == StagedBoth();
    table, wk := WinnerToSwap(from, 3, map[], map[]);
    YUnobstructed(map[]);
    var s := BeforeY().(leases := table);
    SwapRuns(from, 3, map[], s, wk, 10, 90);
    HeldExpires(table, wk.source.value, wk.global.value, 10, 90, 100);
    table := HeldTable(table, wk.source.value, wk.global.value, 10, 90);
    Advances(from, 3, map[], s.(leases := table, current := NextOf(BundleY())), wk.(pc := ToCommitted), Committed, SetReconciling);
    wk := wk.(pc := SetReconciling);
  }

  lemma CommittedYFacts(leases: LeaseTable)
    requires AllExpired(leases, 100)
    ensures
      var s := CommittedY().(leases := leases);
      && CanRecover(s, 1, BundleY(), Readings(100, 100, 100, 100))
      && MayRecover(s, OpY) && Latest(s.wal, OpY) == Some(BundleY())
      && FinishedLedger(s, BundleY()) == AfterY().(leases := leases)
  {
    hide StagedBoth;
    hide EventsResolved;
    hide NextOf;
    hide Reaches;
    YUnobstructed(leases);
    StagedFacts();
    var s := CommittedY().(leases := leases);
    assert s.wal == map[BundleY() := WalRow(Committed, 10, StagedBoth().nextRow)];
    assert IsLatest(s.wal, OpY, BundleY());
    MovedTwice(BeforeY().wal, BundleY(), Committed, Completed);
    LeasesFreeLater(leases, 1, OpY, 100);
  }

  /** Worker 1 recovers Y completely. */
  lemma SecondRecovers(stalled: Worker, leases: LeaseTable) returns (table: LeaseTable)
    requires Reaches(Init(0), System(CommittedY().(leases := leases), map[3 := stalled])) && AllExpired(leases, 100)
    ensures Reaches(Init(0), System(AfterY().(leases := table), map[3 := stalled]))
  {
    hide Reaches;
    hide Standing;
    hide CommittedY;
    hide AfterY;
    hide FinishedLedger;
    hide CanRecover;
    hide MayRecover;
    hide Latest;
    CommittedYFacts(leases);
    var from, others, s := Init(0), map[3 := stalled], CommittedY().(leases := leases);
    EntersRecovery(from, 1, others, s, OpY);
    table := RecoveryRuns(from, 1, others, s, BundleY(), Readings(100, 100, 100, 100));
  }

  /** The stalled worker wakes up and reopens the operation of the generation that is CURRENT. */
  lemma StaleReopen(others: map<WorkerId, Worker>, s: Ledger, stalled: Worker) returns (after: Ledger)
    requires Standing(Init(0), 3, others, s, stalled)
    requires stalled.pc == SetReconciling && stalled.prep == BundleY()
    requires s.current == NextOf(BundleY()) && BundleY() in s.wal
    ensures Standing(Init(0), 3, others, after, stalled.(pc := PublishEvent))
    ensures after == s.(operations := after.operations) && !Reconciled(after, after.current)
  {
    hide Standing;
    var e := WriteOperation(OpY, OpRow(OpReconciling, None));
    Finishes(Init(0), 3, others, s, stalled, 0, e, PublishEvent);
    after := Apply(s, e);
  }

  /** The protocol does leave a generation whose operation is not recorded as succeeded.  Worker 3 moved
      CURRENT to Y and lost its leases; worker 1 recovered Y completely, prepared X and stands before
      the swap; worker 3 wakes up and marks Y as reconciling again; worker 1 swaps. */
  lemma UnreconciledIsLeft() returns (sys: System, l: Label)
    ensures Reachable(sys) && Next(sys, l).Some?
    ensures Next(sys, l).value.ledger.current != sys.ledger.current
    ensures !Reconciled(sys.ledger, sys.ledger.current)
  {
    hide Reaches;
    hide AfterY;
    hide BeforeX;
    hide CommittedY;
    hide NextOf;
    hide RebasedX;
    hide Reconciled;
    hide Act;
    hide Apply;
    hide HeldTable;
    hide Standing;
    var from := Init(0);
    var table, stalled := StalledCommitter();
    StandsReached(from, 3, map[], CommittedY().(leases := table), stalled);
    Singleton(3, stalled);
    table := SecondRecovers(stalled, table);
    var now := SomeTime(table);
    var wk;
    table, wk := LoserToSwap(from, 1, map[3 := stalled], table, now);
    BeforeXFacts(now);
    KeepsYRow(now);
    OtherView(from, 1, wk, 3, stalled, map[], BeforeX(now).(leases := table));
    Singleton(1, wk);
    var s := StaleReopen(map[1 := wk], BeforeX(now).(leases := table), stalled);
    var reopened := stalled.(pc := PublishEvent);
    StandsReached(from, 3, map[1 := wk], s, reopened);
    assert map[1 := wk][3 := reopened] == map[3 := reopened][1 := wk];
    sys, l := System(s, map[3 := reopened][1 := wk]), Do(1, now, 100);
    SwapMoves(s, wk, now);
    SwapApplies(s, wk.prep);
  }

  lemma SwapApplies(s: Ledger, t: TxnId)
    ensures Apply(s, MoveCurrent(t)).current == NextOf(t)
  {
  }

  lemma KeepsYRow(now: int)
    ensures BundleY() in BeforeX(now).wal
  {
    AfterYFacts();
  }

  lemma SwapMoves(s: Ledger, wk: Worker, now: int)
    requires wk.pc == Swap && wk.source.Some? && wk.global.Some?
    requires CanSwap(s, wk.prep, wk.source.value, wk.global.value, now, 100)
    ensures Act(s, 1, wk, now, 100) == Goes(MoveCurrent(wk.prep), wk.(pc := ToCommitted))
    ensures NextOf(wk.prep) != s.current
  {
    ChildNotInChain(wk.prep);
  }
}
