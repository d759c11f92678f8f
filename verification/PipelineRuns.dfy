/** One worker running alone: the segments of `_promote` and `_recover_committed` between two
    decisions, each proved to be a run of the state machine while all other workers stand still. */
module PipelineRuns {
  import opened Options
  import opened LedgerTypes
  import opened Leases
  import opened Promotion
  import opened PromotionInvariant
  import opened PromotionSteps
  import opened ControlPlane

  // ---------------------------------------------------------------- following the state machine

  /** Every step of the run is a step of worker `w`. */
  ghost predicate OnlyBy(w: WorkerId, ls: seq<Label>) {
    forall l <- ls :: (l.Do? || l.Renewal? || l.Raise? || l.Kill?) && l.w == w
  }

  /** The machine gets from one state to the other; if `w` is there from the start, by its steps alone. */
  ghost predicate Ran(from: System, w: WorkerId, t: System) {
    exists ls :: Exec(from, ls) == Some(t) && (w in from.workers ==> OnlyBy(w, ls))
  }

  /** Starting from `from`, the state machine gets to a state in which `w` stands as `wk`. */
  ghost predicate Standing(from: System, w: WorkerId, others: map<WorkerId, Worker>, s: Ledger, wk: Worker) {
    Ran(from, w, System(s, others[w := wk]))
  }

  lemma RanReaches(from: System, w: WorkerId, t: System)
    ensures Ran(from, w, t) ==> Reaches(from, t)
    ensures w !in from.workers && Reaches(from, t) ==> Ran(from, w, t)
  {
  }

  lemma RanStep(from: System, w: WorkerId, t: System, l: Label)
    requires Ran(from, w, t) && Next(t, l).Some? && OnlyBy(w, [l])
    ensures Ran(from, w, Next(t, l).value)
  {
    hide Next;
    var ls :| Exec(from, ls) == Some(t) && (w in from.workers ==> OnlyBy(w, ls));
    var more := ls + [l];
    assert more[..|more| - 1] == ls;
    assert l in [l];
    assert Exec(from, more) == Next(t, l);
  }

  lemma Does(from: System, w: WorkerId, others: map<WorkerId, Worker>, s: Ledger, wk: Worker, now: int, ttl: int)
    requires Standing(from, w, others, s, wk) && Act(s, w, wk, now, ttl).Goes?
    ensures
      var o := Act(s, w, wk, now, ttl);
      Standing(from, w, others, Apply(s, o.effect), o.worker)
  {
    hide Act;
    hide Apply;
    hide Ran;
    var sys := System(s, others[w := wk]);
    var o := Act(s, w, wk, now, ttl);
    assert others[w := wk][w := o.worker] == others[w := o.worker];
    RanStep(from, w, sys, Do(w, now, ttl));
  }

  lemma Leaves(from: System, w: WorkerId, others: map<WorkerId, Worker>, s: Ledger, wk: Worker, now: int, ttl: int)
    requires Standing(from, w, others, s, wk) && Act(s, w, wk, now, ttl).Returns? && w !in others
    ensures Reaches(from, System(Apply(s, Act(s, w, wk, now, ttl).effect), others))
  {
    hide Act;
    hide Apply;
    hide Ran;
    hide Reaches;
    var sys := System(s, others[w := wk]);
    assert others[w := wk] - {w} == others;
    RanReaches(from, w, sys);
    ReachesStep(from, sys, Do(w, now, ttl));
  }

  lemma Killed(from: System, w: WorkerId, others: map<WorkerId, Worker>, s: Ledger, wk: Worker)
    requires Standing(from, w, others, s, wk) && w !in others
    ensures Reaches(from, System(s, others))
  {
    hide Ran;
    hide Reaches;
    assert others[w := wk] - {w} == others;
    RanReaches(from, w, System(s, others[w := wk]));
    ReachesStep(from, System(s, others[w := wk]), Kill(w));
  }

  lemma Raised(from: System, w: WorkerId, others: map<WorkerId, Worker>, s: Ledger, wk: Worker)
    requires Standing(from, w, others, s, wk)
    ensures Standing(from, w, others, s, wk.(pc := ReleaseGlobal))
  {
    hide Ran;
    var sys := System(s, others[w := wk]);
    assert others[w := wk][w := wk.(pc := ReleaseGlobal)] == others[w := wk.(pc := ReleaseGlobal)];
    RanStep(from, w, sys, Raise(w));
  }

  lemma Beats(from: System, w: WorkerId, others: map<WorkerId, Worker>, s: Ledger, wk: Worker, now: int, ttl: int)
    requires Standing(from, w, others, s, wk) && Holds(s, wk, now) && Renewed(s, wk, now, ttl).Some?
    ensures Standing(from, w, others, s.(leases := Renewed(s, wk, now, ttl).value), wk)
  {
    hide Ran;
    hide Renewed;
    hide Holds;
    var sys := System(s, others[w := wk]);
    RanStep(from, w, sys, Renewal(w, now, ttl));
  }

  /** Where a worker that entered later stands, seen from another one. */
  lemma StandsReached(from: System, w: WorkerId, others: map<WorkerId, Worker>, s: Ledger, wk: Worker)
    ensures Standing(from, w, others, s, wk) ==> Reaches(from, System(s, others[w := wk]))
    ensures w !in from.workers && Reaches(from, System(s, others[w := wk])) ==> Standing(from, w, others, s, wk)
  {
  }

  /** The same state seen from another worker that entered later. */
  lemma OtherView(from: System, a: WorkerId, wa: Worker, b: WorkerId, wb: Worker, rest: map<WorkerId, Worker>, s: Ledger)
    requires Standing(from, a, rest[b := wb], s, wa) && a != b && b !in from.workers
    ensures Standing(from, b, rest[a := wa], s, wb)
  {
    assert rest[b := wb][a := wa] == rest[a := wa][b := wb];
    StandsReached(from, a, rest[b := wb], s, wa);
    StandsReached(from, b, rest[a := wa], s, wb);
  }

  /** The loop of `_advance_promotion_state` is a run of the machine. */
  lemma {:induction false} Advances(from: System, w: WorkerId, others: map<WorkerId, Worker>, s: Ledger, wk: Worker,
                                    target: PromotionState, next: Pc)
    requires Standing(from, w, others, s, wk) && Advancing(wk, target, next)
    requires wk.prep in s.wal && s.wal[wk.prep].state != Aborted
    ensures
      var row := s.wal[wk.prep];
      Standing(from, w, others,
               s.(wal := s.wal[wk.prep := row.(state := Furthest(row.state, target))]),
               wk.(pc := next))
    decreases Order(target) - Order(s.wal[wk.prep].state)
  {
    hide Standing;
    var row := s.wal[wk.prep];
    assert Act(s, w, wk, 0, 0) == Advance(s, wk, target, next);
    Does(from, w, others, s, wk, 0, 0);
    if Order(row.state) < Order(target) {
      var on := Apply(s, UpdateRow(wk.prep, Successor(row.state)));
      Advances(from, w, others, on, wk, target, next);
      assert on.wal[wk.prep := row.(state := target)] == s.wal[wk.prep := row.(state := target)];
    } else {
      assert s.wal[wk.prep := row] == s.wal;
    }
  }

  /** One action of the finishing phase. */
  lemma Finishes(from: System, w: WorkerId, others: map<WorkerId, Worker>, s: Ledger, wk: Worker, now: int, e: Effect, next: Pc)
    requires Standing(from, w, others, s, wk)
    requires PhaseOf(wk.pc) == Finishing && FinishAction(s, wk, now) == Goes(e, wk.(pc := next))
    ensures Standing(from, w, others, Apply(s, e), wk.(pc := next))
  {
    hide Standing;
    hide FinishAction;
    hide Apply;
    assert Act(s, w, wk, now, 0) == FinishAction(s, wk, now);
    Does(from, w, others, s, wk, now, 0);
  }

  function Published(events: map<TxnId, Event>, t: TxnId): map<TxnId, Event> {
    if t in events then events else events[t := EventOf(t)]
  }

  function Marked(outbox: map<TxnId, bool>, t: TxnId): map<TxnId, bool> {
    if t in outbox then outbox[t := true] else outbox
  }

  lemma MovedTwice(wal: Wal, t: TxnId, a: PromotionState, b: PromotionState)
    requires t in wal
    ensures t in MovedTo(wal, t, a) && MovedTo(wal, t, a)[t].state == a
    ensures MovedTo(MovedTo(wal, t, a), t, b) == MovedTo(wal, t, b)
  {
  }

  lemma MovedFurther(wal: Wal, t: TxnId, a: PromotionState, b: PromotionState)
    requires t in wal && wal[t].state != Aborted && Order(a) <= Order(b) < 5
    ensures
      var moved := MovedTo(wal, t, Furthest(wal[t].state, a));
      && t in moved && moved[t].state == Furthest(wal[t].state, a)
      && MovedTo(moved, t, Furthest(moved[t].state, b)) == MovedTo(wal, t, Furthest(wal[t].state, b))
  {
    MovedTwice(wal, t, Furthest(wal[t].state, a), Furthest(wal[t].state, b));
  }

  lemma PublishApplies(s: Ledger, t: TxnId)
    ensures Apply(s, AddEvent(t)) == s.(events := Published(s.events, t))
    ensures Apply(s, MarkOutbox(t)) == s.(outbox := Marked(s.outbox, t))
  {
  }

  /** From the committed pointer to the materialization. */
  lemma PublishRuns(from: System, w: WorkerId, others: map<WorkerId, Worker>, s: Ledger, wk: Worker)
    requires Standing(from, w, others, s, wk) && wk.pc == PublishEvent
    requires wk.prep in s.wal && PastCommit(s.wal[wk.prep].state)
    ensures
      var t := wk.prep;
      Standing(from, w, others,
               s.(events := Published(s.events, t), outbox := Marked(s.outbox, t),
                  wal := MovedTo(s.wal, t, Furthest(s.wal[t].state, Reconciling))),
               wk.(pc := Materialize))
  {
    hide Standing;
    hide Apply;
    hide Published;
    hide Marked;
    hide EventsResolved;
    hide Holds;
    var t := wk.prep;
    Finishes(from, w, others, s, wk, 0, AddEvent(t), MarkAppended);
    var s1 := s.(events := Published(s.events, t));
    PublishApplies(s, t);
    Finishes(from, w, others, s1, wk.(pc := MarkAppended), 0, MarkOutbox(t), ToReconciling);
    var s2 := s1.(outbox := Marked(s.outbox, t));
    PublishApplies(s1, t);
    Advances(from, w, others, s2, wk.(pc := ToReconciling), Reconciling, Materialize);
  }

  lemma CloseRuns(from: System, w: WorkerId, others: map<WorkerId, Worker>, s: Ledger, wk: Worker)
    requires Standing(from, w, others, s, wk) && wk.pc == SetSucceeded
    requires wk.prep in s.wal && s.wal[wk.prep].state != Aborted
    ensures
      var t := wk.prep;
      Standing(from, w, others,
               s.(operations := s.operations[t.op := OpRow(Succeeded, Some(NextOf(t)))],
                  wal := MovedTo(s.wal, t, Completed),
                  manifests := s.manifests[t.op := Manifest(RunSucceeded, t)]),
               wk.(pc := ReleaseGlobal))
  {
    hide Standing;
    hide NextOf;
    var t := wk.prep;
    var row := OpRow(Succeeded, Some(NextOf(t)));
    Finishes(from, w, others, s, wk, 0, WriteOperation(t.op, row), ToCompleted);
    var s1 := s.(operations := s.operations[t.op := row]);
    assert Apply(s, WriteOperation(t.op, row)) == s1;
    Advances(from, w, others, s1, wk.(pc := ToCompleted), Completed, SetManifest);
    var s2 := s1.(wal := MovedTo(s.wal, t, Completed));
    Finishes(from, w, others, s2, wk.(pc := SetManifest), 0, WriteManifest(t.op, Manifest(RunSucceeded, t)), ReleaseGlobal);
    assert Apply(s2, WriteManifest(t.op, Manifest(RunSucceeded, t)))
        == s2.(manifests := s.manifests[t.op := Manifest(RunSucceeded, t)]);
  }

  // ---------------------------------------------------------------- what one call leaves behind

  /** Clock readings of one call: taking the leases, the fenced commit or guard, and the
      materialization. */
  datatype Readings = Readings(start: int, guard: int, materialize: int, ttl: int)

  predicate BothValid(t: LeaseTable, source: LeaseToken, global: LeaseToken, now: int) {
    Valid(t, source, now) && Valid(t, global, now)
  }

  /** The lease table after a writer transaction that extends both leases if it may. */
  function HeldTable(t: LeaseTable, source: LeaseToken, global: LeaseToken, now: int, ttl: int): LeaseTable {
    if ttl > 0 && BothValid(t, source, global, now) && source.partition != global.partition then
      Extend(Extend(t, source.partition, now + ttl), global.partition, now + ttl)
    else t
  }

  /** The ledger when materialization is attempted. */
  function HalfFinished(s: Ledger, t: TxnId, source: LeaseToken, global: LeaseToken, now: int, ttl: int): Ledger
    requires t in s.wal && s.wal[t].state != Aborted
  {
    s.(wal := MovedTo(s.wal, t, Furthest(s.wal[t].state, Reconciling)),
       operations := s.operations[t.op := OpRow(OpReconciling, None)],
       events := Published(s.events, t),
       outbox := Marked(s.outbox, t),
       leases := HeldTable(s.leases, source, global, now, ttl))
  }

  predicate CanMaterialize(s: Ledger, t: TxnId, source: LeaseToken, global: LeaseToken, now: int, ttl: int) {
    && ttl > 0 && BothValid(s.leases, source, global, now)
    && s.current == NextOf(t) && EventsResolved(Published(s.events, t), s.current)
  }

  predicate CanFinish(s: Ledger, t: TxnId, source: LeaseToken, global: LeaseToken, now: int, ttl: int) {
    t in s.wal && s.wal[t].state != Aborted && CanMaterialize(s, t, source, global, now, ttl)
  }

  /** `s` with the promotion of `t` reconciled. */
  function FinishedLedger(s: Ledger, t: TxnId): Ledger
    requires t in s.wal
  {
    s.(wal := MovedTo(s.wal, t, Completed),
       outbox := Marked(s.outbox, t),
       events := Published(s.events, t),
       operations := s.operations[t.op := OpRow(Succeeded, Some(NextOf(t)))],
       manifests := s.manifests[t.op := Manifest(RunSucceeded, t)],
       marker := Some(NextOf(t)))
  }

  lemma FinishedLeases(s: Ledger, t: TxnId, table: LeaseTable)
    requires t in s.wal
    ensures FinishedLedger(s.(leases := table), t) == FinishedLedger(s, t).(leases := table)
  {
  }

  /** What the code after the pointer swap leaves behind, whether or not it succeeds. */
  function AfterFinish(s: Ledger, t: TxnId, source: LeaseToken, global: LeaseToken, now: int, ttl: int): Ledger {
    if t !in s.wal || s.wal[t].state == Aborted then s
    else if !CanMaterialize(s, t, source, global, now, ttl) then HalfFinished(s, t, source, global, now, ttl)
    else FinishedLedger(s, t).(leases := HeldTable(s.leases, source, global, now, ttl))
  }

  lemma CanMaterializeCurrent(s: Ledger, t: TxnId, source: LeaseToken, global: LeaseToken, now: int, ttl: int)
    requires CanMaterialize(s, t, source, global, now, ttl)
    ensures s.current == NextOf(t)
  {
  }

  lemma HoldPair(t: LeaseTable, a: LeaseToken, b: LeaseToken, now: int, ttl: int)
    requires a.partition != b.partition
    ensures Hold(t, [a, b], now, Some(ttl)).Some? <==> BothValid(t, a, b, now)
    ensures ttl > 0 && BothValid(t, a, b, now) ==>
      Hold(t, [a, b], now, Some(ttl)).value.0 == HeldTable(t, a, b, now, ttl)
  {
    var ls := [a, b];
    assert ls[..1] == [a] && [a][..0] == [];
    assert Hold(t, [], now, Some(ttl)) == Some((t, []));
    assert Hold(t, [a], now, Some(ttl)).Some? <==> Valid(t, a, now);
  }

  /** The writer transaction that checks and extends both leases is a heartbeat of the machine. */
  lemma HoldRuns(from: System, w: WorkerId, others: map<WorkerId, Worker>, s: Ledger, wk: Worker, now: int, ttl: int)
    requires Standing(from, w, others, s, wk) && wk.source.Some? && wk.global.Some?
    requires wk.source.value.partition != wk.global.value.partition
    ensures
      var table := HeldTable(s.leases, wk.source.value, wk.global.value, now, ttl);
      && Standing(from, w, others, s.(leases := table), wk)
      && (ttl > 0 ==> (Holds(s.(leases := table), wk, now) <==> Holds(s, wk, now)))
  {
    hide Standing;
    HoldPair(s.leases, wk.source.value, wk.global.value, now, ttl);
    if ttl > 0 && Holds(s, wk, now) {
      Beats(from, w, others, s, wk, now, ttl);
    } else {
      assert s.(leases := s.leases) == s;
    }
  }

  lemma MaterializeRuns(from: System, w: WorkerId, others: map<WorkerId, Worker>, s: Ledger, wk: Worker, now: int, ttl: int)
    requires Standing(from, w, others, s, wk) && wk.pc == Materialize && wk.source.Some? && wk.global.Some?
    requires wk.source.value.partition != wk.global.value.partition
    ensures
      var table := HeldTable(s.leases, wk.source.value, wk.global.value, now, ttl);
      && Standing(from, w, others, s.(leases := table), wk.(pc := ReleaseGlobal))
      && (ttl > 0 && Holds(s, wk, now) && s.current == NextOf(wk.prep) && EventsResolved(s.events, s.current) ==>
            Standing(from, w, others, s.(leases := table, marker := Some(s.current)), wk.(pc := SetSucceeded)))
  {
    hide Standing;
    hide NextOf;
    hide EventsResolved;
    hide Holds;
    hide HeldTable;
    var held := s.(leases := HeldTable(s.leases, wk.source.value, wk.global.value, now, ttl));
    HoldRuns(from, w, others, s, wk, now, ttl);
    Raised(from, w, others, held, wk);
    if ttl > 0 && Holds(s, wk, now) && s.current == NextOf(wk.prep) && EventsResolved(s.events, s.current) {
      Finishes(from, w, others, held, wk, now, SetMarker(s.current), SetSucceeded);
    }
  }

  /** From the pointer swap to the materialization. */
  lemma CommittedRuns(from: System, w: WorkerId, others: map<WorkerId, Worker>, s: Ledger, wk: Worker)
    requires Standing(from, w, others, s, wk) && wk.pc == ToCommitted
    requires wk.prep in s.wal && s.wal[wk.prep].state != Aborted
    ensures
      var t := wk.prep;
      Standing(from, w, others,
               s.(wal := MovedTo(s.wal, t, Furthest(s.wal[t].state, Reconciling)),
                  operations := s.operations[t.op := OpRow(OpReconciling, None)],
                  events := Published(s.events, t),
                  outbox := Marked(s.outbox, t)),
               wk.(pc := Materialize))
  {
    hide Standing;
    hide Published;
    hide Marked;
    var t := wk.prep;
    Advances(from, w, others, s, wk, Committed, SetReconciling);
    var s1 := s.(wal := MovedTo(s.wal, t, Furthest(s.wal[t].state, Committed)));
    Finishes(from, w, others, s1, wk.(pc := SetReconciling), 0, WriteOperation(t.op, OpRow(OpReconciling, None)), PublishEvent);
    var s2 := s1.(operations := s.operations[t.op := OpRow(OpReconciling, None)]);
    PublishRuns(from, w, others, s2, wk.(pc := PublishEvent));
    MovedFurther(s.wal, t, Committed, Reconciling);
  }

  /** The code after the pointer swap is a run of the machine. */
  lemma FinishRuns(from: System, w: WorkerId, others: map<WorkerId, Worker>, s: Ledger, wk: Worker, now: int, ttl: int)
    requires Standing(from, w, others, s, wk) && wk.pc == ToCommitted && wk.source.Some? && wk.global.Some?
    requires wk.source.value.partition != wk.global.value.partition
    ensures Standing(from, w, others, AfterFinish(s, wk.prep, wk.source.value, wk.global.value, now, ttl), wk.(pc := ReleaseGlobal))
  {
    hide Standing;
    hide NextOf;
    hide EventsResolved;
    hide Published;
    hide Marked;
    hide HeldTable;
    var t := wk.prep;
    if t !in s.wal || s.wal[t].state == Aborted {
      Raised(from, w, others, s, wk);
    } else {
      CommittedRuns(from, w, others, s, wk);
      var s3 := s.(wal := MovedTo(s.wal, t, Furthest(s.wal[t].state, Reconciling)),
                   operations := s.operations[t.op := OpRow(OpReconciling, None)],
                   events := Published(s.events, t), outbox := Marked(s.outbox, t));
      MaterializeRuns(from, w, others, s3, wk.(pc := Materialize), now, ttl);
      if CanMaterialize(s, t, wk.source.value, wk.global.value, now, ttl) {
        var s4 := s3.(leases := HeldTable(s.leases, wk.source.value, wk.global.value, now, ttl), marker := Some(s.current));
        CloseRuns(from, w, others, s4, wk.(pc := SetSucceeded));
        MovedTwice(s.wal, t, Furthest(s.wal[t].state, Reconciling), Completed);
        assert s3.operations[t.op := OpRow(Succeeded, Some(NextOf(t)))] == s.operations[t.op := OpRow(Succeeded, Some(NextOf(t)))];
      }
    }
  }

  // ---------------------------------------------------------------- taking and releasing leases

  /** The lease table and the worker after both leases were asked for. */
  function Leased(s: Ledger, w: WorkerId, t: TxnId, recovering: bool, now: int, ttl: int): (LeaseTable, Worker) {
    var start := Fresh(t, recovering);
    var a := Acquire(s.leases, s.epoch, SourcePartition(t.op.source), w, ttl, now);
    if a.None? then (s.leases, start.(pc := ReleaseGlobal))
    else
      var b := Acquire(a.value.0, s.epoch, LedgerCurrent, w, ttl, now);
      if b.None? then (a.value.0, start.(pc := ReleaseGlobal, source := Some(a.value.1), started := now))
      else
        (b.value.0, start.(pc := if recovering then RecoverGuard else ReadActive,
                           source := Some(a.value.1), global := Some(b.value.1), started := now))
  }

  /** Both leases can be had at this time. */
  predicate LeasesFree(t: LeaseTable, w: WorkerId, op: Operation, now: int) {
    && IssuedToken(t, SourcePartition(op.source), w, now).Some?
    && IssuedToken(t, LedgerCurrent, w, now).Some?
  }

  /** Every lease of the table has run out at this time. */
  ghost predicate AllExpired(t: LeaseTable, now: int) {
    forall p <- t :: t[p].expires <= now
  }

  /** A worker takes both leases of a table whose leases have all run out. */
  lemma LeasesFreeLater(t: LeaseTable, w: WorkerId, op: Operation, now: int)
    requires AllExpired(t, now)
    ensures LeasesFree(t, w, op, now)
  {
  }

  /** Some time is later than every expiry of a table. */
  lemma SomeTime(t: LeaseTable) returns (now: int)
    ensures AllExpired(t, now)
    decreases |t|
  {
    now := 0;
    if p :| p in t {
      var rest := map q | q in t && q != p :: t[q];
      assert rest.Keys == t.Keys - {p};
      now := SomeTime(rest);
      if now < t[p].expires {
        now := t[p].expires;
      }
      forall q <- t
        ensures t[q].expires <= now
      {
        assert q == p || q in rest;
      }
    }
  }

  lemma LeasedHolds(s: Ledger, w: WorkerId, t: TxnId, recovering: bool, now: int, ttl: int)
    ensures
      var (table, wk) := Leased(s, w, t, recovering, now, ttl);
      && (wk.global.Some? <==> ttl > 0 && LeasesFree(s.leases, w, t.op, now))
      && (wk.global.Some? ==>
            && wk.source.Some?
            && wk.source.value.partition == SourcePartition(t.op.source) && wk.global.value.partition == LedgerCurrent
            && wk.pc == (if recovering then RecoverGuard else ReadActive)
            && forall at :: at < now + ttl <==> BothValid(table, wk.source.value, wk.global.value, at))
      && wk == Fresh(t, recovering).(pc := wk.pc, source := wk.source, global := wk.global, started := wk.started)
      && (wk.global.Some? ==> wk.started == now)
      && (wk.global.None? ==> wk.pc == ReleaseGlobal)
  {
  }

  lemma LeaseRuns(from: System, w: WorkerId, others: map<WorkerId, Worker>, s: Ledger, t: TxnId, recovering: bool, now: int, ttl: int)
    requires Standing(from, w, others, s, Fresh(t, recovering))
    ensures
      var (table, wk) := Leased(s, w, t, recovering, now, ttl);
      Standing(from, w, others, s.(leases := table), wk)
  {
    hide Standing;
    hide Acquire;
    var wk := Fresh(t, recovering);
    AcquireRuns(from, w, others, s, wk, now, ttl);
    var a := Acquire(s.leases, s.epoch, SourcePartition(t.op.source), w, ttl, now);
    if a.Some? {
      AcquireRuns(from, w, others, s.(leases := a.value.0), wk.(pc := AcquireGlobal, source := Some(a.value.1), started := now), now, ttl);
    } else {
      assert s.(leases := s.leases) == s;
    }
  }

  lemma AcquireRuns(from: System, w: WorkerId, others: map<WorkerId, Worker>, s: Ledger, wk: Worker, now: int, ttl: int)
    requires Standing(from, w, others, s, wk) && PhaseOf(wk.pc) == Acquiring
    ensures
      var o := AcquireAction(s, w, wk, now, ttl);
      && (o.Raises? ==> Standing(from, w, others, s, wk.(pc := ReleaseGlobal)))
      && (o.Goes? ==> o.effect.SetLeases? && Standing(from, w, others, s.(leases := o.effect.table), o.worker))
  {
    hide Standing;
    hide Acquire;
    Raised(from, w, others, s, wk);
    assert Act(s, w, wk, now, ttl) == AcquireAction(s, w, wk, now, ttl);
    if AcquireAction(s, w, wk, now, ttl).Goes? {
      Does(from, w, others, s, wk, now, ttl);
    }
  }

  /** Renewals moved the expiry of the two rows and nothing else. */
  ghost predicate OnlyExtended(a: LeaseTable, b: LeaseTable, source: LeaseToken, global: LeaseToken) {
    && a.Keys == b.Keys
    && forall p <- a ::
         if p == source.partition || p == global.partition then a[p].(expires := 0) == b[p].(expires := 0) else a[p] == b[p]
  }

  lemma HeldExtends(t: LeaseTable, source: LeaseToken, global: LeaseToken, now: int, ttl: int)
    ensures OnlyExtended(t, HeldTable(t, source, global, now, ttl), source, global)
  {
  }

  lemma ExtendedFurther(a: LeaseTable, b: LeaseTable, c: LeaseTable, source: LeaseToken, global: LeaseToken)
    requires OnlyExtended(a, b, source, global) && OnlyExtended(b, c, source, global)
    ensures OnlyExtended(a, c, source, global)
  {
  }

  /** The lease table after a call: whatever it took it gave back, with the tokens it was issued. */
  function Freed(t: LeaseTable, epoch: Epoch, w: WorkerId, op: Operation, now: int, ttl: int): LeaseTable {
    var p, q := SourcePartition(op.source), LedgerCurrent;
    var a, b := IssuedToken(t, p, w, now), IssuedToken(t, q, w, now);
    if ttl <= 0 || a.None? then t
    else if b.None? then t[p := LeaseRow(epoch, None, a.value, 0)]
    else t[p := LeaseRow(epoch, None, a.value, 0)][q := LeaseRow(epoch, None, b.value, 0)]
  }

  lemma ReleasedIsFreed(s: Ledger, w: WorkerId, t: TxnId, recovering: bool, now: int, ttl: int, last: LeaseTable)
    requires
      var (table, wk) := Leased(s, w, t, recovering, now, ttl);
      if wk.global.Some? && wk.source.Some? then OnlyExtended(table, last, wk.source.value, wk.global.value) else last == table
    ensures
      var wk := Leased(s, w, t, recovering, now, ttl).1;
      Released(last, wk.source, wk.global) == Freed(s.leases, s.epoch, w, t.op, now, ttl)
  {
    hide Leased;
    hide IssuedToken;
    hide OnlyExtended;
    hide Release;
    var (table, wk) := Leased(s, w, t, recovering, now, ttl);
    LeasedRows(s, w, t, recovering, now, ttl);
    if wk.global.Some? {
      BothReleased(table, last, wk.source.value, wk.global.value);
    } else if wk.source.Some? {
      OneReleased(table, wk.source.value);
    }
  }

  /** What taking both leases writes. */
  lemma LeasedRows(s: Ledger, w: WorkerId, t: TxnId, recovering: bool, now: int, ttl: int)
    ensures
      var (table, wk) := Leased(s, w, t, recovering, now, ttl);
      var p, q := SourcePartition(t.op.source), LedgerCurrent;
      var a, b := IssuedToken(s.leases, p, w, now), IssuedToken(s.leases, q, w, now);
      if ttl <= 0 || a.None? then table == s.leases && wk.source.None? && wk.global.None?
      else
        var taken := s.leases[p := LeaseRow(s.epoch, Some(w), a.value, now + ttl)];
        && wk.source == Some(LeaseToken(p, s.epoch, w, a.value, now + ttl))
        && (if b.None? then table == taken && wk.global.None?
            else
              && table == taken[q := LeaseRow(s.epoch, Some(w), b.value, now + ttl)]
              && wk.global == Some(LeaseToken(q, s.epoch, w, b.value, now + ttl)))
  {
  }

  /** Leases that only moved their expiry are given back with their tokens. */
  lemma BothReleased(table: LeaseTable, last: LeaseTable, source: LeaseToken, global: LeaseToken)
    requires OnlyExtended(table, last, source, global) && source.partition != global.partition
    requires Matches(table, source) && Matches(table, global)
    ensures Release(Release(last, global), source) ==
      table[source.partition := LeaseRow(source.epoch, None, source.token, 0)]
           [global.partition := LeaseRow(global.epoch, None, global.token, 0)]
  {
  }

  lemma OneReleased(table: LeaseTable, source: LeaseToken)
    requires Matches(table, source)
    ensures Release(table, source) == table[source.partition := LeaseRow(source.epoch, None, source.token, 0)]
  {
  }

  function Released(t: LeaseTable, source: Option<LeaseToken>, global: Option<LeaseToken>): LeaseTable {
    var a := if global.Some? then Release(t, global.value) else t;
    if source.Some? then Release(a, source.value) else a
  }

  lemma ReleaseRuns(from: System, w: WorkerId, others: map<WorkerId, Worker>, s: Ledger, wk: Worker)
    requires Standing(from, w, others, s, wk) && wk.pc == ReleaseGlobal && w !in others
    ensures Reaches(from, System(s.(leases := Released(s.leases, wk.source, wk.global)), others))
  {
    hide Standing;
    hide Reaches;
    hide Release;
    assert Act(s, w, wk, 0, 0) == ReleaseAction(s, wk);
    Does(from, w, others, s, wk, 0, 0);
    var s1 := s.(leases := if wk.global.Some? then Release(s.leases, wk.global.value) else s.leases);
    var last := wk.(pc := ReleaseSource);
    assert Act(s1, w, last, 0, 0) == ReleaseAction(s1, last);
    Leaves(from, w, others, s1, last, 0, 0);
  }

  // ---------------------------------------------------------------- recovery

  predicate CanGuard(s: Ledger, t: TxnId, latest: Option<TxnId>, source: LeaseToken, global: LeaseToken, now: int, ttl: int) {
    && ttl > 0 && BothValid(s.leases, source, global, now)
    && latest == Some(t) && s.current == NextOf(t) && t in s.outbox
  }

  lemma GuardPasses(s: Ledger, t: TxnId, latest: Option<TxnId>, source: LeaseToken, global: LeaseToken, now: int, ttl: int)
    ensures CanGuard(s, t, latest, source, global, now, ttl) <==>
      ttl > 0 && BothValid(s.leases, source, global, now) && latest == Some(t) && s.current == NextOf(t) && t in s.outbox
  {
  }

  /** After the guard extended the leases, the rest succeeds within the new time to live. */
  lemma FinishAfterGuard(s: Ledger, t: TxnId, latest: Option<TxnId>, source: LeaseToken, global: LeaseToken, clock: Readings)
    requires CanGuard(s, t, latest, source, global, clock.guard, clock.ttl) && source.partition != global.partition
    requires latest == Latest(s.wal, t.op)
    ensures t in s.wal
    ensures
      var held := s.(leases := HeldTable(s.leases, source, global, clock.guard, clock.ttl));
      var after := AfterFinish(held, t, source, global, clock.materialize, clock.ttl);
      && (CanFinish(held, t, source, global, clock.materialize, clock.ttl) <==>
            clock.materialize < clock.guard + clock.ttl && EventsResolved(Published(s.events, t), s.current))
      && (CanFinish(held, t, source, global, clock.materialize, clock.ttl) ==>
            after == FinishedLedger(s, t).(leases := after.leases))
  {
    hide EventsResolved;
    hide NextOf;
  }

  /** A recovery of `t` at these clock readings can go through. */
  ghost predicate CanRecover(s: Ledger, w: WorkerId, t: TxnId, clock: Readings) {
    && clock.ttl > 0 && LeasesFree(s.leases, w, t.op, clock.start)
    && clock.guard < clock.start + clock.ttl && clock.materialize < clock.guard + clock.ttl
    && Latest(s.wal, t.op) == Some(t) && s.current == NextOf(t) && t in s.outbox
    && EventsResolved(Published(s.events, t), s.current)
  }

  lemma GuardAfterLease(s: Ledger, w: WorkerId, t: TxnId, clock: Readings)
    ensures
      var (table, wk) := Leased(s, w, t, true, clock.start, clock.ttl);
      CanRecover(s, w, t, clock) <==>
        && wk.global.Some? && wk.source.Some?
        && CanGuard(s.(leases := table), t, Latest(s.wal, t.op), wk.source.value, wk.global.value, clock.guard, clock.ttl)
        && clock.materialize < clock.guard + clock.ttl
        && EventsResolved(Published(s.events, t), s.current)
  {
    hide EventsResolved;
    hide NextOf;
    hide Leased;
    hide LeasesFree;
    LeasedHolds(s, w, t, true, clock.start, clock.ttl);
  }

  lemma GuardRuns(from: System, w: WorkerId, others: map<WorkerId, Worker>, s: Ledger, wk: Worker, now: int, ttl: int)
    requires Standing(from, w, others, s, wk) && wk.pc == RecoverGuard && wk.source.Some? && wk.global.Some?
    requires wk.source.value.partition != wk.global.value.partition
    ensures
      var held := s.(leases := HeldTable(s.leases, wk.source.value, wk.global.value, now, ttl));
      && Standing(from, w, others, held, wk.(pc := ReleaseGlobal))
      && (CanGuard(s, wk.prep, Latest(s.wal, wk.prep.op), wk.source.value, wk.global.value, now, ttl) ==>
            Standing(from, w, others, held, wk.(pc := ToCommitted)))
  {
    hide Standing;
    hide NextOf;
    hide Latest;
    var held := s.(leases := HeldTable(s.leases, wk.source.value, wk.global.value, now, ttl));
    HoldRuns(from, w, others, s, wk, now, ttl);
    Raised(from, w, others, held, wk);
    if CanGuard(s, wk.prep, Latest(s.wal, wk.prep.op), wk.source.value, wk.global.value, now, ttl) {
      hide HeldTable;
      assert Act(held, w, wk, now, ttl) == CommitAction(held, wk, now);
      Does(from, w, others, held, wk, now, ttl);
    }
  }

  /** A recovery that can go through is a run of the machine that closes the promotion. */
  lemma RecoveryRuns(from: System, w: WorkerId, others: map<WorkerId, Worker>, s: Ledger, t: TxnId, clock: Readings)
    returns (table: LeaseTable)
    requires Standing(from, w, others, s, Fresh(t, true)) && w !in others && CanRecover(s, w, t, clock)
    ensures t in s.wal && Reaches(from, System(FinishedLedger(s, t).(leases := table), others))
  {
    hide Reaches;
    hide Standing;
    hide NextOf;
    hide Latest;
    hide Leased;
    hide Published;
    hide FinishedLedger;
    hide AfterFinish;
    hide CanFinish;
    hide Released;
    hide EventsResolved;
    hide CanRecover;
    hide BothValid;
    hide HeldTable;
    LeaseRuns(from, w, others, s, t, true, clock.start, clock.ttl);
    LeasedHolds(s, w, t, true, clock.start, clock.ttl);
    GuardAfterLease(s, w, t, clock);
    var (leased, wk) := Leased(s, w, t, true, clock.start, clock.ttl);
    var s1 := s.(leases := leased);
    GuardRuns(from, w, others, s1, wk, clock.guard, clock.ttl);
    FinishAfterGuard(s1, t, Latest(s.wal, t.op), wk.source.value, wk.global.value, clock);
    var s2 := s1.(leases := HeldTable(leased, wk.source.value, wk.global.value, clock.guard, clock.ttl));
    FinishRuns(from, w, others, s2, wk.(pc := ToCommitted), clock.materialize, clock.ttl);
    var s3 := AfterFinish(s2, t, wk.source.value, wk.global.value, clock.materialize, clock.ttl);
    FinishedLeases(s, t, leased);
    ReleaseRuns(from, w, others, s3, wk.(pc := ReleaseGlobal));
    table := Released(s3.leases, wk.source, wk.global);
  }

  // ---------------------------------------------------------------- promotion

  /** What a worker that read CURRENT decides after reading the newest row and checking that the
      generation it found is reconciled. */
  ghost function DecisionAt(s: Ledger, wk: Worker): Outcome {
    var latest := Latest(s.wal, wk.prep.op);
    var seen := wk.(pc := Decide,
                    existing := if latest.Some? then Some((latest.value, s.wal[latest.value].state)) else None);
    if OwnCommitted(seen) || Reconciled(s, wk.active) then DecideAction(seen) else Raises
  }

  ghost function Decision(s: Ledger, wk: Worker): Outcome {
    DecisionAt(s, wk.(pc := ReadWal, active := s.current))
  }

  lemma DecisionAtRuns(from: System, w: WorkerId, others: map<WorkerId, Worker>, s: Ledger, wk: Worker)
    requires Standing(from, w, others, s, wk) && wk.pc == ReadWal
    ensures DecisionAt(s, wk).Goes? ==> Standing(from, w, others, s, DecisionAt(s, wk).worker)
  {
    hide Standing;
    hide Latest;
    hide Reconciled;
    hide NextOf;
    hide DecideAction;
    var latest := Latest(s.wal, wk.prep.op);
    var w2 := wk.(pc := Check, existing := if latest.Some? then Some((latest.value, s.wal[latest.value].state)) else None);
    assert Act(s, w, wk, 0, 0) == Goes(Nothing, w2);
    Does(from, w, others, s, wk, 0, 0);
    var w3 := w2.(pc := Decide);
    if OwnCommitted(w3) || Reconciled(s, wk.active) {
      assert OwnCommitted(w2) == OwnCommitted(w3);
      assert Act(s, w, w2, 0, 0) == Goes(Nothing, w3);
      Does(from, w, others, s, w2, 0, 0);
      assert Act(s, w, w3, 0, 0) == DecideAction(w3);
      DecideWrites(w3);
      if DecideAction(w3).Goes? {
        Does(from, w, others, s, w3, 0, 0);
      }
    }
  }

  /** Reading CURRENT. */
  lemma ReadRuns(from: System, w: WorkerId, others: map<WorkerId, Worker>, s: Ledger, wk: Worker)
    requires Standing(from, w, others, s, wk) && wk.pc == ReadActive
    ensures Standing(from, w, others, s, wk.(pc := ReadWal, active := s.current))
  {
    hide Standing;
    assert Act(s, w, wk, 0, 0) == Goes(Nothing, wk.(pc := ReadWal, active := s.current));
    Does(from, w, others, s, wk, 0, 0);
  }

  lemma DecisionRuns(from: System, w: WorkerId, others: map<WorkerId, Worker>, s: Ledger, wk: Worker)
    requires Standing(from, w, others, s, wk) && wk.pc == ReadActive
    ensures Decision(s, wk).Goes? ==> Standing(from, w, others, s, Decision(s, wk).worker)
  {
    hide Standing;
    hide DecisionAt;
    ReadRuns(from, w, others, s, wk);
    DecisionAtRuns(from, w, others, s, wk.(pc := ReadWal, active := s.current));
  }

  lemma DecideWrites(wk: Worker)
    ensures DecideAction(wk).Raises? || (DecideAction(wk).Goes? && DecideAction(wk).effect == Nothing)
  {
  }

  /** One action of the preparing phase. */
  lemma Prepares(from: System, w: WorkerId, others: map<WorkerId, Worker>, s: Ledger, wk: Worker, e: Effect, next: Pc)
    requires Standing(from, w, others, s, wk)
    requires PhaseOf(wk.pc) == Preparing && PrepareAction(s, wk) == Goes(e, wk.(pc := next))
    ensures Standing(from, w, others, Apply(s, e), wk.(pc := next))
  {
    hide Standing;
    hide PrepareAction;
    hide Apply;
    assert Act(s, w, wk, 0, 0) == PrepareAction(s, wk);
    Does(from, w, others, s, wk, 0, 0);
  }

  function Restaged(s: Ledger, t: TxnId): Ledger {
    Apply(Apply(s, WriteStaging(t)), WriteManifest(t.op, Manifest(RunPrepared, t)))
  }

  lemma RestageRuns(from: System, w: WorkerId, others: map<WorkerId, Worker>, s: Ledger, wk: Worker)
    requires Standing(from, w, others, s, wk) && wk.pc == RebaseBundle
    ensures Standing(from, w, others, Restaged(s, wk.prep), wk.(pc := PublishGeneration))
  {
    hide Standing;
    hide Apply;
    var t := wk.prep;
    Prepares(from, w, others, s, wk, WriteStaging(t), RebaseManifest);
    Prepares(from, w, others, Apply(s, WriteStaging(t)), wk.(pc := RebaseManifest),
             WriteManifest(t.op, Manifest(RunPrepared, t)), PublishGeneration);
  }

  /** The candidate generation, its row and its outbox entry. */
  function Recorded(s: Ledger, t: TxnId, now: int): Ledger {
    Apply(Apply(Apply(s, AddGeneration(t)), InsertRow(t, now)), InsertOutbox(t))
  }

  lemma RecordedFields(s: Ledger, t: TxnId, now: int)
    ensures Recorded(s, t, now) ==
      s.(generations := s.generations + {NextOf(t)},
         wal := if t in s.wal then s.wal else s.wal[t := WalRow(Prepared, now, s.nextRow)],
         nextRow := if t in s.wal then s.nextRow else s.nextRow + 1,
         outbox := if t in s.outbox then s.outbox else s.outbox[t := false])
  {
    hide NextOf;
    hide Apply;
    GenerationApplies(s, t);
    var s1 := s.(generations := s.generations + {NextOf(t)});
    InsertApplies(s1, t, now);
    var s2 := Apply(s1, InsertRow(t, now));
    OutboxApplies(s2, t);
  }

  lemma GenerationApplies(s: Ledger, t: TxnId)
    ensures Apply(s, AddGeneration(t)) == s.(generations := s.generations + {NextOf(t)})
  {
  }

  lemma InsertApplies(s: Ledger, t: TxnId, now: int)
    ensures Apply(s, InsertRow(t, now)) ==
      s.(wal := if t in s.wal then s.wal else s.wal[t := WalRow(Prepared, now, s.nextRow)],
         nextRow := if t in s.wal then s.nextRow else s.nextRow + 1)
  {
  }

  lemma OutboxApplies(s: Ledger, t: TxnId)
    ensures Apply(s, InsertOutbox(t)) == s.(outbox := if t in s.outbox then s.outbox else s.outbox[t := false])
  {
  }

  lemma RecordRuns(from: System, w: WorkerId, others: map<WorkerId, Worker>, s: Ledger, wk: Worker)
    requires Standing(from, w, others, s, wk) && wk.pc == PublishGeneration
    ensures Standing(from, w, others, Recorded(s, wk.prep, wk.started), wk.(pc := AbortSuperseded))
  {
    hide Standing;
    hide Apply;
    var t := wk.prep;
    Prepares(from, w, others, s, wk, AddGeneration(t), StoreWal);
    var s1 := Apply(s, AddGeneration(t));
    Prepares(from, w, others, s1, wk.(pc := StoreWal), InsertRow(t, wk.started), StoreOutbox);
    var s2 := Apply(s1, InsertRow(t, wk.started));
    Prepares(from, w, others, s2, wk.(pc := StoreOutbox), InsertOutbox(t), AbortSuperseded);
  }

  /** Whether the superseded row, if any, can be aborted, and the ledger after that. */
  predicate CanAbort(s: Ledger, superseded: Option<TxnId>) {
    superseded.None? ||
    (superseded.value in s.wal && (Superseding(s.wal[superseded.value].state) || s.wal[superseded.value].state == Aborted))
  }

  function Dropped(s: Ledger, superseded: Option<TxnId>): Ledger {
    if superseded.Some? && superseded.value in s.wal then s.(wal := MovedTo(s.wal, superseded.value, Aborted)) else s
  }

  lemma AbortRuns(from: System, w: WorkerId, others: map<WorkerId, Worker>, s: Ledger, wk: Worker)
    requires Standing(from, w, others, s, wk) && wk.pc == AbortSuperseded && CanAbort(s, wk.superseded)
    ensures Standing(from, w, others, Dropped(s, wk.superseded), wk.(pc := Reread))
  {
    hide Standing;
    var e := if wk.superseded.Some? then UpdateRow(wk.superseded.value, Aborted) else Nothing;
    Prepares(from, w, others, s, wk, e, Reread);
  }

  /** The pointer swap under both leases. */
  predicate CanSwap(s: Ledger, t: TxnId, source: LeaseToken, global: LeaseToken, now: int, ttl: int) {
    ttl > 0 && BothValid(s.leases, source, global, now) && s.current == t.parent && NextOf(t) in s.generations
  }

  lemma SwapRuns(from: System, w: WorkerId, others: map<WorkerId, Worker>, s: Ledger, wk: Worker, now: int, ttl: int)
    requires Standing(from, w, others, s, wk) && wk.pc == Swap && wk.source.Some? && wk.global.Some?
    requires wk.source.value.partition != wk.global.value.partition
    ensures
      var held := s.(leases := HeldTable(s.leases, wk.source.value, wk.global.value, now, ttl));
      && Standing(from, w, others, held, wk)
      && (CanSwap(s, wk.prep, wk.source.value, wk.global.value, now, ttl) ==>
            Standing(from, w, others, held.(current := NextOf(wk.prep)), wk.(pc := ToCommitted)))
  {
    hide Standing;
    hide NextOf;
    hide HeldTable;
    var held := s.(leases := HeldTable(s.leases, wk.source.value, wk.global.value, now, ttl));
    HoldRuns(from, w, others, s, wk, now, ttl);
    if CanSwap(s, wk.prep, wk.source.value, wk.global.value, now, ttl) {
      assert Act(held, w, wk, now, ttl) == CommitAction(held, wk, now);
      Does(from, w, others, held, wk, now, ttl);
    }
  }

  lemma RereadRuns(from: System, w: WorkerId, others: map<WorkerId, Worker>, s: Ledger, wk: Worker)
    requires Standing(from, w, others, s, wk) && wk.pc == Reread
    requires s.current == wk.prep.parent || s.current == NextOf(wk.prep)
    ensures s.current != wk.prep.parent ==> Standing(from, w, others, s, wk.(pc := ToCommitted))
    ensures s.current == wk.prep.parent && wk.prep in s.wal && s.wal[wk.prep].state != Aborted ==>
      Standing(from, w, others, s.(wal := MovedTo(s.wal, wk.prep, Furthest(s.wal[wk.prep].state, Committing))), wk.(pc := Swap))
  {
    hide Standing;
    hide NextOf;
    assert Act(s, w, wk, 0, 0) == CommitAction(s, wk, 0);
    Does(from, w, others, s, wk, 0, 0);
    if s.current == wk.prep.parent && wk.prep in s.wal && s.wal[wk.prep].state != Aborted {
      Advances(from, w, others, s, wk.(pc := ToCommitting), Committing, Swap);
    }
  }

  // ---------------------------------------------------------------- when a candidate is committed

  /** CURRENT is the candidate already, or can be moved to it now. */
  predicate SwapsNow(s: Ledger, t: TxnId, source: LeaseToken, global: LeaseToken, now: int, ttl: int) {
    if s.current == t.parent then
      && t in s.wal && s.wal[t].state != Aborted
      && CanSwap(s, t, source, global, now, ttl)
    else s.current == NextOf(t)
  }

  /** The ledger after rereading the pointer and, if it names the parent, trying to move it. */
  function AfterSwap(s: Ledger, t: TxnId, source: LeaseToken, global: LeaseToken, now: int, ttl: int): Ledger {
    if s.current != t.parent || t !in s.wal || s.wal[t].state == Aborted then s
    else
      var tried := s.(wal := MovedTo(s.wal, t, Furthest(s.wal[t].state, Committing)),
                      leases := HeldTable(s.leases, source, global, now, ttl));
      if CanSwap(s, t, source, global, now, ttl) then tried.(current := NextOf(t)) else tried
  }

  /** Nothing but the leases can stop the candidate: its row is live and stays so, the row it supersedes can be
      aborted, CURRENT is its parent or itself, and the events of its ancestry resolve. */
  predicate Committable(s: Ledger, t: TxnId, superseded: Option<TxnId>) {
    && (t in s.wal ==> s.wal[t].state != Aborted)
    && superseded != Some(t) && CanAbort(s, superseded)
    && (s.current == t.parent || s.current == NextOf(t))
    && EventsResolved(Published(s.events, t), NextOf(t))
  }

  /** Both leases hold when the pointer moves, if it has to, and when the generation is materialized. */
  predicate HeldLongEnough(s: Ledger, t: TxnId, source: LeaseToken, global: LeaseToken, clock: Readings) {
    && clock.ttl > 0
    && if s.current == t.parent then
         BothValid(s.leases, source, global, clock.guard) && clock.materialize < clock.guard + clock.ttl
       else BothValid(s.leases, source, global, clock.materialize)
  }

  lemma HeldUntil(t: LeaseTable, source: LeaseToken, global: LeaseToken, now: int, ttl: int, at: int)
    requires ttl > 0 && BothValid(t, source, global, now) && source.partition != global.partition
    ensures BothValid(HeldTable(t, source, global, now, ttl), source, global, at) <==> at < now + ttl
  {
  }

  /** A swap that goes through can be finished exactly when the row is live, the leases hold on and the events resolve. */
  lemma FinishAfterSwap(s: Ledger, t: TxnId, source: LeaseToken, global: LeaseToken, clock: Readings)
    requires source.partition != global.partition && t in s.wal && NextOf(t) in s.generations
    ensures
      && SwapsNow(s, t, source, global, clock.guard, clock.ttl)
      && CanFinish(AfterSwap(s, t, source, global, clock.guard, clock.ttl), t, source, global, clock.materialize, clock.ttl)
      <==>
      && s.wal[t].state != Aborted && (s.current == t.parent || s.current == NextOf(t))
      && EventsResolved(Published(s.events, t), NextOf(t))
      && HeldLongEnough(s, t, source, global, clock)
  {
    hide EventsResolved;
    hide NextOf;
    hide Published;
    hide HeldTable;
    hide BothValid;
    if clock.ttl > 0 && BothValid(s.leases, source, global, clock.guard) {
      HeldUntil(s.leases, source, global, clock.guard, clock.ttl, clock.materialize);
    }
  }

  /** What recording a candidate and aborting the row it supersedes leave. */
  lemma DroppedFacts(s: Ledger, t: TxnId, superseded: Option<TxnId>, now: int)
    ensures
      var recorded := Recorded(s, t, now);
      var after := Dropped(recorded, superseded);
      && t in after.wal && NextOf(t) in after.generations
      && after.current == s.current && after.leases == s.leases && after.events == s.events
      && (after.wal[t].state == Aborted <==> superseded == Some(t) || (t in s.wal && s.wal[t].state == Aborted))
      && (superseded != Some(t) ==> (CanAbort(recorded, superseded) <==> CanAbort(s, superseded)))
  {
    hide Recorded;
    hide NextOf;
    RecordedFields(s, t, now);
  }

  /** Exactly when publishing, recording, aborting, swapping and finishing all succeed. */
  lemma CommitIff(s: Ledger, t: TxnId, superseded: Option<TxnId>, source: LeaseToken, global: LeaseToken, clock: Readings)
    requires source.partition != global.partition
    ensures
      var recorded := Recorded(s, t, clock.start);
      var ready := Dropped(recorded, superseded);
      && CanAbort(recorded, superseded)
      && SwapsNow(ready, t, source, global, clock.guard, clock.ttl)
      && CanFinish(AfterSwap(ready, t, source, global, clock.guard, clock.ttl), t, source, global, clock.materialize, clock.ttl)
      <==>
      Committable(s, t, superseded) && HeldLongEnough(s, t, source, global, clock)
  {
    hide EventsResolved;
    hide NextOf;
    hide Published;
    hide Recorded;
    hide Dropped;
    hide CanAbort;
    hide SwapsNow;
    hide CanFinish;
    hide AfterSwap;
    hide BothValid;
    DroppedFacts(s, t, superseded, clock.start);
    FinishAfterSwap(Dropped(Recorded(s, t, clock.start), superseded), t, source, global, clock);
  }

  /** The ledger once the candidate is recorded, its predecessor aborted, CURRENT moved and everything reconciled. */
  function PromotedLedger(s: Ledger, t: TxnId, superseded: Option<TxnId>, now: int): Ledger {
    var ready := Dropped(Recorded(s, t, now), superseded);
    if t in ready.wal then FinishedLedger(ready.(current := NextOf(t)), t) else ready
  }

  /** The row of `t` after `now`, and every row once the superseded one is aborted and `t` completed. */
  predicate RowsAfter(before: Wal, after: Wal, t: TxnId, superseded: Option<TxnId>, now: int, row: nat) {
    && after.Keys == before.Keys + {t}
    && after[t] == (if t in before then before[t] else WalRow(Prepared, now, row)).(state := Completed)
    && forall u <- before | u != t :: after[u] == if superseded == Some(u) then before[u].(state := Aborted) else before[u]
  }

  lemma RowsMove(wal: Wal, t: TxnId, superseded: Option<TxnId>, now: int, row: nat)
    requires superseded != Some(t) && (superseded.Some? ==> superseded.value in wal)
    ensures
      var inserted := if t in wal then wal else wal[t := WalRow(Prepared, now, row)];
      var dropped := if superseded.Some? then MovedTo(inserted, superseded.value, Aborted) else inserted;
      t in dropped && RowsAfter(wal, MovedTo(dropped, t, Completed), t, superseded, now, row)
  {
    var inserted := if t in wal then wal else wal[t := WalRow(Prepared, now, row)];
    assert inserted.Keys == wal.Keys + {t};
    var dropped := if superseded.Some? then MovedTo(inserted, superseded.value, Aborted) else inserted;
    assert dropped.Keys == inserted.Keys;
  }

  lemma PromotedFields(s: Ledger, t: TxnId, superseded: Option<TxnId>, now: int)
    requires superseded != Some(t) && (superseded.Some? ==> superseded.value in s.wal)
    ensures
      var after := PromotedLedger(s, t, superseded, now);
      && RowsAfter(s.wal, after.wal, t, superseded, now, s.nextRow)
      && after == s.(current := NextOf(t), generations := s.generations + {NextOf(t)}, wal := after.wal,
                     nextRow := if t in s.wal then s.nextRow else s.nextRow + 1,
                     outbox := s.outbox[t := true], events := if t in s.events then s.events else s.events[t := EventOf(t)],
                     operations := s.operations[t.op := OpRow(Succeeded, Some(NextOf(t)))],
                     manifests := s.manifests[t.op := Manifest(RunSucceeded, t)], marker := Some(NextOf(t)))
  {
    hide NextOf;
    hide Recorded;
    hide MovedTo;
    hide RowsAfter;
    RecordedFields(s, t, now);
    RowsMove(s.wal, t, superseded, now, s.nextRow);
    OutboxMarked(s.outbox, t);
  }

  lemma OutboxMarked(outbox: map<TxnId, bool>, t: TxnId)
    ensures Marked(if t in outbox then outbox else outbox[t := false], t) == outbox[t := true]
  {
  }

  /** A swap that is finished leaves the promoted ledger. */
  lemma FinishedIsPromoted(s: Ledger, t: TxnId, superseded: Option<TxnId>, source: LeaseToken, global: LeaseToken, clock: Readings)
    requires source.partition != global.partition && CanAbort(Recorded(s, t, clock.start), superseded)
    requires
      var ready := Dropped(Recorded(s, t, clock.start), superseded);
      && SwapsNow(ready, t, source, global, clock.guard, clock.ttl)
      && CanFinish(AfterSwap(ready, t, source, global, clock.guard, clock.ttl), t, source, global, clock.materialize, clock.ttl)
    ensures
      var ready := Dropped(Recorded(s, t, clock.start), superseded);
      var swapped := AfterSwap(ready, t, source, global, clock.guard, clock.ttl);
      var after := AfterFinish(swapped, t, source, global, clock.materialize, clock.ttl);
      && superseded != Some(t) && (superseded.Some? ==> superseded.value in s.wal)
      && after == PromotedLedger(s, t, superseded, clock.start).(leases := after.leases)
  {
    hide NextOf;
    hide Recorded;
    hide Dropped;
    hide HeldTable;
    hide Published;
    hide Marked;
    hide EventsResolved;
    hide BothValid;
    var ready := Dropped(Recorded(s, t, clock.start), superseded);
    DroppedFacts(s, t, superseded, clock.start);
    CommitIff(s, t, superseded, source, global, clock);
    if ready.current == t.parent {
      MovedTwice(ready.wal, t, Furthest(ready.wal[t].state, Committing), Completed);
    }
  }

  /** The rows after the superseded one is aborted. */
  function DroppedRows(wal: Wal, superseded: Option<TxnId>): Wal {
    if superseded.Some? && superseded.value in wal then MovedTo(wal, superseded.value, Aborted) else wal
  }

  lemma DroppedOnlyRows(s: Ledger, superseded: Option<TxnId>)
    ensures Dropped(s, superseded) == s.(wal := DroppedRows(s.wal, superseded))
  {
    hide MovedTo;
  }

  lemma DroppedLeases(s: Ledger, superseded: Option<TxnId>, table: LeaseTable)
    ensures Dropped(s.(leases := table), superseded) == Dropped(s, superseded).(leases := table)
  {
    hide *;
    DroppedOnlyRows(s, superseded);
    DroppedOnlyRows(s.(leases := table), superseded);
  }

  lemma RecordedLeases(s: Ledger, t: TxnId, now: int, table: LeaseTable)
    ensures Recorded(s.(leases := table), t, now) == Recorded(s, t, now).(leases := table)
  {
    hide NextOf;
    hide Recorded;
    RecordedFields(s, t, now);
    RecordedFields(s.(leases := table), t, now);
  }

  lemma PromotedLeases(s: Ledger, t: TxnId, superseded: Option<TxnId>, now: int, table: LeaseTable)
    ensures PromotedLedger(s.(leases := table), t, superseded, now) == PromotedLedger(s, t, superseded, now).(leases := table)
  {
    hide NextOf;
    hide Recorded;
    hide Dropped;
    hide FinishedLedger;
    RecordedLeases(s, t, now, table);
    DroppedLeases(Recorded(s, t, now), superseded, table);
    var ready := Dropped(Recorded(s, t, now), superseded);
    if t in ready.wal {
      FinishedLeases(ready.(current := NextOf(t)), t, table);
    }
  }

  function NoopClosed(s: Ledger, op: Operation): Ledger
    requires s.current.Gen?
  {
    s.(operations := s.operations[op := OpRow(Succeeded, Some(s.current))],
       manifests := s.manifests[op := Manifest(RunSucceeded, s.current.txn)])
  }

  /** The semantic no-op closes the operation and the run without touching the ledger. */
  lemma NoopRuns(from: System, w: WorkerId, others: map<WorkerId, Worker>, s: Ledger, wk: Worker)
    requires Standing(from, w, others, s, wk) && wk.pc == NoopOperation && wk.active == s.current && s.current.Gen?
    ensures Standing(from, w, others, NoopClosed(s, wk.prep.op), wk.(pc := ReleaseGlobal))
    ensures OperationDone(NoopClosed(s, wk.prep.op), wk.prep.op)
  {
    hide Standing;
    assert Act(s, w, wk, 0, 0) == NoopAction(wk);
    Does(from, w, others, s, wk, 0, 0);
    var s1 := s.(operations := s.operations[wk.prep.op := OpRow(Succeeded, Some(wk.active))]);
    var w1 := wk.(pc := NoopManifest);
    assert Act(s1, w, w1, 0, 0) == NoopAction(w1);
    Does(from, w, others, s1, w1, 0, 0);
  }
}
