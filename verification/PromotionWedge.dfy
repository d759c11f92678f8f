/** Runs that leave the ledger where nobody can move it on.

    A promotion that moved CURRENT and crashed can be recovered only while the newest live row of its operation is the
    one CURRENT came from.  Both ways to lose that row are reachable.
 */
module PromotionWedge {
  import opened Options
  import opened LedgerTypes
  import opened Leases
  import opened Promotion
  import opened PromotionFencing
  import opened PromotionRecovery
  import opened PromotionWitness
  import opened PipelineRuns

  /** A reachable ledger whose CURRENT came from an aborted row: it is never left, settled or recoverable again. */
  lemma AbortedCurrentWedges() returns (sys: System)
    ensures Reachable(sys) && CurrentAborted(sys.ledger)
    ensures forall after | Reaches(sys, after) ::
      && after.ledger.current == sys.ledger.current && !Reconciled(after.ledger, after.ledger.current)
      && forall op :: !AtCommitted(after.ledger, op)
  {
    hide Reachable;
    hide Reaches;
    hide AtCommitted;
    hide Reconciled;
    var t;
    sys, t := AbortedRowIsCommitted();
    forall after | Reaches(sys, after)
      ensures
        && after.ledger.current == sys.ledger.current && !Reconciled(after.ledger, after.ledger.current)
        && forall op :: !AtCommitted(after.ledger, op)
    {
      AbortedCurrentIsNeverLeft(sys, after);
    }
  }

  /** A row recorded with a later time than the one other row of its operation is the newest. */
  lemma NewerRowIsLatest(wal: Wal, x: TxnId, t: TxnId, row: WalRow)
    requires x in wal && wal[x].created < row.created && t !in wal && t.op == x.op && row.state != Aborted
    requires forall u <- wal :: u.op == x.op ==> u == x
    ensures Latest(wal[t := row], x.op) == Some(t)
  {
    assert IsLatest(wal[t := row], x.op, t);
    assert !IsLatest(wal[t := row], x.op, x);
  }

  lemma RebasedFacts()
    ensures BundleX() != RebasedX() && BundleX().op == OpX && RebasedX().op == OpX && NextOf(BundleX()) != NextOf(RebasedX())
  {
    BeforeXFacts(0);
  }

  /** A worker stands before the swap to X while a stale worker, whose clock was ahead, recorded another candidate of
      the same operation and was killed before it aborted the row it took for superseded. */
  lemma NewerRowRecorded() returns (s: Ledger, wk: Worker)
    ensures Reaches(Init(0), System(s, map[1 := wk]))
    ensures wk.pc == Swap && wk.prep == RebasedX() && wk.source.Some? && wk.global.Some?
    ensures wk.source.value.partition != wk.global.value.partition
    ensures CanSwap(s, RebasedX(), wk.source.value, wk.global.value, 100, 100)
    ensures RebasedX() in s.wal && s.wal[RebasedX()].state == Committing && Latest(s.wal, OpX) == Some(BundleX())
  {
    hide Reaches;
    hide AfterY;
    hide BeforeX;
    hide StagedBoth;
    hide RebasedX;
    hide Recorded;
    hide HeldTable;
    hide Latest;
    hide Standing;
    hide NextOf;
    var from := Init(0);
    var table, stale := StaleReader(1000);
    table := WinnerPromotes(from, map[2 := stale], table);
    table, wk := LoserToSwap(from, 1, map[2 := stale], table, 100);
    BeforeXFacts(100);
    var before := BeforeX(100).(leases := table);
    Singleton(2, stale);
    Singleton(1, wk);
    OtherView(from, 1, wk, 2, stale, map[], before);
    var last := StaleRecord(from, map[1 := wk], before, stale);
    s := Recorded(before, BundleX(), 1000);
    Killed(from, 2, map[1 := wk], s, last);
    RebasedFacts();
    RecordedFields(before, BundleX(), 1000);
    NewerRowIsLatest(before.wal, RebasedX(), BundleX(), WalRow(Prepared, 1000, before.nextRow));
  }

  /** A reachable ledger without workers whose CURRENT has a live row, hidden by a newer row of the same operation.  It
      is never left or reconciled again. */
  lemma NewerRowWedges() returns (sys: System)
    ensures Reachable(sys) && sys.workers == map[] && sys.ledger.current.Gen?
    ensures sys.ledger.current.txn in sys.ledger.wal && !IsAborted(sys.ledger, sys.ledger.current.txn)
    ensures !Reconciled(sys.ledger, sys.ledger.current) && !AtCommitted(sys.ledger, sys.ledger.current.txn.op)
    ensures forall after | Reaches(sys, after) ::
      after.ledger.current == sys.ledger.current && !Reconciled(after.ledger, after.ledger.current)
  {
    hide Reaches;
    hide RebasedX;
    hide BundleX;
    hide Latest;
    hide Reconciled;
    hide AtCommitted;
    hide CanSwap;
    var s, wk := NewerRowRecorded();
    sys := SwapAndDie(Init(0), s, wk);
    RebasedFacts();
    IsHidden(sys.ledger, RebasedX(), BundleX());
    HiddenRowWedges(sys);
  }

  lemma IsHidden(s: Ledger, x: TxnId, t: TxnId)
    requires s.current == NextOf(x) && Latest(s.wal, x.op) == Some(t) && NextOf(t) != NextOf(x)
    ensures s.current.Gen? && s.current.txn == x && !AtCommitted(s, x.op)
  {
  }

  /** A committing CURRENT whose row is not the newest of its operation, after a crash of all workers. */
  lemma HiddenRowWedges(sys: System)
    requires Reachable(sys) && sys.workers == map[] && sys.ledger.current.Gen?
    requires var t := sys.ledger.current.txn; t in sys.ledger.wal && sys.ledger.wal[t].state == Committing
    requires !AtCommitted(sys.ledger, sys.ledger.current.txn.op)
    ensures !Reconciled(sys.ledger, sys.ledger.current)
    ensures forall after | Reaches(sys, after) ::
      after.ledger.current == sys.ledger.current && !Reconciled(after.ledger, after.ledger.current)
  {
    hide Reaches;
    hide Reachable;
    hide AtCommitted;
    CommittingIsNotReconciled(sys.ledger);
    CrashRecoverableIff(sys);
  }

  lemma CommittingIsNotReconciled(s: Ledger)
    requires s.current.Gen? && s.current.txn in s.wal && s.wal[s.current.txn].state == Committing
    ensures !Reconciled(s, s.current) && !LacksOnlyMarker(s)
  {
  }

  /** The worker at the swap moves CURRENT and is killed. */
  lemma SwapAndDie(from: System, s: Ledger, wk: Worker) returns (sys: System)
    requires Reaches(from, System(s, map[1 := wk])) && 1 !in from.workers && wk.pc == Swap && wk.source.Some? && wk.global.Some?
    requires wk.source.value.partition != wk.global.value.partition
    requires CanSwap(s, wk.prep, wk.source.value, wk.global.value, 100, 100)
    ensures Reaches(from, sys) && sys.workers == map[]
    ensures sys.ledger == s.(leases := sys.ledger.leases, current := NextOf(wk.prep))
  {
    hide Reaches;
    hide Standing;
    hide NextOf;
    hide HeldTable;
    Singleton(1, wk);
    StandsReached(from, 1, map[], s, wk);
    SwapRuns(from, 1, map[], s, wk, 100, 100);
    var held := s.(leases := HeldTable(s.leases, wk.source.value, wk.global.value, 100, 100), current := NextOf(wk.prep));
    Killed(from, 1, map[], held, wk.(pc := ToCommitted));
    sys := System(held, map[]);
  }
}
