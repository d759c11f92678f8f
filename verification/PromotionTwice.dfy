/** A run in which nobody overruns a lease and an operation is promoted twice.

    Two calls enter with the same old bundle of X.  The first rebases it, commits and completes.  The second then takes
    fresh leases, finds a completed row of the same operation with another candidate, passes its check and rebases the
    old bundle once more.  On the way it rewrites the manifest of the run that CURRENT came from.
 */
module PromotionTwice {
  import opened Options
  import opened LedgerTypes
  import opened Leases
  import opened Promotion
  import opened PromotionWitness
  import opened PromotionRepeats
  import opened ControlPlane
  import opened PipelineRuns
  import opened Pipeline

  /** X was rebased onto Y and promoted completely. */
  function AfterX(): Ledger {
    FinishedLedger(BeforeX(100).(current := NextOf(RebasedX())), RebasedX())
  }

  /** The old bundle of X once more, rebased onto the generation X already has. */
  function AgainX(): TxnId {
    Rebase(BundleX(), NextOf(RebasedX()))
  }

  lemma AfterYEvents()
    ensures AfterY().events == map[BundleY() := EventOf(BundleY())]
    ensures EventsResolved(Published(AfterY().events, RebasedX()), NextOf(RebasedX()))
  {
    StagedFacts();
    RebasedXFacts();
    var events := Published(AfterY().events, RebasedX());
    assert AfterY().events == map[BundleY() := EventOf(BundleY())];
    assert EventsResolved(events, Genesis);
    assert EventsResolved(events, NextOf(BundleY()));
  }

  lemma RebasedXFacts()
    ensures RebasedX().op == OpX && RebasedX().parent == NextOf(BundleY()) && RebasedX() != BundleY() && RebasedX() != BundleX()
    ensures BundleX().op == OpX && BundleY().op == OpY && OpX != OpY && BundleX().parent == Genesis
  {
  }

  lemma BeforeXRows()
    ensures BeforeX(100).wal.Keys == {BundleY(), RebasedX()} && BeforeX(100).outbox.Keys == {BundleY(), RebasedX()}
    ensures RebasedX() !in BeforeX(100).events
  {
    hide RebasedX;
    hide NextOf;
    hide EventOf;
    hide EventsResolved;
    hide AfterY;
    hide StagedBoth;
    hide Reconciled;
    hide OperationDone;
    hide Published;
    AfterYFacts();
    AfterYEvents();
    RebasedXFacts();
  }

  lemma AfterXFacts()
    ensures AfterX().current == NextOf(RebasedX())
    ensures AfterX().wal.Keys == {BundleY(), RebasedX()} && AfterX().outbox.Keys == {BundleY(), RebasedX()}
    ensures AfterX().wal[RebasedX()].state == Completed
    ensures Reconciled(AfterX(), NextOf(RebasedX()))
  {
    hide BeforeX;
    hide RebasedX;
    hide NextOf;
    hide Reconciled;
    BeforeXRows();
    var s := BeforeX(100).(current := NextOf(RebasedX()));
    FinishedIsClosed(s, RebasedX(), s.leases);
    assert AfterX().(leases := s.leases) == AfterX();
  }

  lemma AgainXFacts()
    ensures AgainX().op == OpX && AgainX().parent == NextOf(RebasedX())
    ensures AgainX() != RebasedX() && AgainX() != BundleY()
    ensures NextOf(RebasedX()) != NextOf(BundleX()) && NextOf(RebasedX()) != Genesis
    ensures RepeatsOperation(NextOf(AgainX()))
  {
    RebasedXFacts();
    ChildNotInChain(RebasedX());
    assert InChain(NextOf(RebasedX()).parent, NextOf(RebasedX()).parent);
  }

  lemma LatestIsCompleted(leases: LeaseTable)
    ensures Latest(AfterX().(leases := leases).wal, OpX) == Some(RebasedX())
  {
    hide AfterX;
    hide RebasedX;
    hide NextOf;
    AfterXFacts();
    RebasedXFacts();
    assert IsLatest(AfterX().wal, OpX, RebasedX());
  }

  lemma AgainUnobstructed(leases: LeaseTable)
    ensures Unobstructed(AfterX().(leases := leases), BundleX())
    ensures CandidateFor(AfterX().(leases := leases), BundleX()) == AgainX()
  {
    hide AfterX;
    hide RebasedX;
    hide Latest;
    hide NextOf;
    hide MergeClaim;
    AfterXFacts();
    AgainXFacts();
    RebasedXFacts();
    LatestIsCompleted(leases);
  }

  /** The first call promotes Y and then X, while the second stands at its beginning with the old bundle. */
  lemma FirstCallCompletes() returns (table: LeaseTable)
    ensures Reaches(Init(0), System(AfterX().(leases := table), map[2 := Fresh(BundleX(), false)])) && AllExpired(table, 200)
  {
    hide Reaches;
    hide Standing;
    hide StagedBoth;
    hide AfterY;
    hide BeforeX;
    hide RebasedX;
    hide NextOf;
    hide EventsResolved;
    StagedFacts();
    var from, second := Init(0), Fresh(BundleX(), false);
    EntersPromotion(from, 2, map[], StagedBoth(), OpX);
    StandsReached(from, 2, map[], StagedBoth(), second);
    Singleton(2, second);
    assert StagedBoth().(leases := map[]) == StagedBoth();
    table := WinnerPromotes(from, map[2 := second], map[]);
    var wk;
    table, wk := LoserToSwap(from, 1, map[2 := second], table, 100);
    BeforeXFacts(100);
    BeforeXEvents();
    table := SwapsAndCloses(from, 1, map[2 := second], BeforeX(100).(leases := table), wk, 100, 100);
  }

  lemma BeforeXEvents()
    ensures EventsResolved(Published(BeforeX(100).events, RebasedX()), NextOf(RebasedX()))
  {
    AfterYEvents();
  }

  /** The second call, with fresh leases, alone in the system and on a reconciled CURRENT. */
  lemma SecondCallStarts() returns (start: System, wk: Worker)
    ensures Reachable(start) && start.workers == map[2 := wk]
    ensures start.ledger == AfterX().(leases := start.ledger.leases)
    ensures wk == Fresh(BundleX(), false).(pc := ReadActive, source := wk.source, global := wk.global, started := 200)
    ensures Holds(start.ledger, wk, 200)
  {
    hide Reaches;
    hide Standing;
    hide Leased;
    hide AfterX;
    hide LeasesFree;
    var table := FirstCallCompletes();
    var from, s, t := Init(0), AfterX().(leases := table), BundleX();
    Singleton(2, Fresh(t, false));
    StandsReached(from, 2, map[], s, Fresh(t, false));
    LeasesFreeLater(table, 2, OpX, 200);
    LeaseRuns(from, 2, map[], s, t, false, 200, 100);
    LeasedHolds(s, 2, t, false, 200, 100);
    var leased, held := Leased(s, 2, t, false, 200, 100).0, Leased(s, 2, t, false, 200, 100).1;
    wk := held;
    StandsReached(from, 2, map[], s.(leases := leased), wk);
    Singleton(2, wk);
    assert BothValid(leased, wk.source.value, wk.global.value, 200);
    start := System(s.(leases := leased), map[2 := wk]);
  }

  lemma ManifestRewritten(s: Ledger)
    requires s.current == NextOf(RebasedX())
    ensures
      var before := BeforeSwap(Restaged(s, AgainX()), AgainX(), 200);
      && before.current == s.current && before.leases == s.leases && NextOf(AgainX()) in before.generations
      && !Reconciled(before, before.current)
  {
    AgainXFacts();
    RebasedXFacts();
    var before := BeforeSwap(Restaged(s, AgainX()), AgainX(), 200);
    assert before.manifests[OpX] == Manifest(RunPrepared, AgainX());
  }

  lemma ReconciledByRows(leases: LeaseTable)
    ensures Reconciled(AfterX().(leases := leases), NextOf(RebasedX()))
  {
    AfterXFacts();
    hide AfterX;
    hide RebasedX;
    hide NextOf;
  }

  lemma StartsAlone(start: System, wk: Worker)
    requires start.workers == map[2 := wk]
    ensures Standing(start, 2, map[], start.ledger, wk)
  {
    Singleton(2, wk);
    assert Exec(start, []) == Some(start) && OnlyBy(2, []);
  }

  lemma BaseIsRestaged(s: Ledger)
    requires s.current == NextOf(RebasedX())
    ensures BaseFor(s, BundleX()) == Restaged(s, AgainX()) && CandidateFor(s, BundleX()) == AgainX()
  {
  }

  lemma AloneRun(start: System, s: Ledger, wk: Worker) returns (ls: seq<Label>)
    requires Standing(start, 2, map[], s, wk) && 2 in start.workers
    ensures Exec(start, ls) == Some(System(s, map[2 := wk])) && OnlyBy(2, ls)
  {
    Singleton(2, wk);
    ls :| Exec(start, ls) == Some(System(s, map[2 := wk])) && OnlyBy(2, ls);
  }

  lemma SwapByTwo(s: Ledger, wk: Worker)
    requires wk.pc == Swap && Holds(s, wk, 200) && s.current == wk.prep.parent && NextOf(wk.prep) in s.generations
    ensures Next(System(s, map[2 := wk]), Do(2, 200, 100)).Some?
    ensures Next(System(s, map[2 := wk]), Do(2, 200, 100)).value.ledger.current == NextOf(wk.prep) != s.current
  {
    ChildNotInChain(wk.prep);
    assert InChain(s.current, s.current);
  }

  lemma NotYetRepeated()
    ensures !RepeatsOperation(NextOf(RebasedX()))
  {
    RebasedXFacts();
  }

  lemma OneMoreBy(w: WorkerId, ls: seq<Label>, now: int, ttl: int)
    requires OnlyBy(w, ls)
    ensures OnlyBy(w, ls + [Do(w, now, ttl)])
  {
  }

  /** From a reachable state in which worker 2 is alone, holds valid leases and CURRENT is fully reconciled, its own steps
      lead to a swap that it makes with both leases valid, and that leaves CURRENT unreconciled and gives the
      operation a second generation. */
  lemma FencedSwapRepeats() returns (start: System, ls: seq<Label>, l: Label)
    ensures Reachable(start) && start.workers.Keys == {2} && Holds(start.ledger, start.workers[2], 200)
    ensures Reconciled(start.ledger, start.ledger.current) && !RepeatsOperation(start.ledger.current)
    ensures Exec(start, ls).Some? && OnlyBy(2, ls + [l]) && Next(Exec(start, ls).value, l).Some?
    ensures
      var before, after := Exec(start, ls).value, Next(Exec(start, ls).value, l).value;
      && before.ledger.current == start.ledger.current && after.ledger.current != before.ledger.current
      && 2 in before.workers && Holds(before.ledger, before.workers[2], 200)
      && !Reconciled(before.ledger, before.ledger.current)
      && RepeatsOperation(after.ledger.current)
  {
    hide Standing;
    hide Reachable;
    hide Exec;
    hide AfterX;
    hide AgainX;
    hide RebasedX;
    hide NextOf;
    hide Reconciled;
    hide Act;
    hide Apply;
    hide BeforeSwap;
    hide Restaged;
    hide Unobstructed;
    hide RepeatsOperation;
    var wk;
    start, wk := SecondCallStarts();
    var s := start.ledger;
    AfterXFacts();
    AgainXFacts();
    RebasedXFacts();
    AgainUnobstructed(s.leases);
    ReconciledByRows(s.leases);
    StartsAlone(start, wk);
    var last := PreparesToSwap(start, 2, map[], s, BundleX(), wk, 200);
    BaseIsRestaged(s);
    ManifestRewritten(s);
    var before := BeforeSwap(Restaged(s, AgainX()), AgainX(), 200);
    ls := AloneRun(start, before, last);
    l := Do(2, 200, 100);
    SwapByTwo(before, last);
    OneMoreBy(2, ls, 200, 100);
    NotYetRepeated();
  }
}
