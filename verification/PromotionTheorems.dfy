/** Whole-run results about the promotion protocol. */
module PromotionTheorems {
  import opened Options
  import opened LedgerTypes
  import opened Leases
  import opened Promotion
  import opened PromotionInvariant
  import opened PromotionSteps

  // ---------------------------------------------------------------- the pointer

  lemma OnlySwapEffect(s: Ledger, w: WorkerId, wk: Worker, now: int, ttl: int)
    requires wk.pc != Swap && !Act(s, w, wk, now, ttl).Raises?
    ensures !Act(s, w, wk, now, ttl).effect.MoveCurrent?
  {
    hide Latest;
    hide Reconciled;
    hide Acquire;
    hide ActiveClaim;
    hide NextOf;
    hide Holds;
  }

  /** Only the swap moves CURRENT. */
  lemma OnlySwapMoves(sys: System, l: Label)
    requires Next(sys, l).Some? && Next(sys, l).value.ledger.current != sys.ledger.current
    ensures l.Do? && l.w in sys.workers && sys.workers[l.w].pc == Swap
    ensures Act(sys.ledger, l.w, sys.workers[l.w], l.now, l.ttl).Goes?
    ensures Holds(sys.ledger, sys.workers[l.w], l.now)
    ensures sys.ledger.current == sys.workers[l.w].prep.parent
    ensures Next(sys, l).value.ledger.current == NextOf(sys.workers[l.w].prep)
  {
    hide Act;
    hide Apply;
    hide Renewed;
    hide Holds;
    hide NextOf;
    var s := sys.ledger;
    if l.Renewal? {
      ApplyFrame(s, SetLeases(Renewed(s, sys.workers[l.w], l.now, l.ttl).value));
    } else if WritesOutside(l) {
      ApplyFrame(s, OutsideWrite(s, l).value);
    } else if l.Do? {
      var wk := sys.workers[l.w];
      var o := Act(s, l.w, wk, l.now, l.ttl);
      ApplyFrame(s, o.effect);
      ApplyWrites(s, o.effect);
      if wk.pc == Swap {
        SwapGuards(s, l.w, wk, l.now, l.ttl);
      } else {
        OnlySwapEffect(s, l.w, wk, l.now, l.ttl);
      }
    }
  }

  lemma SwapGuards(s: Ledger, w: WorkerId, wk: Worker, now: int, ttl: int)
    requires wk.pc == Swap && !Act(s, w, wk, now, ttl).Raises?
    ensures Act(s, w, wk, now, ttl) == Goes(MoveCurrent(wk.prep), wk.(pc := ToCommitted))
    ensures Holds(s, wk, now) && s.current == wk.prep.parent
  {
    hide Holds;
    hide NextOf;
    hide Latest;
  }

  /** Over every interleaving and every crash, CURRENT only moves from a generation to a child of
      it, and the generation it leaves has its event published, its outbox entry appended and its
      write-ahead row completed. */
  lemma PointerMovesToChild(sys: System, l: Label)
    requires Reachable(sys) && Next(sys, l).Some?
    ensures
      var before, after := sys.ledger.current, Next(sys, l).value.ledger.current;
      before == after || (after.Gen? && after.parent == before && WellFormed(after) && Settled(sys.ledger, before))
  {
    hide Act;
    hide Apply;
    hide Reachable;
    hide Shared;
    hide WorkerInv;
    hide Holds;
    hide WellFormed;
    hide Settled;
    hide NextOf;
    ReachableInv(sys);
    if Next(sys, l).value.ledger.current != sys.ledger.current {
      OnlySwapMoves(sys, l);
      SwapLeavesSettled(sys.ledger, l.w, sys.workers[l.w]);
    }
  }

  lemma SwapLeavesSettled(s: Ledger, w: WorkerId, wk: Worker)
    requires Shared(s) && WorkerInv(s, w, wk) && wk.pc == Swap && s.current == wk.prep.parent
    ensures Settled(s, s.current)
    ensures NextOf(wk.prep).Gen? && NextOf(wk.prep).parent == s.current && WellFormed(NextOf(wk.prep))
  {
    ChildNotInChain(wk.prep);
  }

  /** Every step of the run left CURRENT alone or moved it to a child of a settled generation. */
  ghost predicate MovesToChildren(sys: System, ls: seq<Label>)
    requires Exec(sys, ls).Some?
    decreases |ls|
  {
    ls == [] ||
    (var before, after := Exec(sys, ls[..|ls| - 1]).value.ledger, Exec(sys, ls).value.ledger;
     && MovesToChildren(sys, ls[..|ls| - 1])
     && (after.current == before.current ||
         (&& after.current.Gen? && after.current.parent == before.current
          && WellFormed(after.current) && Settled(before, before.current))))
  }

  /** The same over whole runs, however long, from the empty ledger. */
  lemma {:induction false} RunMovesToChildren(epoch: Epoch, ls: seq<Label>)
    requires Exec(Init(epoch), ls).Some?
    ensures MovesToChildren(Init(epoch), ls)
    decreases |ls|
  {
    hide Next;
    hide Settled;
    hide WellFormed;
    hide Init;
    if ls != [] {
      var init := ls[..|ls| - 1];
      RunMovesToChildren(epoch, init);
      var before := Exec(Init(epoch), init).value;
      assert Reaches(Init(epoch), before);
      assert Reachable(before);
      PointerMovesToChild(before, ls[|ls| - 1]);
    }
  }

  /** At most the newest generation is ever unsettled. */
  lemma OnlyNewestUnsettled(sys: System, g: GenId)
    requires Reachable(sys) && InChain(g, sys.ledger.current) && g != sys.ledger.current
    ensures Settled(sys.ledger, g)
  {
    ReachableInv(sys);
    BelowCurrentIsSettled(sys.ledger, g);
  }

  /** The write-ahead rows agree with the pointer in every reachable state: a row past the commit
      names CURRENT or an ancestor, a prepared row names neither, and a committing row is in the
      ancestry only as CURRENT itself. */
  lemma RowsAgreeWithPointer(sys: System, t: TxnId)
    requires Reachable(sys) && t in sys.ledger.wal
    ensures
      var p, inAncestry := sys.ledger.wal[t].state, InChain(NextOf(t), sys.ledger.current);
      && (p == Committed || p == Reconciling || p == Completed ==> inAncestry)
      && (p == Prepared ==> !inAncestry)
      && (p == Committing && inAncestry ==> sys.ledger.current == NextOf(t))
      && (inAncestry && NextOf(t) != sys.ledger.current ==> p == Completed)
  {
    ReachableInv(sys);
    assert RowOk(sys.ledger, t);
    if InChain(NextOf(t), sys.ledger.current) && NextOf(t) != sys.ledger.current {
      BelowCurrentIsSettled(sys.ledger, NextOf(t));
    }
  }

  lemma {:induction false} SettledEventsResolved(s: Ledger, g: GenId)
    requires ChainOk(s, g) && Settled(s, g) && (g.Gen? ==> !InChain(s.current, g.parent))
    ensures EventsResolved(s.events, g)
    decreases g
  {
    if g.Gen? {
      StrictlyBelow(s, g.parent);
      SettledEventsResolved(s, g.parent);
    }
  }

  /** What is not at or above CURRENT is settled. */
  lemma StrictlyBelow(s: Ledger, g: GenId)
    requires ChainOk(s, g) && !InChain(s.current, g)
    ensures Settled(s, g)
    ensures g.Gen? ==> ChainOk(s, g.parent) && !InChain(s.current, g.parent)
  {
  }

  /** CURRENT has the events of its whole ancestry once it has its own. */
  lemma CurrentEventsResolved(s: Ledger)
    requires ChainOk(s, s.current) && s.current.Gen? && WellFormed(s.current)
    requires s.current.txn in s.events && s.events[s.current.txn] == EventOf(s.current.txn)
    ensures EventsResolved(s.events, s.current)
  {
    hide EventOf;
    hide Settled;
    ChildNotInChain(s.current.txn);
    StrictlyBelow(s, s.current.parent);
    SettledEventsResolved(s, s.current.parent);
  }

  lemma MaterializingWorkerHasEvent(s: Ledger, w: WorkerId, wk: Worker)
    requires Shared(s) && WorkerInv(s, w, wk) && wk.pc == Materialize && s.current == NextOf(wk.prep)
    ensures ChainOk(s, s.current) && s.current.Gen? && WellFormed(s.current)
    ensures s.current.txn in s.events && s.events[s.current.txn] == EventOf(s.current.txn)
  {
    hide ChainOk;
    hide WellFormed;
    hide RowOk;
    hide BundleOk;
    hide InChain;
    hide ReadsOk;
    hide Canonical;
    hide TokensOk;
    hide FenceOk;
    hide RowsDistinct;
    hide EventOf;
  }

  /** Materialization never reports unresolved promotion events: whenever a worker that owns CURRENT
      reaches it, every ancestor has exactly its event. */
  lemma MaterializationResolves(sys: System, w: WorkerId)
    requires Reachable(sys) && w in sys.workers && sys.workers[w].pc == Materialize
    requires sys.ledger.current == NextOf(sys.workers[w].prep)
    ensures EventsResolved(sys.ledger.events, sys.ledger.current)
  {
    hide Reachable;
    hide Shared;
    hide WorkerInv;
    hide NextOf;
    hide EventsResolved;
    hide ChainOk;
    hide WellFormed;
    hide EventOf;
    ReachableInv(sys);
    MaterializingWorkerHasEvent(sys.ledger, w, sys.workers[w]);
    CurrentEventsResolved(sys.ledger);
  }

  // ---------------------------------------------------------------- growth along runs

  lemma StepGrowsLedger(sys: System, l: Label)
    requires Inv(sys) && Next(sys, l).Some?
    ensures Grows(sys.ledger, Next(sys, l).value.ledger)
  {
    hide Grows;
    hide Act;
    hide Apply;
    hide OutsideWrite;
    var s := sys.ledger;
    SameGrows(s);
    match l
    case Stage(op, parent, proposal) => StageGrows(s, op, parent, proposal);
    case PrepareRun(_) | AwaitRun(_) | AwaitOperation(_) | Rebuild(_) => EffectGrows(s, OutsideWrite(s, l).value);
    case Do(w, now, ttl) =>
      ActKeeps(s, w, sys.workers[w], now, ttl);
      EffectGrows(s, Act(s, w, sys.workers[w], now, ttl).effect);
    case Renewal(w, now, ttl) =>
      var wk := sys.workers[w];
      HoldKeepsFences(s.leases, [wk.source.value, wk.global.value], now, Some(ttl));
      EffectGrows(s, SetLeases(Renewed(s, wk, now, ttl).value));
    case _ =>
  }

  lemma SameGrows(s: Ledger)
    ensures Grows(s, s)
  {
    StaysTheSame(s);
  }

  lemma GrowsTransitive(a: Ledger, b: Ledger, c: Ledger)
    requires Grows(a, b) && Grows(b, c)
    ensures Grows(a, c)
  {
    hide InChain;
    InChainTransitive(a.current, b.current, c.current);
  }

  /** Whatever happens, events, outbox marks and completed rows stay, and CURRENT descends from
      what it was. */
  lemma {:induction false} RunGrows(sys: System, ls: seq<Label>)
    requires Inv(sys) && Exec(sys, ls).Some?
    ensures Grows(sys.ledger, Exec(sys, ls).value.ledger)
    decreases |ls|
  {
    hide Grows;
    hide Inv;
    hide Next;
    if ls == [] {
      SameGrows(sys.ledger);
    } else {
      var before := Exec(sys, ls[..|ls| - 1]).value;
      RunKeepsInv(sys, ls[..|ls| - 1]);
      RunGrows(sys, ls[..|ls| - 1]);
      StepGrowsLedger(before, ls[|ls| - 1]);
      GrowsTransitive(sys.ledger, before.ledger, Exec(sys, ls).value.ledger);
    }
  }

  /** No claim and no evidence is ever lost, whatever the workers do. */
  lemma EvidenceOnlyGrows(sys: System, after: System)
    requires Reachable(sys) && Reaches(sys, after)
    ensures Preserves(RecordsOf(sys.ledger.current), RecordsOf(after.ledger.current))
  {
    ReachableInv(sys);
    var ls :| Exec(sys, ls) == Some(after);
    RunGrows(sys, ls);
    RunKeepsInv(sys, ls);
    AncestryPreservesClaims(sys.ledger.current, after.ledger.current);
  }

  /** Every operation whose row got past the commit has its evidence in CURRENT, in particular both
      of two operations prepared on the same parent. */
  lemma CommittedEvidenceInCurrent(sys: System, t: TxnId)
    requires Reachable(sys) && t in sys.ledger.wal && PastCommit(sys.ledger.wal[t].state)
    ensures
      var records, claim := RecordsOf(sys.ledger.current), t.claim;
      claim.id in records && claim.evidence <= records[claim.id].claim.evidence
  {
    ReachableInv(sys);
    assert RowOk(sys.ledger, t);
    PromotedEvidenceSurvives(t, sys.ledger.current);
  }
}
