/** What depends on workers not outliving their leases.

    The abort of a superseded row is a plain database write: nothing checks that the worker still
    owns its leases.  A worker that overran its lease can therefore abort a row that its successor
    is about to commit.  The results below say exactly when that matters, and that it never does
    while aborts are made by the holder of the global fence.
 */
module PromotionFencing {
  import opened Options
  import opened LedgerTypes
  import opened Leases
  import opened Promotion
  import opened PromotionInvariant
  import opened PromotionSteps
  import opened PromotionTheorems

  predicate IsAborted(s: Ledger, t: TxnId) {
    t in s.wal && s.wal[t].state == Aborted
  }

  /** A worker stands right before the swap to `t`'s generation, and both of its fences hold. */
  predicate AtSwap(s: Ledger, wk: Worker, t: TxnId) {
    && wk.pc == Swap && wk.prep == t
    && wk.source.Some? && Matches(s.leases, wk.source.value)
    && wk.global.Some? && Matches(s.leases, wk.global.value)
  }

  /** The pointer can still move to `t`'s generation although `t` is aborted. */
  ghost predicate Revivable(sys: System, t: TxnId) {
    && sys.ledger.current == t.parent
    && exists w <- sys.workers :: AtSwap(sys.ledger, sys.workers[w], t)
  }

  ghost predicate Dead(sys: System, t: TxnId) {
    IsAborted(sys.ledger, t) && !InChain(NextOf(t), sys.ledger.current) && !Revivable(sys, t)
  }

  // ---------------------------------------------------------------- dead rows stay dead

  /** A worker only gets to the swap through a row that is not aborted. */
  lemma SwapNeedsLiveRow(s: Ledger, w: WorkerId, wk: Worker, now: int, ttl: int)
    requires Act(s, w, wk, now, ttl).Goes? && Act(s, w, wk, now, ttl).worker.pc == Swap
    ensures !IsAborted(s, Act(s, w, wk, now, ttl).worker.prep)
  {
    hide Latest;
    hide Reconciled;
    hide Acquire;
    hide ActiveClaim;
    hide NextOf;
    hide Holds;
  }

  lemma AbortedForEver(sys: System, l: Label, t: TxnId)
    requires Inv(sys) && Next(sys, l).Some? && IsAborted(sys.ledger, t)
    ensures IsAborted(Next(sys, l).value.ledger, t)
  {
    hide Next;
    hide InChain;
    StepGrowsLedger(sys, l);
  }

  /** A fence that holds after a step held before it, for every worker but the one that acts. */
  lemma FencesComeFromBefore(sys: System, l: Label, x: WorkerId, tok: LeaseToken)
    requires Inv(sys) && Next(sys, l).Some? && tok.owner == x
    requires l.Do? ==> l.w != x
    requires Matches(Next(sys, l).value.ledger.leases, tok)
    ensures Matches(sys.ledger.leases, tok)
  {
    hide Act;
    hide WorkerOk;
    hide Shared;
    hide InChain;
    var s := sys.ledger;
    if l.Do? {
      var wk := sys.workers[l.w];
      ActKeepsFences(s, l.w, wk, l.now, l.ttl);
      ApplyFrame(s, Act(s, l.w, wk, l.now, l.ttl).effect);
    } else if l.Renewal? {
      var wk := sys.workers[l.w];
      HoldKeepsFences(s.leases, [wk.source.value, wk.global.value], l.now, Some(l.ttl));
    }
  }

  lemma PointerNotAtParentAgain(sys: System, l: Label, t: TxnId)
    requires Inv(sys) && Next(sys, l).Some? && t in sys.ledger.wal
    requires Next(sys, l).value.ledger.current == t.parent
    ensures sys.ledger.current == t.parent
  {
    hide Next;
    hide Act;
    if sys.ledger.current != t.parent {
      OnlySwapMoves(sys, l);
      assert RowOk(sys.ledger, t);
      ChildNotInChain(sys.workers[l.w].prep);
    }
  }

  /** If a worker stands at the swap to an aborted row after a step, it stood there before. */
  lemma AtSwapComesFromBefore(sys: System, l: Label, t: TxnId, x: WorkerId)
    requires Inv(sys) && Next(sys, l).Some? && IsAborted(sys.ledger, t)
    requires x in Next(sys, l).value.workers
    requires AtSwap(Next(sys, l).value.ledger, Next(sys, l).value.workers[x], t)
    ensures x in sys.workers && AtSwap(sys.ledger, sys.workers[x], t)
  {
    hide WorkerOk;
    hide Shared;
    hide InChain;
    hide Act;
    hide Apply;
    hide Matches;
    var xk := Next(sys, l).value.workers[x];
    if l.Do? && l.w == x {
      SwapNeedsLiveRow(sys.ledger, x, sys.workers[x], l.now, l.ttl);
    }
    assert x in sys.workers && sys.workers[x] == xk;
    assert WorkerInv(sys.ledger, x, xk);
    FencesComeFromBefore(sys, l, x, xk.source.value);
    FencesComeFromBefore(sys, l, x, xk.global.value);
  }

  lemma DeadForEver(sys: System, l: Label, t: TxnId)
    requires Inv(sys) && Next(sys, l).Some? && Dead(sys, t)
    ensures Dead(Next(sys, l).value, t)
  {
    hide Next;
    hide Act;
    var after := Next(sys, l).value;
    AbortedForEver(sys, l, t);
    if after.ledger.current != sys.ledger.current {
      OnlySwapMoves(sys, l);
      var p := sys.workers[l.w].prep;
      assert p == t ==> AtSwap(sys.ledger, sys.workers[l.w], t);
    }
    assert !InChain(NextOf(t), after.ledger.current);
    if Revivable(after, t) {
      PointerNotAtParentAgain(sys, l, t);
      var x :| x in after.workers && AtSwap(after.ledger, after.workers[x], t);
      AtSwapComesFromBefore(sys, l, t, x);
    }
  }

  lemma {:induction false} DeadThroughRun(sys: System, ls: seq<Label>, t: TxnId)
    requires Inv(sys) && Exec(sys, ls).Some? && Dead(sys, t)
    ensures Dead(Exec(sys, ls).value, t)
    decreases |ls|
  {
    if ls != [] {
      DeadThroughRun(sys, ls[..|ls| - 1], t);
      RunKeepsInv(sys, ls[..|ls| - 1]);
      DeadForEver(Exec(sys, ls[..|ls| - 1]).value, ls[|ls| - 1], t);
    }
  }

  // ---------------------------------------------------------------- the exact condition

  lemma SwapGoes(s: Ledger, w: WorkerId, wk: Worker, t: TxnId) returns (now: int)
    requires WorkerOk(s, wk) && AtSwap(s, wk, t) && s.current == t.parent
    ensures Act(s, w, wk, now, 1) == Goes(MoveCurrent(t), wk.(pc := ToCommitted))
  {
    hide InChain;
    hide NextOf;
    hide Settled;
    hide Canonical;
    hide Evolves;
    hide ReadsOk;
    var a, b := s.leases[wk.source.value.partition].expires, s.leases[wk.global.value.partition].expires;
    now := (if a < b then a else b) - 1;
  }

  lemma RevivableRevives(sys: System, t: TxnId)
    requires Inv(sys) && Revivable(sys, t)
    ensures exists after :: Reaches(sys, after) && after.ledger.current == NextOf(t)
  {
    hide Shared;
    hide Act;
    hide Apply;
    hide Reaches;
    hide NextOf;
    hide WorkerOk;
    var s := sys.ledger;
    var w :| w in sys.workers && AtSwap(s, sys.workers[w], t);
    var wk := sys.workers[w];
    assert WorkerInv(s, w, wk);
    var now := SwapGoes(s, w, wk, t);
    ApplyWrites(s, MoveCurrent(t));
    var l := Do(w, now, 1);
    ReachesSelf(sys);
    ReachesStep(sys, sys, l);
    assert Next(sys, l).value.ledger.current == NextOf(t);
  }

  /** When the generation of an aborted row can be, or become, part of the ancestry of CURRENT:
      exactly when it already is, or when CURRENT is the row's parent and some worker stands at the
      swap with both fences unbroken. */
  lemma AbortedBecomesCurrentIff(sys: System, t: TxnId)
    requires Reachable(sys) && IsAborted(sys.ledger, t)
    ensures (exists after :: Reaches(sys, after) && InChain(NextOf(t), after.ledger.current))
            <==> (InChain(NextOf(t), sys.ledger.current) || Revivable(sys, t))
  {
    ReachableInv(sys);
    if InChain(NextOf(t), sys.ledger.current) {
      ReachesSelf(sys);
    } else if Revivable(sys, t) {
      RevivableRevives(sys, t);
      var after :| Reaches(sys, after) && after.ledger.current == NextOf(t);
      assert InChain(NextOf(t), after.ledger.current);
    } else {
      forall after | Reaches(sys, after)
        ensures !InChain(NextOf(t), after.ledger.current)
      {
        var ls :| Exec(sys, ls) == Some(after);
        DeadThroughRun(sys, ls, t);
      }
    }
  }

  // ---------------------------------------------------------------- fenced aborts

  /** The step does not abort a row behind the back of the current holder of the global lease. */
  predicate AbortFenced(sys: System, l: Label) {
    l.Do? && l.w in sys.workers && sys.workers[l.w].pc == AbortSuperseded && sys.workers[l.w].superseded.Some?
    ==> GlobalFence(sys.ledger, sys.workers[l.w])
  }

  ghost predicate AbortsFenced(sys: System, ls: seq<Label>)
    requires Exec(sys, ls).Some?
    decreases |ls|
  {
    ls == [] ||
    (Exec(sys, ls[..|ls| - 1]).Some? && AbortsFenced(sys, ls[..|ls| - 1])
     && AbortFenced(Exec(sys, ls[..|ls| - 1]).value, ls[|ls| - 1]))
  }

  ghost predicate AllDead(sys: System) {
    forall t <- sys.ledger.wal :: IsAborted(sys.ledger, t) ==> Dead(sys, t)
  }

  lemma OnlyAbortEffect(s: Ledger, w: WorkerId, wk: Worker, now: int, ttl: int, t: TxnId)
    requires !Act(s, w, wk, now, ttl).Raises? && Act(s, w, wk, now, ttl).effect == UpdateRow(t, Aborted)
    ensures wk.pc == AbortSuperseded && wk.superseded == Some(t)
    ensures t in s.wal && (Superseding(s.wal[t].state) || s.wal[t].state == Aborted)
    ensures Act(s, w, wk, now, ttl) == Goes(UpdateRow(t, Aborted), wk.(pc := Reread))
  {
    hide Latest;
    hide Reconciled;
    hide Acquire;
    hide ActiveClaim;
    hide NextOf;
    hide Holds;
    hide Release;
    hide EventsResolved;
  }

  /** Only the abort action aborts, and only the row the worker superseded. */
  lemma OnlyAbortAborts(sys: System, l: Label, t: TxnId)
    requires Inv(sys) && Next(sys, l).Some? && IsAborted(Next(sys, l).value.ledger, t) && !IsAborted(sys.ledger, t)
    ensures l.Do? && l.w in sys.workers
    ensures
      var wk := sys.workers[l.w];
      && wk.pc == AbortSuperseded && wk.superseded == Some(t)
      && t in sys.ledger.wal && Superseding(sys.ledger.wal[t].state)
      && Act(sys.ledger, l.w, wk, l.now, l.ttl) == Goes(UpdateRow(t, Aborted), wk.(pc := Reread))
  {
    hide WorkerInv;
    hide Shared;
    hide Act;
    hide Apply;
    hide Renewed;
    hide Holds;
    var s := sys.ledger;
    if l.Do? {
      var wk := sys.workers[l.w];
      var e := Act(s, l.w, wk, l.now, l.ttl).effect;
      ApplyFrame(s, e);
      ApplyWrites(s, e);
      assert e == UpdateRow(t, Aborted);
      OnlyAbortEffect(s, l.w, wk, l.now, l.ttl, t);
    } else if l.Renewal? {
      ApplyFrame(s, SetLeases(Renewed(s, sys.workers[l.w], l.now, l.ttl).value));
    } else if WritesOutside(l) {
      ApplyFrame(s, OutsideWrite(s, l).value);
    }
  }

  /** The row the holder of the global fence aborts is not in the ancestry. */
  lemma FencedAbortOutsideAncestry(s: Ledger, w: WorkerId, wk: Worker, t: TxnId)
    requires Shared(s) && WorkerInv(s, w, wk) && GlobalFence(s, wk)
    requires wk.pc == AbortSuperseded && wk.superseded == Some(t) && t in s.wal && Superseding(s.wal[t].state)
    ensures !InChain(NextOf(t), s.current)
  {
    hide InChain;
    hide NextOf;
    hide WellFormed;
    hide ChainOk;
    assert RowOk(s, t);
  }

  /** Two workers never hold the global fence together. */
  lemma OneGlobalFence(s: Ledger, w: WorkerId, wk: Worker, x: WorkerId, xk: Worker)
    requires TokensOk(s, w, wk) && TokensOk(s, x, xk) && GlobalFence(s, wk) && GlobalFence(s, xk)
    ensures w == x
  {
  }

  lemma HolderShutsOutSwap(s: Ledger, w: WorkerId, wk: Worker, x: WorkerId, xk: Worker, t: TxnId)
    requires WorkerInv(s, w, wk) && WorkerInv(s, x, xk) && w != x && GlobalFence(s, wk)
    ensures !AtSwap(s, xk, t)
  {
    hide WorkerOk;
    if GlobalFence(s, xk) { OneGlobalFence(s, w, wk, x, xk); }
  }

  lemma FencedAbortIsDead(sys: System, l: Label, t: TxnId)
    requires Inv(sys) && Next(sys, l).Some? && AbortFenced(sys, l)
    requires IsAborted(Next(sys, l).value.ledger, t) && !IsAborted(sys.ledger, t)
    ensures Dead(Next(sys, l).value, t)
  {
    hide Act;
    hide Apply;
    hide WorkerInv;
    hide Shared;
    hide InChain;
    hide NextOf;
    hide Matches;
    OnlyAbortAborts(sys, l, t);
    var s, w, wk := sys.ledger, l.w, sys.workers[l.w];
    FencedAbortOutsideAncestry(s, w, wk, t);
    var after := Next(sys, l).value;
    ApplyFrame(s, UpdateRow(t, Aborted));
    assert after.workers == sys.workers[w := wk.(pc := Reread)];
    forall x <- after.workers
      ensures !AtSwap(after.ledger, after.workers[x], t)
    {
      if x != w { HolderShutsOutSwap(s, w, wk, x, sys.workers[x], t); }
    }
  }

  lemma {:induction false} FencedRunAllDead(sys: System, ls: seq<Label>)
    requires Inv(sys) && AllDead(sys) && Exec(sys, ls).Some? && AbortsFenced(sys, ls)
    ensures AllDead(Exec(sys, ls).value)
    decreases |ls|
  {
    hide Next;
    hide Dead;
    hide Inv;
    if ls != [] {
      var before, l := Exec(sys, ls[..|ls| - 1]).value, ls[|ls| - 1];
      FencedRunAllDead(sys, ls[..|ls| - 1]);
      RunKeepsInv(sys, ls[..|ls| - 1]);
      forall t <- Exec(sys, ls).value.ledger.wal | IsAborted(Exec(sys, ls).value.ledger, t)
        ensures Dead(Exec(sys, ls).value, t)
      {
        if IsAborted(before.ledger, t) {
          DeadForEver(before, l, t);
        } else {
          FencedAbortIsDead(before, l, t);
        }
      }
    }
  }

  /** In a run whose aborts were all made by the holder of the global fence, the generation of an
      aborted row is not in the ancestry of CURRENT and never will be, in any continuation
      whatsoever, fenced or not. */
  lemma FencedAbortsAreFinal(epoch: Epoch, ls: seq<Label>, more: seq<Label>, t: TxnId)
    requires Exec(Init(epoch), ls).Some? && AbortsFenced(Init(epoch), ls)
    requires IsAborted(Exec(Init(epoch), ls).value.ledger, t)
    requires Exec(Exec(Init(epoch), ls).value, more).Some?
    ensures !InChain(NextOf(t), Exec(Exec(Init(epoch), ls).value, more).value.ledger.current)
  {
    var sys := Exec(Init(epoch), ls).value;
    RunKeepsInv(Init(epoch), ls);
    FencedRunAllDead(Init(epoch), ls);
    DeadThroughRun(sys, more, t);
  }
}
