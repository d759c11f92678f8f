/** How often one operation is promoted.

    A bundle is taken up again as long as its operation has no live row for it, even if another candidate of the same
    operation was completed in the meantime.  So an operation can have more than one generation in the ancestry.
 */
module PromotionRepeats {
  import opened Options
  import opened LedgerTypes
  import opened Leases
  import opened Promotion
  import opened PromotionInvariant
  import opened PromotionSteps
  import opened PromotionTheorems

  /** Some generation of the ancestry was promoted by the operation. */
  predicate OperationIn(op: Operation, g: GenId) {
    g.Gen? && (g.txn.op == op || OperationIn(op, g.parent))
  }

  /** Two generations of the ancestry were promoted by one operation. */
  predicate RepeatsOperation(g: GenId) {
    g.Gen? && (OperationIn(g.txn.op, g.parent) || RepeatsOperation(g.parent))
  }

  ghost predicate HasCompletedRow(wal: Wal, op: Operation) {
    exists t <- wal :: t.op == op && wal[t].state == Completed
  }

  lemma {:induction false} AncestorsOperation(t: TxnId, g: GenId)
    requires InChain(NextOf(t), g)
    ensures OperationIn(t.op, g)
    decreases g
  {
    if NextOf(t) != g {
      AncestorsOperation(t, g.parent);
    }
  }

  lemma {:induction false} OperationsRow(s: Ledger, op: Operation, g: GenId)
    requires ChainOk(s, g) && Settled(s, g) && (g.Gen? ==> !InChain(s.current, g.parent)) && OperationIn(op, g)
    ensures HasCompletedRow(s.wal, op)
    decreases g
  {
    if g.txn.op != op {
      StrictlyBelow(s, g.parent);
      OperationsRow(s, op, g.parent);
    }
  }

  /** Once CURRENT is settled, the operations in its ancestry are those with a completed row. */
  lemma InAncestryIffCompleted(s: Ledger, op: Operation)
    requires Shared(s) && Settled(s, s.current)
    ensures OperationIn(op, s.current) <==> HasCompletedRow(s.wal, op)
  {
    if OperationIn(op, s.current) {
      ChildNotInChain(s.current.txn);
      OperationsRow(s, op, s.current);
    }
    if HasCompletedRow(s.wal, op) {
      var t :| t in s.wal && t.op == op && s.wal[t].state == Completed;
      assert RowOk(s, t);
      AncestorsOperation(t, s.current);
    }
  }

  /** The step moves CURRENT for an operation that has a completed row. */
  ghost predicate SwapsAgain(sys: System, l: Label) {
    && l.Do? && l.w in sys.workers && Next(sys, l).Some?
    && Next(sys, l).value.ledger.current != sys.ledger.current
    && HasCompletedRow(sys.ledger.wal, sys.workers[l.w].prep.op)
  }

  ghost predicate SomeSwapAgain(sys: System, ls: seq<Label>)
    requires Exec(sys, ls).Some?
    decreases |ls|
  {
    ls != [] && (SomeSwapAgain(sys, ls[..|ls| - 1]) || SwapsAgain(Exec(sys, ls[..|ls| - 1]).value, ls[|ls| - 1]))
  }

  lemma StepRepeatsIff(sys: System, l: Label)
    requires Reachable(sys) && Next(sys, l).Some?
    ensures RepeatsOperation(Next(sys, l).value.ledger.current) <==>
      RepeatsOperation(sys.ledger.current) || SwapsAgain(sys, l)
  {
    hide Act;
    hide Apply;
    hide Reachable;
    hide Shared;
    hide WorkerInv;
    hide Holds;
    hide WellFormed;
    hide Settled;
    hide HasCompletedRow;
    ReachableInv(sys);
    var before, after := sys.ledger.current, Next(sys, l).value.ledger.current;
    if after != before {
      OnlySwapMoves(sys, l);
      PointerMovesToChild(sys, l);
      InAncestryIffCompleted(sys.ledger, sys.workers[l.w].prep.op);
    }
  }

  /** For every run from the empty ledger: an operation has two generations in the ancestry of CURRENT exactly if some
      step moved CURRENT for an operation that had a completed row. */
  lemma {:induction false} RunRepeatsIff(epoch: Epoch, ls: seq<Label>)
    requires Exec(Init(epoch), ls).Some?
    ensures RepeatsOperation(Exec(Init(epoch), ls).value.ledger.current) <==> SomeSwapAgain(Init(epoch), ls)
    decreases |ls|
  {
    hide Next;
    hide SwapsAgain;
    if ls != [] {
      var init := ls[..|ls| - 1];
      RunRepeatsIff(epoch, init);
      var before := Exec(Init(epoch), init).value;
      assert Reaches(Init(epoch), before);
      assert Reachable(before);
      StepRepeatsIff(before, ls[|ls| - 1]);
    }
  }
}
