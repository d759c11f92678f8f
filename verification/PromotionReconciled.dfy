/** How long CURRENT stays reconciled.

    A worker checks that CURRENT is reconciled before it prepares a successor, but the operation row
    and the run manifest are written without a fence, and so is the marker by a rebuild of the index: a
    worker that lost its leases, or a caller that never had one, may still take them back.  The steps
    that do so, and the steps that close what they reopened, are listed here exactly.
 */
module PromotionReconciled {
  import opened Options
  import opened LedgerTypes
  import opened Leases
  import opened Promotion
  import opened PromotionInvariant
  import opened PromotionSteps
  import PromotionTheorems

  /** The parts of a reconciliation that some step can take back. */
  datatype Part = OperationRow | RunManifest | Marker

  predicate Done(s: Ledger, g: GenId, part: Part)
    requires g.Gen?
  {
    match part
    case OperationRow => OperationDone(s, g.txn.op)
    case RunManifest => g.txn.op in s.manifests && s.manifests[g.txn.op] == Manifest(RunSucceeded, g.txn)
    case Marker => s.marker == Some(g)
  }

  /** An action of `wk` reopens a part of `g`. */
  predicate Reopens(wk: Worker, g: GenId, part: Part)
    requires g.Gen?
  {
    && wk.prep.op == g.txn.op
    && match part
       case OperationRow => wk.pc == SetReconciling
       case RunManifest =>
         || wk.pc == RebaseManifest
         || (wk.pc == SetManifest && wk.prep != g.txn)
         || (wk.pc == NoopManifest && wk.active.Gen? && wk.active.txn != g.txn)
       case Marker => false
  }

  /** An action of `wk` closes a part of CURRENT. */
  predicate Closes(wk: Worker, g: GenId, part: Part)
    requires g.Gen?
  {
    match part
    case OperationRow => wk.prep.op == g.txn.op && (wk.pc == SetSucceeded || wk.pc == NoopOperation)
    case RunManifest =>
      || (wk.pc == SetManifest && wk.prep == g.txn)
      || (wk.pc == NoopManifest && wk.prep.op == g.txn.op && wk.active.Gen? && wk.active.txn == g.txn)
    case Marker => wk.pc == Materialize
  }

  /** The steps that reopen a part of the generation CURRENT points at. */
  predicate StepReopens(sys: System, l: Label, part: Part)
    requires sys.ledger.current.Gen?
  {
    var g := sys.ledger.current;
    match l
    case Stage(op, _, _) => op == g.txn.op && part == RunManifest
    case PrepareRun(op) => op == g.txn.op && part == RunManifest
    case AwaitRun(op) => op == g.txn.op && part == RunManifest
    case AwaitOperation(op) => op == g.txn.op && part == OperationRow
    case Rebuild(h) => h != g && part == Marker
    case Do(w, _, _) => w in sys.workers && Reopens(sys.workers[w], g, part)
    case _ => false
  }

  /** The steps that close one. */
  predicate StepCloses(sys: System, l: Label, part: Part)
    requires sys.ledger.current.Gen?
  {
    var g := sys.ledger.current;
    match l
    case Rebuild(h) => h == g && part == Marker
    case Do(w, _, _) => w in sys.workers && Closes(sys.workers[w], g, part)
    case _ => false
  }

  /** What an action writes of the parts. */
  lemma ActWrites(s: Ledger, w: WorkerId, wk: Worker, now: int, ttl: int)
    requires !Act(s, w, wk, now, ttl).Raises?
    ensures
      var e := Act(s, w, wk, now, ttl).effect;
      && (e.WriteOperation? <==> wk.pc == SetReconciling || wk.pc == SetSucceeded || wk.pc == NoopOperation)
      && (e.WriteOperation? ==>
            e.op == wk.prep.op && (e.opRow.state == Succeeded && e.opRow.result.Some? <==> wk.pc != SetReconciling))
      && (e.WriteManifest? <==> wk.pc == RebaseManifest || wk.pc == SetManifest || wk.pc == NoopManifest)
      && (e.WriteManifest? ==> e.op == wk.prep.op && (wk.pc == NoopManifest ==> wk.active.Gen?))
      && (e.WriteManifest? ==>
            e.manifest == if wk.pc == RebaseManifest then Manifest(RunPrepared, wk.prep)
                          else Manifest(RunSucceeded, if wk.pc == SetManifest then wk.prep else wk.active.txn))
      && (e.SetMarker? <==> wk.pc == Materialize) && (e.SetMarker? ==> e.gen == s.current)
  {
    hide Latest;
    hide Reconciled;
    hide Acquire;
    hide ActiveClaim;
    hide Holds;
    hide NextOf;
    hide Rebase;
    hide Release;
    hide EventsResolved;
  }

  /** What an effect makes of a part, if it writes it. */
  function Written(e: Effect, g: GenId, part: Part): Option<bool>
    requires g.Gen?
  {
    match part
    case OperationRow =>
      if e.WriteOperation? && e.op == g.txn.op then Some(e.opRow.state == Succeeded && e.opRow.result.Some?) else None
    case RunManifest =>
      if e.WriteManifest? && e.op == g.txn.op then Some(e.manifest == Manifest(RunSucceeded, g.txn)) else None
    case Marker => if e.SetMarker? then Some(e.gen == g) else None
  }

  lemma ApplyTurns(s: Ledger, e: Effect, g: GenId, part: Part)
    requires g.Gen?
    ensures Done(Apply(s, e), g, part) == if Written(e, g, part).Some? then Written(e, g, part).value else Done(s, g, part)
  {
  }

  lemma ActTurns(s: Ledger, w: WorkerId, wk: Worker, now: int, ttl: int, part: Part)
    requires s.current.Gen? && !Act(s, w, wk, now, ttl).Raises?
    ensures !(Reopens(wk, s.current, part) && Closes(wk, s.current, part))
    ensures Done(Apply(s, Act(s, w, wk, now, ttl).effect), s.current, part) <==>
      Closes(wk, s.current, part) || (Done(s, s.current, part) && !Reopens(wk, s.current, part))
  {
    hide Act;
    hide Apply;
    hide Done;
    ActWrites(s, w, wk, now, ttl);
    ApplyTurns(s, Act(s, w, wk, now, ttl).effect, s.current, part);
  }

  lemma OutsideTurns(sys: System, l: Label, part: Part)
    requires sys.ledger.current.Gen? && WritesOutside(l) && OutsideWrite(sys.ledger, l).Some?
    ensures Done(Apply(sys.ledger, OutsideWrite(sys.ledger, l).value), sys.ledger.current, part) <==>
      StepCloses(sys, l, part) || (Done(sys.ledger, sys.ledger.current, part) && !StepReopens(sys, l, part))
  {
    hide Apply;
    hide Done;
    hide InChain;
    hide EventsResolved;
    ApplyTurns(sys.ledger, OutsideWrite(sys.ledger, l).value, sys.ledger.current, part);
  }

  /** What one step makes of a part of CURRENT. */
  lemma StepTurns(sys: System, l: Label, part: Part)
    requires sys.ledger.current.Gen? && Next(sys, l).Some?
    ensures !(StepReopens(sys, l, part) && StepCloses(sys, l, part))
    ensures Done(Next(sys, l).value.ledger, sys.ledger.current, part) <==>
      StepCloses(sys, l, part) || (Done(sys.ledger, sys.ledger.current, part) && !StepReopens(sys, l, part))
  {
    hide Act;
    hide Apply;
    hide OutsideWrite;
    hide Reopens;
    hide Closes;
    hide CandidateTxn;
    var s := sys.ledger;
    if l.Do? {
      ActTurns(s, l.w, sys.workers[l.w], l.now, l.ttl, part);
    } else if WritesOutside(l) {
      OutsideTurns(sys, l, part);
    } else if l.Renewal? {
      ApplyTurns(s, SetLeases(Renewed(s, sys.workers[l.w], l.now, l.ttl).value), s.current, part);
    }
  }

  /** A generation with a row is reconciled when it is settled and its three parts are done. */
  lemma ReconciledIffDone(s: Ledger, g: GenId)
    requires g.Gen? && g.txn in s.wal
    ensures Reconciled(s, g) <==> Settled(s, g) && forall part :: Done(s, g, part)
  {
    assert (forall part :: Done(s, g, part)) <==> Done(s, g, OperationRow) && Done(s, g, RunManifest) && Done(s, g, Marker);
  }

  lemma SettledStays(sys: System, l: Label, g: GenId)
    requires Inv(sys) && Next(sys, l).Some? && Settled(sys.ledger, g)
    ensures Settled(Next(sys, l).value.ledger, g)
  {
    hide Next;
    hide InChain;
    PromotionTheorems.StepGrowsLedger(sys, l);
  }

  /** The steps after which CURRENT is no longer reconciled. */
  ghost predicate Undoes(sys: System, l: Label) {
    sys.ledger.current.Gen? && exists part :: StepReopens(sys, l, part)
  }

  lemma CurrentHasRow(sys: System)
    requires Inv(sys) && sys.ledger.current.Gen?
    ensures sys.ledger.current.txn in sys.ledger.wal
  {
  }

  /** While CURRENT does not move it stays reconciled exactly through the steps that do not undo it. */
  lemma StaysReconciledIff(sys: System, l: Label)
    requires Inv(sys) && Next(sys, l).Some? && Reconciled(sys.ledger, sys.ledger.current)
    requires Next(sys, l).value.ledger.current == sys.ledger.current
    ensures Reconciled(Next(sys, l).value.ledger, sys.ledger.current) <==> !Undoes(sys, l)
  {
    hide Next;
    hide Inv;
    hide Done;
    hide Settled;
    hide StepReopens;
    hide StepCloses;
    var after, g := Next(sys, l).value, sys.ledger.current;
    if g.Gen? {
      StepKeepsInv(sys, l);
      CurrentHasRow(sys);
      CurrentHasRow(after);
      ReconciledIffDone(sys.ledger, g);
      ReconciledIffDone(after.ledger, g);
      SettledStays(sys, l, g);
      forall part
        ensures Done(after.ledger, g, part) <==> !StepReopens(sys, l, part)
      {
        StepTurns(sys, l, part);
      }
    }
  }

  // ---------------------------------------------------------------- the marker

  /** The marker names a generation of the ancestry whose events, and those of its ancestors, are all published. */
  ghost predicate MarkerOk(s: Ledger) {
    s.marker.Some? ==> InChain(s.marker.value, s.current) && EventsResolved(s.events, s.marker.value)
  }

  lemma {:induction false} ResolvedGrows(a: Ledger, b: Ledger, g: GenId)
    requires EventsResolved(a.events, g) && Grows(a, b)
    ensures EventsResolved(b.events, g)
    decreases g
  {
    hide InChain;
    if g.Gen? {
      ResolvedGrows(a, b, g.parent);
    }
  }

  lemma MarkerWrites(s: Ledger, e: Effect)
    ensures Apply(s, e).marker == if e.SetMarker? then Some(e.gen) else s.marker
  {
  }

  lemma MaterializeResolves(s: Ledger, w: WorkerId, wk: Worker, now: int, ttl: int)
    requires wk.pc == Materialize && !Act(s, w, wk, now, ttl).Raises?
    ensures EventsResolved(s.events, s.current)
  {
    hide Holds;
    hide NextOf;
  }

  lemma MarkerChanges(sys: System, l: Label)
    requires Next(sys, l).Some?
    ensures
      var s, after := sys.ledger, Next(sys, l).value.ledger;
      || after.marker == s.marker
      || (after.marker.Some? && InChain(after.marker.value, s.current) && EventsResolved(s.events, after.marker.value))
  {
    hide Act;
    hide Apply;
    hide EventsResolved;
    hide CandidateTxn;
    hide Holds;
    hide Renewed;
    var s := sys.ledger;
    if l.Do? {
      var wk := sys.workers[l.w];
      ActWrites(s, l.w, wk, l.now, l.ttl);
      MarkerWrites(s, Act(s, l.w, wk, l.now, l.ttl).effect);
      if wk.pc == Materialize {
        MaterializeResolves(s, l.w, wk, l.now, l.ttl);
        StaysTheSame(s);
      }
    } else if WritesOutside(l) {
      MarkerWrites(s, OutsideWrite(s, l).value);
    } else if l.Renewal? {
      MarkerWrites(s, SetLeases(Renewed(s, sys.workers[l.w], l.now, l.ttl).value));
    }
  }

  lemma {:induction false} RunKeepsMarker(sys: System, ls: seq<Label>)
    requires Inv(sys) && MarkerOk(sys.ledger) && Exec(sys, ls).Some?
    ensures MarkerOk(Exec(sys, ls).value.ledger)
    decreases |ls|
  {
    hide Next;
    hide Inv;
    if ls != [] {
      var init, l := ls[..|ls| - 1], ls[|ls| - 1];
      RunKeepsMarker(sys, init);
      RunKeepsInv(sys, init);
      var before, after := Exec(sys, init).value, Exec(sys, ls).value;
      PromotionTheorems.StepGrowsLedger(before, l);
      MarkerChanges(before, l);
      if after.ledger.marker.Some? {
        var g := after.ledger.marker.value;
        ResolvedGrows(before.ledger, after.ledger, g);
        InChainTransitive(g, before.ledger.current, after.ledger.current);
      }
    }
  }

  /** In every reachable state the marker names CURRENT or an ancestor, with the events of its whole ancestry published. */
  lemma MarkerNamesResolved(sys: System)
    requires Reachable(sys)
    ensures
      var s := sys.ledger;
      s.marker.Some? ==> InChain(s.marker.value, s.current) && EventsResolved(s.events, s.marker.value)
  {
    hide Next;
    var epoch :| Reaches(Init(epoch), sys);
    var ls :| Exec(Init(epoch), ls) == Some(sys);
    InitInv(epoch);
    RunKeepsMarker(Init(epoch), ls);
  }

  // ---------------------------------------------------------------- every swap was preceded by its check

  /** The state after the first `k` steps of a run. */
  ghost function StateAt(sys: System, ls: seq<Label>, k: nat): System
    requires k <= |ls| && Exec(sys, ls).Some?
  {
    PrefixRuns(sys, ls, k);
    Exec(sys, ls[..k]).value
  }

  lemma {:induction false} PrefixRuns(sys: System, ls: seq<Label>, k: nat)
    requires k <= |ls| && Exec(sys, ls).Some?
    ensures Exec(sys, ls[..k]).Some?
    decreases |ls|
  {
    hide Next;
    if k == |ls| {
      assert ls[..k] == ls;
    } else {
      var init := ls[..|ls| - 1];
      PrefixRuns(sys, init, k);
      assert init[..k] == ls[..k];
    }
  }

  /** The states of a run do not change when it goes on. */
  lemma StateAtPrefix(sys: System, ls: seq<Label>, k: nat)
    requires ls != [] && k < |ls| && Exec(sys, ls).Some?
    ensures Exec(sys, ls[..|ls| - 1]).Some? && StateAt(sys, ls[..|ls| - 1], k) == StateAt(sys, ls, k)
  {
    hide Next;
    var init := ls[..|ls| - 1];
    PrefixRuns(sys, ls, |ls| - 1);
    assert init[..k] == ls[..k];
  }

  lemma NextState(sys: System, ls: seq<Label>, k: nat)
    requires k < |ls| && Exec(sys, ls).Some?
    ensures Next(StateAt(sys, ls, k), ls[k]) == Some(StateAt(sys, ls, k + 1))
  {
    hide Next;
    PrefixRuns(sys, ls, k + 1);
    assert ls[..k + 1][..k] == ls[..k];
  }

  /** Step `c` of the run is worker `w` passing its check on a reconciled generation `g`. */
  ghost predicate ChecksAt(sys: System, ls: seq<Label>, c: nat, w: WorkerId, g: GenId)
    requires c < |ls| && Exec(sys, ls).Some?
  {
    var s, l := StateAt(sys, ls, c), ls[c];
    && l.Do? && l.w == w && w in s.workers && s.workers[w].pc == Check && s.workers[w].active == g
    && Reconciled(s.ledger, g)
  }

  ghost predicate Checked(sys: System, ls: seq<Label>, w: WorkerId, g: GenId)
    requires Exec(sys, ls).Some?
  {
    exists c: nat | c < |ls| :: ChecksAt(sys, ls, c, w, g)
  }

  lemma CheckedGoesOn(sys: System, ls: seq<Label>, w: WorkerId, g: GenId)
    requires ls != [] && Exec(sys, ls).Some? && Exec(sys, ls[..|ls| - 1]).Some? && Checked(sys, ls[..|ls| - 1], w, g)
    ensures Checked(sys, ls, w, g)
  {
    hide Next;
    var init := ls[..|ls| - 1];
    var c: nat :| c < |init| && ChecksAt(sys, init, c, w, g);
    StateAtPrefix(sys, ls, c);
    assert ChecksAt(sys, ls, c, w, g);
  }

  lemma ReadsPastCheck(s: Ledger, wk: Worker)
    requires PhaseOf(wk.pc) == Reading && ReadAction(s, wk).Goes? && 5 <= Rank(ReadAction(s, wk).worker.pc) <= 16
    ensures
      var next := ReadAction(s, wk).worker;
      && next.active == wk.active
      && (wk.pc == Check ==> next.prep == wk.prep && (Reconciled(s, wk.active) || wk.active == NextOf(wk.prep)))
      && (wk.pc != Check ==> wk.pc == Decide && (next.prep == wk.prep || wk.active != NextOf(wk.prep)))
  {
    hide Latest;
    hide Reconciled;
    hide ActiveClaim;
    hide NextOf;
    hide Rebase;
  }

  /** A worker between the check and the swap got there through the check, and kept what it found active. */
  lemma PastCheck(s: Ledger, w: WorkerId, wk: Worker, now: int, ttl: int)
    requires Act(s, w, wk, now, ttl).Goes? && 5 <= Rank(Act(s, w, wk, now, ttl).worker.pc) <= 16
    ensures
      var next := Act(s, w, wk, now, ttl).worker;
      && next.active == wk.active
      && (wk.pc == Check ==> next.prep == wk.prep && (Reconciled(s, wk.active) || wk.active == NextOf(wk.prep)))
      && (wk.pc != Check ==> 5 <= Rank(wk.pc) <= 16 && (next.prep == wk.prep || wk.active != NextOf(wk.prep)))
  {
    hide Latest;
    hide Reconciled;
    hide Acquire;
    hide ReadAction;
    hide Holds;
    hide NextOf;
    hide Release;
    hide EventsResolved;
    if PhaseOf(wk.pc) == Reading {
      ReadsPastCheck(s, wk);
    }
  }

  /** A worker that did not act, or was not there, before the step. */
  lemma OthersStand(sys: System, l: Label, w: WorkerId)
    requires Next(sys, l).Some? && w in Next(sys, l).value.workers && 5 <= Rank(Next(sys, l).value.workers[w].pc) <= 16
    ensures w in sys.workers
    ensures !(l.Do? && l.w == w) ==> Next(sys, l).value.workers[w] == sys.workers[w]
    ensures l.Do? && l.w == w ==>
      var o := Act(sys.ledger, w, sys.workers[w], l.now, l.ttl);
      o.Goes? && o.worker == Next(sys, l).value.workers[w]
  {
    hide Act;
    hide Apply;
  }

  lemma {:induction false} SwappersWereChecked(sys: System, ls: seq<Label>, w: WorkerId)
    requires sys.workers == map[] && Exec(sys, ls).Some? && w in Exec(sys, ls).value.workers
    requires 5 <= Rank(Exec(sys, ls).value.workers[w].pc) <= 16
    ensures
      var wk := Exec(sys, ls).value.workers[w];
      wk.active == NextOf(wk.prep) || Checked(sys, ls, w, wk.active)
    decreases |ls|
  {
    hide Next;
    hide Act;
    hide Reconciled;
    hide NextOf;
    if ls != [] {
      var init, l := ls[..|ls| - 1], ls[|ls| - 1];
      var before, wk := Exec(sys, init).value, Exec(sys, ls).value.workers[w];
      OthersStand(before, l, w);
      var was := before.workers[w];
      if l.Do? && l.w == w {
        PastCheck(before.ledger, w, was, l.now, l.ttl);
      }
      if l.Do? && l.w == w && was.pc == Check {
        assert init == ls[..|init|];
        if Reconciled(before.ledger, was.active) {
          assert ChecksAt(sys, ls, |init|, w, wk.active);
        }
      } else {
        SwappersWereChecked(sys, init, w);
        if Checked(sys, init, w, wk.active) {
          CheckedGoesOn(sys, ls, w, wk.active);
        }
      }
    }
  }

  lemma {:induction false} PointerDescends(sys: System, ls: seq<Label>, j: nat, k: nat)
    requires Inv(sys) && Exec(sys, ls).Some? && j <= k <= |ls|
    ensures InChain(StateAt(sys, ls, j).ledger.current, StateAt(sys, ls, k).ledger.current)
    decreases k
  {
    hide Next;
    hide Inv;
    if j < k {
      PointerDescends(sys, ls, j, k - 1);
      PrefixRuns(sys, ls, k - 1);
      RunKeepsInv(sys, ls[..k - 1]);
      NextState(sys, ls, k - 1);
      PromotionTheorems.StepGrowsLedger(StateAt(sys, ls, k - 1), ls[k - 1]);
      InChainTransitive(StateAt(sys, ls, j).ledger.current, StateAt(sys, ls, k - 1).ledger.current, StateAt(sys, ls, k).ledger.current);
    } else {
      StaysTheSame(StateAt(sys, ls, j).ledger);
    }
  }

  /** Between two moments at which CURRENT is the same it is the same. */
  lemma PointerBetween(sys: System, ls: seq<Label>, c: nat, k: nat, g: GenId)
    requires Inv(sys) && Exec(sys, ls).Some? && c <= k <= |ls|
    requires InChain(g, StateAt(sys, ls, c).ledger.current) && Exec(sys, ls).value.ledger.current == g
    ensures StateAt(sys, ls, k).ledger.current == g
  {
    hide Next;
    hide Inv;
    assert ls[..|ls|] == ls;
    PointerDescends(sys, ls, c, k);
    PointerDescends(sys, ls, k, |ls|);
    InChainDepth(g, StateAt(sys, ls, c).ledger.current);
    InChainDepth(StateAt(sys, ls, c).ledger.current, StateAt(sys, ls, k).ledger.current);
    InChainDepth(StateAt(sys, ls, k).ledger.current, g);
  }

  lemma SwapperIsNotOwn(s: Ledger, w: WorkerId, wk: Worker, now: int)
    requires WorkerInv(s, w, wk) && wk.pc == Swap && Holds(s, wk, now) && s.current == wk.prep.parent
    ensures wk.active == s.current && wk.active != NextOf(wk.prep)
  {
    ChildNotInChain(wk.prep);
    assert InChain(wk.prep.parent, wk.prep.parent);
  }

  lemma CheckedActive(sys: System, ls: seq<Label>, c: nat, w: WorkerId, g: GenId)
    requires Inv(sys) && Exec(sys, ls).Some? && c < |ls| && ChecksAt(sys, ls, c, w, g)
    ensures InChain(g, StateAt(sys, ls, c).ledger.current)
  {
    hide Next;
    hide Inv;
    hide WorkerInv;
    hide Reconciled;
    hide InChain;
    PrefixRuns(sys, ls, c);
    RunKeepsInv(sys, ls[..c]);
    var s := StateAt(sys, ls, c);
    WorkersInv(s, w);
    ActiveInChain(s.ledger, w, s.workers[w]);
  }

  lemma ActiveInChain(s: Ledger, w: WorkerId, wk: Worker)
    requires WorkerInv(s, w, wk) && wk.pc == Check
    ensures InChain(wk.active, s.current)
  {
    hide InChain;
    hide NextOf;
    hide WritesOk;
    hide BundleOk;
    hide TokensOk;
    hide FenceOk;
  }

  /** For every run and every step that moves CURRENT: the worker that swaps passed its check at an earlier step of
      the run, and at that moment the generation it now leaves was CURRENT and fully reconciled. */
  lemma SwapWasChecked(epoch: Epoch, ls: seq<Label>, l: Label) returns (c: nat)
    requires Exec(Init(epoch), ls).Some? && Next(Exec(Init(epoch), ls).value, l).Some?
    requires Next(Exec(Init(epoch), ls).value, l).value.ledger.current != Exec(Init(epoch), ls).value.ledger.current
    ensures l.Do? && c < |ls|
    ensures
      var g := Exec(Init(epoch), ls).value.ledger.current;
      ChecksAt(Init(epoch), ls, c, l.w, g) && forall k | c <= k <= |ls| :: StateAt(Init(epoch), ls, k).ledger.current == g
  {
    hide Next;
    hide Inv;
    hide Reconciled;
    hide Holds;
    hide NextOf;
    hide WorkerInv;
    var sys := Init(epoch);
    InitInv(epoch);
    RunKeepsInv(sys, ls);
    var before := Exec(sys, ls).value;
    var g := before.ledger.current;
    PromotionTheorems.OnlySwapMoves(before, l);
    WorkersInv(before, l.w);
    SwapperIsNotOwn(before.ledger, l.w, before.workers[l.w], l.now);
    SwappersWereChecked(sys, ls, l.w);
    c :| c < |ls| && ChecksAt(sys, ls, c, l.w, g);
    CheckedActive(sys, ls, c, l.w, g);
    forall k | c <= k <= |ls|
      ensures StateAt(sys, ls, k).ledger.current == g
    {
      PointerBetween(sys, ls, c, k, g);
    }
  }

  lemma InitInv(epoch: Epoch)
    ensures Inv(Init(epoch)) && Init(epoch).workers == map[]
  {
  }

  lemma WorkersInv(sys: System, w: WorkerId)
    requires Inv(sys) && w in sys.workers
    ensures WorkerInv(sys.ledger, w, sys.workers[w])
  {
  }

  // ---------------------------------------------------------------- what a swap leaves

  /** Step `k` of the run closes the part; step `k` reopens it. */
  ghost predicate ClosesAt(sys: System, ls: seq<Label>, k: nat, part: Part)
    requires k < |ls| && Exec(sys, ls).Some?
  {
    StateAt(sys, ls, k).ledger.current.Gen? && StepCloses(StateAt(sys, ls, k), ls[k], part)
  }

  ghost predicate ReopensAt(sys: System, ls: seq<Label>, k: nat, part: Part)
    requires k < |ls| && Exec(sys, ls).Some?
  {
    StateAt(sys, ls, k).ledger.current.Gen? && StepReopens(StateAt(sys, ls, k), ls[k], part)
  }

  /** Every step from `c` to before `n` that reopens the part is followed by one that closes it. */
  ghost predicate ClosedAgain(sys: System, ls: seq<Label>, c: nat, n: nat, part: Part)
    requires n <= |ls| && Exec(sys, ls).Some?
  {
    forall j: nat | c <= j < n && ReopensAt(sys, ls, j, part) :: exists k: nat | j < k < n :: ClosesAt(sys, ls, k, part)
  }

  /** CURRENT is `g` from step `c` to step `n`. */
  ghost predicate Stands(sys: System, ls: seq<Label>, c: nat, n: nat, g: GenId)
    requires n <= |ls| && Exec(sys, ls).Some?
  {
    forall k: nat | c <= k <= n :: StateAt(sys, ls, k).ledger.current == g
  }

  lemma {:induction false} DoneIffClosedAgain(sys: System, ls: seq<Label>, c: nat, n: nat, g: GenId, part: Part)
    requires Exec(sys, ls).Some? && c <= n <= |ls| && g.Gen? && Stands(sys, ls, c, n, g)
    requires Done(StateAt(sys, ls, c).ledger, g, part)
    ensures Done(StateAt(sys, ls, n).ledger, g, part) <==> ClosedAgain(sys, ls, c, n, part)
    decreases n
  {
    hide Next;
    hide Done;
    hide StepReopens;
    hide StepCloses;
    hide StateAt;
    if c < n {
      var m := n - 1;
      DoneIffClosedAgain(sys, ls, c, m, g, part);
      NextState(sys, ls, m);
      StepTurns(StateAt(sys, ls, m), ls[m], part);
      if ClosesAt(sys, ls, m, part) {
        assert ClosedAgain(sys, ls, c, n, part);
      } else if ReopensAt(sys, ls, m, part) {
        assert !ClosedAgain(sys, ls, c, n, part);
      } else if ClosedAgain(sys, ls, c, n, part) {
        forall j: nat | c <= j < m && ReopensAt(sys, ls, j, part)
          ensures exists k: nat | j < k < m :: ClosesAt(sys, ls, k, part)
        {
          var k: nat :| j < k < n && ClosesAt(sys, ls, k, part);
        }
      }
    }
  }

  lemma {:induction false} SettledThroughRun(sys: System, ls: seq<Label>, c: nat, n: nat, g: GenId)
    requires Inv(sys) && Exec(sys, ls).Some? && c <= n <= |ls| && Settled(StateAt(sys, ls, c).ledger, g)
    ensures Settled(StateAt(sys, ls, n).ledger, g)
    decreases n
  {
    hide Next;
    hide Inv;
    hide Settled;
    if c < n {
      SettledThroughRun(sys, ls, c, n - 1, g);
      PrefixRuns(sys, ls, n - 1);
      RunKeepsInv(sys, ls[..n - 1]);
      NextState(sys, ls, n - 1);
      SettledStays(StateAt(sys, ls, n - 1), ls[n - 1], g);
    }
  }

  lemma ReconciledThroughRunIff(sys: System, ls: seq<Label>, c: nat, g: GenId)
    requires Inv(sys) && Exec(sys, ls).Some? && c <= |ls| && g.Gen? && Stands(sys, ls, c, |ls|, g)
    requires Reconciled(StateAt(sys, ls, c).ledger, g)
    ensures Reconciled(Exec(sys, ls).value.ledger, g) <==> forall part :: ClosedAgain(sys, ls, c, |ls|, part)
  {
    hide Next;
    hide Inv;
    hide Settled;
    hide Done;
    hide Reconciled;
    hide ClosedAgain;
    PrefixRuns(sys, ls, c);
    RunKeepsInv(sys, ls[..c]);
    RunKeepsInv(sys, ls);
    assert ls[..|ls|] == ls;
    CurrentHasRow(StateAt(sys, ls, c));
    CurrentHasRow(StateAt(sys, ls, |ls|));
    ReconciledIffDone(StateAt(sys, ls, c).ledger, g);
    ReconciledIffDone(StateAt(sys, ls, |ls|).ledger, g);
    SettledThroughRun(sys, ls, c, |ls|, g);
    forall part
      ensures Done(StateAt(sys, ls, |ls|).ledger, g, part) <==> ClosedAgain(sys, ls, c, |ls|, part)
    {
      DoneIffClosedAgain(sys, ls, c, |ls|, g, part);
    }
  }

  /** What CURRENT leaves, for every run from the empty ledger and every step that moves it: the worker that swaps found
      the generation fully reconciled at its check, and leaves it fully reconciled (event, outbox, row, operation,
      run and materialization) exactly if each later step that reopened its operation row, its run manifest or the
      marker is followed by a step that closed that part. */
  lemma SwapLeavesReconciledIff(epoch: Epoch, ls: seq<Label>, l: Label) returns (c: nat)
    requires Exec(Init(epoch), ls).Some? && Next(Exec(Init(epoch), ls).value, l).Some?
    requires Next(Exec(Init(epoch), ls).value, l).value.ledger.current != Exec(Init(epoch), ls).value.ledger.current
    ensures l.Do? && c < |ls|
    ensures
      var before := Exec(Init(epoch), ls).value.ledger;
      && ChecksAt(Init(epoch), ls, c, l.w, before.current)
      && (Reconciled(before, before.current) <==> forall part :: ClosedAgain(Init(epoch), ls, c, |ls|, part))
  {
    hide Next;
    hide Inv;
    hide Init;
    hide Done;
    var sys := Init(epoch);
    c := SwapWasChecked(epoch, ls, l);
    InitInv(epoch);
    var g := Exec(sys, ls).value.ledger.current;
    assert Stands(sys, ls, c, |ls|, g);
    if g.Gen? {
      ReconciledThroughRunIff(sys, ls, c, g);
    }
  }
}
