/** The durable control database: leases, promotion rows, event outbox and operations.

    A method is one SQLite writer transaction.  A transaction that raises is rolled back: the
    method then reports failure and leaves every table as it was.  The lease methods are proved
    against the pure transactions of `Leases`, whose whole-run properties therefore hold of them.
 */
module ControlPlane {
  import opened Options
  import opened LedgerTypes
  import opened Leases
  import opened Promotion
  import opened PromotionInvariant

  class ControlDB {
    const epoch: Epoch
    var leases: LeaseTable
    var wal: Wal
    var nextRow: nat
    var outbox: map<TxnId, bool>
    var operations: map<Operation, OpRow>

    constructor (epoch: Epoch)
      ensures this.epoch == epoch && leases == map[] && wal == map[] && nextRow == 0
      ensures outbox == map[] && operations == map[] && Ordered()
    {
      this.epoch := epoch;
      leases, wal, nextRow, outbox, operations := map[], map[], 0, map[], map[];
    }

    /** Row identifiers of the promotion table are distinct and were handed out in order. */
    ghost predicate Ordered()
      reads this
    {
      && (forall t <- wal :: wal[t].rowid < nextRow)
      && (forall t <- wal, u <- wal :: wal[t].rowid == wal[u].rowid ==> t == u)
    }

    method AcquireLease(p: Partition, owner: WorkerId, ttl: int, now: int) returns (r: Option<LeaseToken>)
      modifies this`leases
      ensures
        var spec := Acquire(old(leases), epoch, p, owner, ttl, now);
        if spec.None? then r == None && leases == old(leases)
        else r == Some(spec.value.1) && leases == spec.value.0
      ensures r.Some? <==>
        ttl > 0 && (p !in old(leases) || old(leases)[p].owner in {None, Some(owner)} || old(leases)[p].expires <= now)
      ensures r.Some? ==>
        && r.value == LeaseToken(p, epoch, owner, r.value.token, now + ttl)
        && leases == old(leases)[p := LeaseRow(epoch, Some(owner), r.value.token, now + ttl)]
        && r.value.token ==
             if p !in old(leases) then 1
             else if old(leases)[p].owner == Some(owner) && old(leases)[p].expires > now then old(leases)[p].token
             else old(leases)[p].token + 1
    {
      if ttl <= 0 {
        return None;
      }
      var token;
      if p !in leases {
        token := 1;
      } else if leases[p].owner == Some(owner) && leases[p].expires > now {
        token := leases[p].token;
      } else if leases[p].owner == None || leases[p].expires <= now {
        token := leases[p].token + 1;
      } else {
        return None;
      }
      leases := leases[p := LeaseRow(epoch, Some(owner), token, now + ttl)];
      r := Some(LeaseToken(p, epoch, owner, token, now + ttl));
    }

    method VerifyLease(l: LeaseToken, now: int) returns (valid: bool)
      ensures valid == Valid(leases, l, now)
      ensures valid <==>
        && l.partition in leases && leases[l.partition].expires > now
        && leases[l.partition] == LeaseRow(l.epoch, Some(l.owner), l.token, leases[l.partition].expires)
    {
      valid := false;
      if l.partition in leases {
        var row := leases[l.partition];
        valid := row.epoch == l.epoch && row.owner == Some(l.owner) && row.token == l.token && row.expires > now;
      }
    }

    method RenewLease(l: LeaseToken, ttl: int, now: int) returns (r: Option<LeaseToken>)
      modifies this`leases
      ensures
        var spec := Renew(old(leases), l, ttl, now);
        if spec.None? then r == None && leases == old(leases)
        else r == Some(spec.value.1) && leases == spec.value.0
      ensures r.Some? <==> ttl > 0 && Valid(old(leases), l, now)
      ensures r.Some? ==>
        && r.value == l.(expires := now + ttl)
        && leases == old(leases)[l.partition := LeaseRow(l.epoch, Some(l.owner), l.token, now + ttl)]
        && forall at :: Valid(leases, l, at) <==> at < now + ttl
    {
      var valid := VerifyLease(l, now);
      if ttl <= 0 || !valid {
        return None;
      }
      leases := leases[l.partition := leases[l.partition].(expires := now + ttl)];
      r := Some(l.(expires := now + ttl));
    }

    /** Takes the writer lock and checks every fence, renewing each one that passed. */
    method HoldValidLeases(ls: seq<LeaseToken>, now: int, ttl: Option<int>) returns (r: Option<seq<LeaseToken>>)
      modifies this`leases
      ensures
        var spec := Hold(old(leases), ls, now, ttl);
        if ls == [] || (ttl.Some? && ttl.value <= 0) || spec.None? then r == None && leases == old(leases)
        else r == Some(spec.value.1) && leases == spec.value.0
      ensures r.Some? <==> ls != [] && (ttl.Some? ==> ttl.value > 0) && forall l <- ls :: Valid(old(leases), l, now)
      ensures r.Some? ==> leases.Keys == old(leases).Keys
      ensures r.Some? ==> forall p <- old(leases) ::
        leases[p] == if ttl.Some? && Covers(ls, p) then old(leases)[p].(expires := now + ttl.value) else old(leases)[p]
      ensures r.Some? ==> |r.value| == |ls| && forall i | 0 <= i < |ls| ::
        ls[i].partition in leases && r.value[i] == ls[i].(expires := leases[ls[i].partition].expires)
    {
      hide Covers;
      if ttl.Some? ==> ttl.value > 0 {
        HoldMeans(leases, ls, now, ttl);
      }
      if ls == [] || (ttl.Some? && ttl.value <= 0) {
        return None;
      }
      var before, renewed, i := leases, [], 0;
      while i < |ls|
        invariant 0 <= i <= |ls|
        invariant Hold(before, ls[..i], now, ttl) == Some((leases, renewed))
      {
        assert ls[..i + 1][..i] == ls[..i];
        var valid := VerifyLease(ls[i], now);
        if !valid {
          HoldPrefix(before, ls, i + 1, now, ttl);
          leases := before;
          return None;
        }
        var expires := leases[ls[i].partition].expires;
        if ttl.Some? {
          expires := now + ttl.value;
          leases := leases[ls[i].partition := leases[ls[i].partition].(expires := expires)];
        }
        renewed := renewed + [ls[i].(expires := expires)];
        i := i + 1;
      }
      assert ls[..|ls|] == ls;
      r := Some(renewed);
    }

    /** Extends the fences of a tuple inside a writer transaction that is already open. */
    method RenewHeldLeases(ls: seq<LeaseToken>, ttl: int, now: int) returns (r: Option<seq<LeaseToken>>)
      modifies this`leases
      ensures
        var spec := RenewHeld(old(leases), ls, ttl, now);
        if ls == [] || ttl <= 0 || spec.None? then r == None && leases == old(leases)
        else r == Some(spec.value.1) && leases == spec.value.0
      ensures r.Some? <==> ls != [] && ttl > 0 && forall l <- ls :: Matches(old(leases), l)
      ensures r.Some? ==> leases.Keys == old(leases).Keys
      ensures r.Some? ==> forall p <- old(leases) ::
        leases[p] == if Covers(ls, p) then old(leases)[p].(expires := now + ttl) else old(leases)[p]
      ensures r.Some? ==> |r.value| == |ls| && forall i | 0 <= i < |ls| :: r.value[i] == ls[i].(expires := now + ttl)
      ensures r.Some? ==> forall l <- ls, at :: Valid(leases, l, at) <==> at < now + ttl
    {
      hide Covers;
      RenewHeldMeans(leases, ls, ttl, now);
      if ls == [] || ttl <= 0 {
        return None;
      }
      var before, renewed, i := leases, [], 0;
      while i < |ls|
        invariant 0 <= i <= |ls|
        invariant RenewHeld(before, ls[..i], ttl, now) == Some((leases, renewed))
      {
        assert ls[..i + 1][..i] == ls[..i];
        if !Matches(leases, ls[i]) {
          RenewHeldPrefix(before, ls, i + 1, ttl, now);
          leases := before;
          return None;
        }
        leases := leases[ls[i].partition := leases[ls[i].partition].(expires := now + ttl)];
        renewed := renewed + [ls[i].(expires := now + ttl)];
        i := i + 1;
      }
      assert ls[..|ls|] == ls;
      r := Some(renewed);
    }

    method ReleaseLease(l: LeaseToken) returns (released: bool)
      modifies this`leases
      ensures leases == Release(old(leases), l)
      ensures released == Matches(old(leases), l)
      ensures leases ==
        if released then old(leases)[l.partition := LeaseRow(l.epoch, None, l.token, 0)] else old(leases)
    {
      released := Matches(leases, l);
      if released {
        leases := leases[l.partition := leases[l.partition].(owner := None, expires := 0)];
      }
    }

    /** Inserts a promotion row, or refreshes the authority of the one already there. */
    method StorePromotion(t: TxnId, now: int)
      requires Ordered()
      modifies this`wal, this`nextRow
      ensures Ordered()
      ensures t in old(wal) ==> wal == old(wal) && nextRow == old(nextRow)
      ensures t !in old(wal) ==> wal == old(wal)[t := WalRow(Prepared, now, old(nextRow))] && nextRow == old(nextRow) + 1
    {
      if t !in wal {
        wal := wal[t := WalRow(Prepared, now, nextRow)];
        nextRow := nextRow + 1;
      }
    }

    method UpdatePromotionState(t: TxnId, to: PromotionState) returns (ok: bool)
      modifies this`wal
      ensures ok == (t in old(wal) && (to == old(wal)[t].state || Legal(old(wal)[t].state, to)))
      ensures ok <==>
        && t in old(wal)
        && (|| to == old(wal)[t].state
            || (old(wal)[t].state, to) in {(Prepared, Committing), (Prepared, Aborted), (Committing, Committed),
                                           (Committing, Aborted), (Committed, Reconciling), (Reconciling, Completed)})
      ensures wal == if ok then old(wal)[t := old(wal)[t].(state := to)] else old(wal)
      ensures old(Ordered()) ==> Ordered()
    {
      ok := t in wal && (to == wal[t].state || Legal(wal[t].state, to));
      if ok {
        wal := wal[t := wal[t].(state := to)];
      }
    }

    /** The newest row of an operation that was not aborted; the choice is unique. */
    method PromotionForOperation(op: Operation) returns (r: Option<TxnId>)
      requires Ordered()
      ensures r == Latest(wal, op)
      ensures r == None <==> forall t <- wal :: t.op == op ==> wal[t].state == Aborted
      ensures r.Some? ==> IsLatest(wal, op, r.value)
      ensures r.Some? ==>
        && r.value in wal && r.value.op == op && wal[r.value].state != Aborted
        && forall t <- wal | t.op == op && wal[t].state != Aborted && t != r.value ::
             || wal[t].created < wal[r.value].created
             || (wal[t].created == wal[r.value].created && wal[t].rowid < wal[r.value].rowid)
    {
      LatestExists(wal, op);
      if t :| t in wal && IsLatest(wal, op, t) {
        LatestUnique(wal, op, t);
        r := Some(t);
      } else {
        r := None;
      }
    }

    method StoreEventOutbox(t: TxnId)
      modifies this`outbox
      ensures outbox == if t in old(outbox) then old(outbox) else old(outbox)[t := false]
    {
      if t !in outbox {
        outbox := outbox[t := false];
      }
    }

    method MarkEventAppended(t: TxnId)
      modifies this`outbox
      ensures outbox == if t in old(outbox) then old(outbox)[t := true] else old(outbox)
    {
      if t in outbox {
        outbox := outbox[t := true];
      }
    }

    /** Moves a row step by step to `target`; a row already past it is left alone. */
    method AdvancePromotionState(t: TxnId, target: PromotionState) returns (ok: bool)
      requires target != Aborted
      modifies this`wal
      ensures ok == (t in old(wal) && old(wal)[t].state != Aborted)
      ensures !ok ==> wal == old(wal)
      ensures ok ==> wal == MovedTo(old(wal), t, Furthest(old(wal)[t].state, target))
      ensures old(Ordered()) ==> Ordered()
    {
      if t !in wal || wal[t].state == Aborted {
        return false;
      }
      ghost var before := wal;
      while Order(wal[t].state) < Order(target)
        invariant t in wal && wal[t].state != Aborted
        invariant wal == before[t := before[t].(state := wal[t].state)]
        invariant Order(before[t].state) <= Order(wal[t].state)
        invariant Order(before[t].state) < Order(wal[t].state) ==> Order(wal[t].state) <= Order(target)
        decreases 5 - Order(wal[t].state)
      {
        var moved := UpdatePromotionState(t, Successor(wal[t].state));
        assert moved;
      }
      ok := true;
    }
  }

  function Furthest(a: PromotionState, b: PromotionState): (r: PromotionState)
    requires a != Aborted && b != Aborted
    ensures r != Aborted && Order(r) >= Order(a) && Order(r) >= Order(b) && (r == a || r == b)
  {
    if Order(a) < Order(b) then b else a
  }

  function MovedTo(wal: Wal, t: TxnId, to: PromotionState): Wal
    requires t in wal
  {
    wal[t := wal[t].(state := to)]
  }

  lemma HoldPrefix(t: LeaseTable, ls: seq<LeaseToken>, n: nat, now: int, ttl: Option<int>)
    requires n <= |ls| && Hold(t, ls[..n], now, ttl).None?
    ensures Hold(t, ls, now, ttl).None?
    decreases |ls|
  {
    if n < |ls| {
      assert ls[..|ls| - 1][..n] == ls[..n];
      HoldPrefix(t, ls[..|ls| - 1], n, now, ttl);
    } else {
      assert ls[..n] == ls;
    }
  }

  lemma RenewHeldPrefix(t: LeaseTable, ls: seq<LeaseToken>, n: nat, ttl: int, now: int)
    requires n <= |ls| && RenewHeld(t, ls[..n], ttl, now).None?
    ensures RenewHeld(t, ls, ttl, now).None?
    decreases |ls|
  {
    if n < |ls| {
      assert ls[..|ls| - 1][..n] == ls[..n];
      RenewHeldPrefix(t, ls[..|ls| - 1], n, ttl, now);
    } else {
      assert ls[..n] == ls;
    }
  }

  lemma NewestAmong(wal: Wal, among: set<TxnId>) returns (t: TxnId)
    requires among != {} && among <= wal.Keys
    ensures t in among && forall u <- among :: !Newer(wal[u], wal[t])
    decreases |among|
  {
    t :| t in among;
    var rest := among - {t};
    if rest != {} {
      var y := NewestAmong(wal, rest);
      if !Newer(wal[t], wal[y]) {
        t := y;
      }
    }
  }

  /** An operation with a row that was not aborted has a newest such row. */
  lemma LatestExists(wal: Wal, op: Operation)
    ensures (exists t :: IsLatest(wal, op, t)) <==> exists t <- wal :: t.op == op && wal[t].state != Aborted
  {
    var live := set t | t in wal && t.op == op && wal[t].state != Aborted;
    assert forall t :: IsLatest(wal, op, t) ==> t in live;
    assert forall t <- wal :: t.op == op && wal[t].state != Aborted ==> t in live;
    if live != {} {
      var t := NewestAmong(wal, live);
      assert IsLatest(wal, op, t);
    }
  }

  lemma LatestUnique(wal: Wal, op: Operation, t: TxnId)
    requires forall t <- wal, u <- wal :: wal[t].rowid == wal[u].rowid ==> t == u
    requires IsLatest(wal, op, t)
    ensures Latest(wal, op) == Some(t)
  {
    var u := Latest(wal, op).value;
    assert !Newer(wal[u], wal[t]) && !Newer(wal[t], wal[u]);
  }
}
