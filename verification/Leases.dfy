/** Fenced leases of the control database, as pure transactions over the lease table.

    Clock readings are arbitrary integers supplied with each call: nothing below assumes that time
    moves forward.  A transaction that raises leaves the table unchanged.
 */
module Leases {
  import opened Options
  import opened LedgerTypes

  type WorkerId = nat
  type Epoch = nat

  datatype Partition =
    | LedgerCurrent
    | SourcePartition(source: SourceId)

  datatype LeaseRow = LeaseRow(epoch: Epoch, owner: Option<WorkerId>, token: int, expires: int)

  datatype LeaseToken =
    LeaseToken(partition: Partition, epoch: Epoch, owner: WorkerId, token: int, expires: int)

  type LeaseTable = map<Partition, LeaseRow>

  /** The fence of a lease: the row still carries this epoch, owner and token. */
  predicate Matches(t: LeaseTable, l: LeaseToken) {
    && l.partition in t
    && t[l.partition].epoch == l.epoch
    && t[l.partition].owner == Some(l.owner)
    && t[l.partition].token == l.token
  }

  predicate Valid(t: LeaseTable, l: LeaseToken, now: int) {
    Matches(t, l) && t[l.partition].expires > now
  }

  /** The fencing token `acquire_lease` issues, or `None` when a live lease is in the way. */
  function IssuedToken(t: LeaseTable, p: Partition, owner: WorkerId, now: int): Option<int> {
    if p !in t then Some(1)
    else if t[p].owner == Some(owner) && t[p].expires > now then Some(t[p].token)
    else if t[p].owner == None || t[p].expires <= now then Some(t[p].token + 1)
    else None
  }

  function Acquire(t: LeaseTable, epoch: Epoch, p: Partition, owner: WorkerId, ttl: int, now: int)
    : Option<(LeaseTable, LeaseToken)>
  {
    var issued := IssuedToken(t, p, owner, now);
    if ttl <= 0 || issued.None? then None
    else
      Some((t[p := LeaseRow(epoch, Some(owner), issued.value, now + ttl)],
            LeaseToken(p, epoch, owner, issued.value, now + ttl)))
  }

  function Extend(t: LeaseTable, p: Partition, expires: int): LeaseTable
    requires p in t
  {
    t[p := t[p].(expires := expires)]
  }

  function Renew(t: LeaseTable, l: LeaseToken, ttl: int, now: int): Option<(LeaseTable, LeaseToken)> {
    if ttl <= 0 || !Valid(t, l, now) then None
    else Some((Extend(t, l.partition, now + ttl), l.(expires := now + ttl)))
  }

  /** `hold_valid_leases`: every lease must be valid when its turn comes; a renewal already made
      for an earlier lease of the tuple is visible to the later checks. */
  function Hold(t: LeaseTable, ls: seq<LeaseToken>, now: int, ttl: Option<int>)
    : Option<(LeaseTable, seq<LeaseToken>)>
    decreases |ls|
  {
    if ls == [] then Some((t, []))
    else
      var init := Hold(t, ls[..|ls| - 1], now, ttl);
      var l := ls[|ls| - 1];
      if init.None? || !Valid(init.value.0, l, now) then None
      else
        var table := init.value.0;
        var expires := if ttl.Some? then now + ttl.value else table[l.partition].expires;
        Some((if ttl.Some? then Extend(table, l.partition, expires) else table,
              init.value.1 + [l.(expires := expires)]))
  }

  /** `renew_held_leases` checks the fences but not the expiry: the writer lock is already held. */
  function RenewHeld(t: LeaseTable, ls: seq<LeaseToken>, ttl: int, now: int)
    : Option<(LeaseTable, seq<LeaseToken>)>
    decreases |ls|
  {
    if ls == [] then Some((t, []))
    else
      var init := RenewHeld(t, ls[..|ls| - 1], ttl, now);
      var l := ls[|ls| - 1];
      if init.None? || !Matches(init.value.0, l) then None
      else Some((Extend(init.value.0, l.partition, now + ttl), init.value.1 + [l.(expires := now + ttl)]))
  }

  function Release(t: LeaseTable, l: LeaseToken): LeaseTable {
    if Matches(t, l) then t[l.partition := t[l.partition].(owner := None, expires := 0)] else t
  }

  /** The calls a client can make on the lease table. */
  datatype Call =
    | DoAcquire(partition: Partition, owner: WorkerId, ttl: int, now: int)
    | DoRenew(lease: LeaseToken, ttl: int, now: int)
    | DoHold(leases: seq<LeaseToken>, now: int, renewTtl: Option<int>)
    | DoRenewHeld(leases: seq<LeaseToken>, ttl: int, now: int)
    | DoRelease(lease: LeaseToken)

  function After(t: LeaseTable, epoch: Epoch, c: Call): LeaseTable {
    match c
    case DoAcquire(p, owner, ttl, now) =>
      var r := Acquire(t, epoch, p, owner, ttl, now);
      if r.None? then t else r.value.0
    case DoRenew(l, ttl, now) =>
      var r := Renew(t, l, ttl, now);
      if r.None? then t else r.value.0
    case DoHold(ls, now, ttl) =>
      var r := Hold(t, ls, now, ttl);
      if r.None? then t else r.value.0
    case DoRenewHeld(ls, ttl, now) =>
      var r := RenewHeld(t, ls, ttl, now);
      if r.None? then t else r.value.0
    case DoRelease(l) => Release(t, l)
  }

  function Run(t: LeaseTable, epoch: Epoch, calls: seq<Call>): LeaseTable
    decreases |calls|
  {
    if calls == [] then t else After(Run(t, epoch, calls[..|calls| - 1]), epoch, calls[|calls| - 1])
  }

  /** What one call may do to a row: keep it, change its expiry, release it, or issue a fresh and
      larger token. */
  predicate RowStep(a: LeaseRow, b: LeaseRow) {
    || (b.token == a.token && (b.owner == a.owner || b.owner == None))
    || b.token > a.token
  }

  ghost predicate TableStep(a: LeaseTable, b: LeaseTable) {
    forall p <- a :: p in b && RowStep(a[p], b[p])
  }

  /** Renewals only touch expiry times. */
  ghost predicate SameFences(a: LeaseTable, b: LeaseTable) {
    && a.Keys == b.Keys
    && forall p <- a :: a[p].(expires := 0) == b[p].(expires := 0)
  }

  lemma HoldKeepsFences(t: LeaseTable, ls: seq<LeaseToken>, now: int, ttl: Option<int>)
    requires Hold(t, ls, now, ttl).Some?
    ensures SameFences(t, Hold(t, ls, now, ttl).value.0)
    ensures forall l <- ls :: Matches(t, l)
    decreases |ls|
  {
    if ls != [] {
      HoldKeepsFences(t, ls[..|ls| - 1], now, ttl);
    }
  }

  lemma RenewHeldKeepsFences(t: LeaseTable, ls: seq<LeaseToken>, ttl: int, now: int)
    requires RenewHeld(t, ls, ttl, now).Some?
    ensures SameFences(t, RenewHeld(t, ls, ttl, now).value.0)
    ensures forall l <- ls :: Matches(t, l)
    decreases |ls|
  {
    if ls != [] {
      RenewHeldKeepsFences(t, ls[..|ls| - 1], ttl, now);
    }
  }

  /** Some lease of the tuple is for the partition. */
  predicate Covers(ls: seq<LeaseToken>, p: Partition) {
    exists l <- ls :: l.partition == p
  }

  lemma CoversOneMore(ls: seq<LeaseToken>)
    requires ls != []
    ensures forall p :: Covers(ls, p) <==> Covers(ls[..|ls| - 1], p) || p == ls[|ls| - 1].partition
  {
    assert ls == ls[..|ls| - 1] + [ls[|ls| - 1]];
  }

  /** Holding with renewal succeeds exactly if every lease is valid.  The rows of the tuple then run out at
      `now + ttl` and no other row changed, and every lease comes back with that expiry. */
  lemma {:induction false} HoldRenews(t: LeaseTable, ls: seq<LeaseToken>, now: int, ttl: int)
    requires ttl > 0
    ensures Hold(t, ls, now, Some(ttl)).Some? <==> forall l <- ls :: Valid(t, l, now)
    ensures Hold(t, ls, now, Some(ttl)).Some? ==>
      var (table, renewed) := Hold(t, ls, now, Some(ttl)).value;
      && table.Keys == t.Keys
      && (forall p <- t :: table[p] == if Covers(ls, p) then t[p].(expires := now + ttl) else t[p])
      && |renewed| == |ls| && forall i | 0 <= i < |ls| :: renewed[i] == ls[i].(expires := now + ttl)
    decreases |ls|
  {
    if ls != [] {
      var init := ls[..|ls| - 1];
      var l := ls[|ls| - 1];
      HoldRenews(t, init, now, ttl);
      CoversOneMore(ls);
      assert ls == init + [l];
      if Hold(t, init, now, Some(ttl)).Some? {
        assert Valid(Hold(t, init, now, Some(ttl)).value.0, l, now) <==> Valid(t, l, now);
      }
    }
  }

  /** Holding without renewal succeeds exactly if every lease is valid, changes no row, and tells every lease when
      its row runs out. */
  lemma {:induction false} HoldReads(t: LeaseTable, ls: seq<LeaseToken>, now: int)
    ensures Hold(t, ls, now, None).Some? <==> forall l <- ls :: Valid(t, l, now)
    ensures Hold(t, ls, now, None).Some? ==>
      var (table, held) := Hold(t, ls, now, None).value;
      && table == t
      && |held| == |ls|
      && forall i | 0 <= i < |ls| :: ls[i].partition in t && held[i] == ls[i].(expires := t[ls[i].partition].expires)
    decreases |ls|
  {
    if ls != [] {
      HoldReads(t, ls[..|ls| - 1], now);
      assert ls == ls[..|ls| - 1] + [ls[|ls| - 1]];
    }
  }

  /** Both at once. */
  lemma HoldMeans(t: LeaseTable, ls: seq<LeaseToken>, now: int, ttl: Option<int>)
    requires ttl.Some? ==> ttl.value > 0
    ensures Hold(t, ls, now, ttl).Some? <==> forall l <- ls :: Valid(t, l, now)
    ensures Hold(t, ls, now, ttl).Some? ==>
      var (table, held) := Hold(t, ls, now, ttl).value;
      && table.Keys == t.Keys
      && (forall p <- t :: table[p] == if ttl.Some? && Covers(ls, p) then t[p].(expires := now + ttl.value) else t[p])
      && |held| == |ls|
      && forall i | 0 <= i < |ls| ::
           ls[i].partition in table && held[i] == ls[i].(expires := table[ls[i].partition].expires)
  {
    hide Hold;
    if ttl.None? {
      HoldReads(t, ls, now);
    } else {
      HoldRenews(t, ls, now, ttl.value);
      assert forall i | 0 <= i < |ls| :: ls[i] in ls && Covers(ls, ls[i].partition);
    }
  }

  /** Renewing held leases succeeds exactly if every fence is unbroken, and then extends rows and leases likewise. */
  lemma {:induction false} RenewHeldRenews(t: LeaseTable, ls: seq<LeaseToken>, ttl: int, now: int)
    ensures RenewHeld(t, ls, ttl, now).Some? <==> forall l <- ls :: Matches(t, l)
    ensures RenewHeld(t, ls, ttl, now).Some? ==>
      var (table, renewed) := RenewHeld(t, ls, ttl, now).value;
      && table.Keys == t.Keys
      && (forall p <- t :: table[p] == if Covers(ls, p) then t[p].(expires := now + ttl) else t[p])
      && |renewed| == |ls| && forall i | 0 <= i < |ls| :: renewed[i] == ls[i].(expires := now + ttl)
    decreases |ls|
  {
    if ls != [] {
      var init := ls[..|ls| - 1];
      var l := ls[|ls| - 1];
      RenewHeldRenews(t, init, ttl, now);
      CoversOneMore(ls);
      assert ls == init + [l];
      if RenewHeld(t, init, ttl, now).Some? {
        assert Matches(RenewHeld(t, init, ttl, now).value.0, l) <==> Matches(t, l);
      }
    }
  }

  /** The renewed leases are valid exactly until the new time to live runs out. */
  lemma RenewHeldMeans(t: LeaseTable, ls: seq<LeaseToken>, ttl: int, now: int)
    ensures RenewHeld(t, ls, ttl, now).Some? <==> forall l <- ls :: Matches(t, l)
    ensures RenewHeld(t, ls, ttl, now).Some? ==>
      var (table, renewed) := RenewHeld(t, ls, ttl, now).value;
      && table.Keys == t.Keys
      && (forall p <- t :: table[p] == if Covers(ls, p) then t[p].(expires := now + ttl) else t[p])
      && (|renewed| == |ls| && forall i | 0 <= i < |ls| :: renewed[i] == ls[i].(expires := now + ttl))
      && forall l <- ls, at :: Valid(table, l, at) <==> at < now + ttl
  {
    hide RenewHeld;
    RenewHeldRenews(t, ls, ttl, now);
  }

  lemma CallIsTableStep(t: LeaseTable, epoch: Epoch, c: Call)
    ensures TableStep(t, After(t, epoch, c))
  {
    match c
    case DoHold(ls, now, ttl) =>
      if Hold(t, ls, now, ttl).Some? { HoldKeepsFences(t, ls, now, ttl); }
    case DoRenewHeld(ls, ttl, now) =>
      if RenewHeld(t, ls, ttl, now).Some? { RenewHeldKeepsFences(t, ls, ttl, now); }
    case _ =>
  }

  /** A partition's token never decreases, over any run of calls and any clock readings. */
  lemma {:induction false} TokensNeverDecrease(t: LeaseTable, epoch: Epoch, calls: seq<Call>, p: Partition)
    requires p in t
    ensures p in Run(t, epoch, calls) && t[p].token <= Run(t, epoch, calls)[p].token
    decreases |calls|
  {
    if calls != [] {
      TokensNeverDecrease(t, epoch, calls[..|calls| - 1], p);
      CallIsTableStep(Run(t, epoch, calls[..|calls| - 1]), epoch, calls[|calls| - 1]);
    }
  }

  /** The row has moved past `l`: it was released, or a later token was issued. */
  ghost predicate Superseded(t: LeaseTable, l: LeaseToken) {
    && l.partition in t
    && l.token <= t[l.partition].token
    && !(t[l.partition].token == l.token && t[l.partition].owner == Some(l.owner))
  }

  /** Releasing a lease supersedes it, and so does issuing a later token of its partition to anybody. */
  lemma EndedLeasesAreSuperseded(t: LeaseTable, epoch: Epoch, l: LeaseToken, owner: WorkerId, ttl: int, now: int)
    requires Matches(t, l)
    ensures Superseded(Release(t, l), l)
    ensures
      var taken := Acquire(t, epoch, l.partition, owner, ttl, now);
      taken.Some? ==> Superseded(taken.value.0, l) || (taken.value.1.owner == l.owner && taken.value.1.token == l.token)
  {
  }

  /** A lease that was released or superseded is fenced off for ever: in every later state it fails
      verification, renewal and holding, in whatever tuple it appears, and releasing it changes
      nothing. */
  lemma {:induction false} SupersededForEver(t: LeaseTable, epoch: Epoch, calls: seq<Call>, l: LeaseToken)
    requires Superseded(t, l)
    ensures
      var later := Run(t, epoch, calls);
      && Superseded(later, l)
      && !Matches(later, l)
      && Release(later, l) == later
      && (forall ttl, now :: Renew(later, l, ttl, now).None?)
      && (forall ls: seq<LeaseToken>, now, ttl :: l in ls ==> Hold(later, ls, now, ttl).None?)
      && (forall ls: seq<LeaseToken>, now, ttl :: l in ls ==> RenewHeld(later, ls, ttl, now).None?)
    decreases |calls|
  {
    var later := Run(t, epoch, calls);
    if calls != [] {
      var before := Run(t, epoch, calls[..|calls| - 1]);
      SupersededForEver(t, epoch, calls[..|calls| - 1], l);
      CallIsTableStep(before, epoch, calls[|calls| - 1]);
    }
    forall ls: seq<LeaseToken>, now, ttl | l in ls
      ensures Hold(later, ls, now, ttl).None?
    {
      if Hold(later, ls, now, ttl).Some? { HoldKeepsFences(later, ls, now, ttl); }
    }
    forall ls: seq<LeaseToken>, now, ttl | l in ls
      ensures RenewHeld(later, ls, ttl, now).None?
    {
      if RenewHeld(later, ls, ttl, now).Some? { RenewHeldKeepsFences(later, ls, ttl, now); }
    }
  }

  /** What holding partition token `k` by `a` leaves behind. */
  ghost predicate IssuedTo(t: LeaseTable, p: Partition, k: int, a: WorkerId) {
    && p in t
    && (t[p].token > k || (t[p].token == k && (t[p].owner == Some(a) || t[p].owner == None)))
  }

  lemma {:induction false} IssuedToForEver(t: LeaseTable, epoch: Epoch, calls: seq<Call>, p: Partition, k: int, a: WorkerId)
    requires IssuedTo(t, p, k, a)
    ensures IssuedTo(Run(t, epoch, calls), p, k, a)
    decreases |calls|
  {
    if calls != [] {
      IssuedToForEver(t, epoch, calls[..|calls| - 1], p, k, a);
      CallIsTableStep(Run(t, epoch, calls[..|calls| - 1]), epoch, calls[|calls| - 1]);
    }
  }

  /** Each token value of a partition is issued to at most one owner: if one acquisition issued
      token `k` to `a` and, after any further calls, another issues `k` again, it is to `a`. */
  lemma OneOwnerPerToken(t: LeaseTable, epoch: Epoch, p: Partition,
                         a: WorkerId, ttlA: int, nowA: int, calls: seq<Call>,
                         b: WorkerId, ttlB: int, nowB: int)
    requires Acquire(t, epoch, p, a, ttlA, nowA).Some?
    requires
      var later := Run(Acquire(t, epoch, p, a, ttlA, nowA).value.0, epoch, calls);
      && Acquire(later, epoch, p, b, ttlB, nowB).Some?
      && Acquire(later, epoch, p, b, ttlB, nowB).value.1.token
         == Acquire(t, epoch, p, a, ttlA, nowA).value.1.token
    ensures a == b
  {
    var first := Acquire(t, epoch, p, a, ttlA, nowA).value;
    IssuedToForEver(first.0, epoch, calls, p, first.1.token, a);
  }
}
