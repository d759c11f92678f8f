/** What a rollback, a finalization and a save do to a disk when nobody interrupts them, in terms of the disk alone. */
module SkillOutcomes {
  import opened Options
  import opened SkillSave

  /** The process stands at a step, on a disk. */
  function Back(d: Disk, at: RollStep): State {
    State(d, Rolling(at), None)
  }

  function At(d: Disk, at: SaveStep, before: Inode): State {
    State(d, Saving(at, before), None)
  }

  function Final(d: Disk, at: FinalStep): State {
    State(d, Finalizing(at), None)
  }

  lemma Unroll(k: Intent, s: State)
    ensures s.proc == Idle ==> Settle(k, s) == s
    ensures s.proc != Idle ==> Settle(k, s) == Settle(k, Act(k, s))
  {
  }

  function Stopped(d: Disk): State {
    State(d, Idle, None)
  }

  lemma StoppedStays(k: Intent, d: Disk)
    ensures Settle(k, Stopped(d)) == Stopped(d)
  {
  }

  /** The disk without a name. */
  function Without(d: Disk, n: Name): Disk {
    d.(dir := d.dir - {n})
  }

  /** The disk with a file under a name. */
  function Named(d: Disk, n: Name, i: Inode): Disk {
    d.(dir := d.dir[n := i])
  }

  lemma UnlinkIs(d: Disk, n: Name)
    requires n in d.dir
    ensures Unlink(d, n) == Some(Without(d, n))
  {
    assert Unlink(d, n).value.dir == d.dir - {n};
  }

  lemma RenameIs(d: Disk, from: Name, to: Name)
    requires from in d.dir
    ensures Rename(d, from, to) == Some(Named(Without(d, from), to, d.dir[from]))
  {
    assert Rename(d, from, to).value.dir == (d.dir - {from})[to := d.dir[from]];
  }

  lemma LinkIs(d: Disk, from: Name, to: Name)
    requires from in d.dir && to !in d.dir
    ensures Link(d, from, to) == Some(Named(d, to, d.dir[from]))
  {
  }

  // ---------------------------------------------------------------- rollback

  /** Nothing is ambiguous about a displaced file: it can be put back, or dropped as a second name of `SKILL.md`. */
  predicate Clear(d: Disk) {
    && !Unsafe(d, Displaced) && !Unsafe(d, Target)
    && (Displaced in d.dir && Target in d.dir ==> d.dir[Displaced] == d.dir[Target])
  }

  /** A displaced file is put back under `SKILL.md`. */
  function PutBack(d: Disk): Disk {
    if Displaced in d.dir then Without(Named(d, Target, d.dir[Displaced]), Displaced) else d
  }

  lemma DisplacedOutcome(k: Intent, d: Disk)
    ensures Settle(k, Back(d, ReadDisplaced)) ==
      if Clear(d) then Settle(k, Back(PutBack(d), ReadWitnesses)) else Stopped(d)
  {
    hide Settle;
    hide Unsafe;
    hide Unlink;
    hide Link;
    var displaced := Lookup(d.dir, Displaced);
    Unroll(k, Back(d, ReadDisplaced));
    Unroll(k, Back(d, ReadTarget(displaced)));
    StoppedStays(k, d);
    if Clear(d) && Displaced in d.dir {
      var named := Named(d, Target, d.dir[Displaced]);
      if Target !in d.dir {
        Unroll(k, Back(d, LinkBack));
        LinkIs(d, Displaced, Target);
      } else {
        assert named.dir == d.dir;
      }
      Unroll(k, Back(named, UnlinkBack));
      UnlinkIs(named, Displaced);
    }
  }

  /** `SKILL.md` is the file the transaction installed. */
  predicate HoldsProposed(k: Intent, d: Disk) {
    && Target in d.dir && ContentAt(d, Target) == Whole(k.proposed)
    && ((Temp in d.dir && d.dir[Temp] == d.dir[Target]) || d.journal == Some(Some(d.dir[Target])))
  }

  /** `SKILL.md` is the original file. */
  predicate HoldsOriginal(k: Intent, d: Disk) {
    && Target in d.dir && ContentAt(d, Target) == Whole(k.original)
    && (Guard in d.dir ==> d.dir[Guard] == d.dir[Target])
  }

  /** Rollback can tell what to do about `SKILL.md`: to restore it there must be an original witness, and a file of
      another writer is accepted only while nothing was installed. */
  predicate Decided(k: Intent, d: Disk) {
    && !Unsafe(d, Target) && !Unsafe(d, Guard) && !Unsafe(d, Temp)
    && (if HoldsProposed(k, d) || Target !in d.dir then Guard in d.dir && ContentAt(d, Guard) == Whole(k.original)
        else HoldsOriginal(k, d) || d.journal == Some(None))
  }

  /** The original witness is put under `SKILL.md` if that is empty or was installed by the transaction. */
  function Restored(k: Intent, d: Disk): Disk
    requires Decided(k, d)
  {
    if HoldsProposed(k, d) || Target !in d.dir then Named(d, Target, d.dir[Guard]) else d
  }

  lemma MovedLinks(d: Disk, i: Inode)
    requires Target in d.dir && Displaced !in d.dir
    ensures Links(Named(Without(d, Target), Displaced, d.dir[Target]), i) == Links(d, i)
  {
  }

  /** The installed file is moved aside, replaced by the original witness and dropped. */
  lemma ReplaceOutcome(k: Intent, d: Disk)
    requires Target in d.dir && Guard in d.dir && Displaced !in d.dir && !Unsafe(d, Target)
    ensures Settle(k, Back(d, RenameProposed(d.dir[Target]))) == Settle(k, Back(Named(d, Target, d.dir[Guard]), CleanGuard))
  {
    hide Settle;
    hide Links;
    hide Unlink;
    hide Link;
    hide Rename;
    var found := d.dir[Target];
    var moved := Named(Without(d, Target), Displaced, found);
    var linked := Named(moved, Target, d.dir[Guard]);
    Unroll(k, Back(d, RenameProposed(found)));
    RenameIs(d, Target, Displaced);
    MovedLinks(d, found);
    Unroll(k, Back(moved, CheckMoved(found)));
    Unroll(k, Back(moved, LinkGuardBack(true)));
    LinkIs(moved, Guard, Target);
    Unroll(k, Back(linked, UnlinkMoved));
    UnlinkIs(linked, Displaced);
    assert Without(linked, Displaced).dir == d.dir[Target := d.dir[Guard]];
  }

  lemma DecisionOutcome(k: Intent, d: Disk)
    requires Displaced !in d.dir
    ensures Settle(k, Back(d, ReadWitnesses)) ==
      if Decided(k, d) then Settle(k, Back(Restored(k, d), CleanGuard)) else Stopped(d)
  {
    hide Settle;
    hide Links;
    hide ContentAt;
    hide Unlink;
    hide Link;
    hide Rename;
    Unroll(k, Back(d, ReadWitnesses));
    StoppedStays(k, d);
    if Decided(k, d) {
      if HoldsProposed(k, d) {
        ReplaceOutcome(k, d);
      } else if Target !in d.dir {
        Unroll(k, Back(d, LinkGuardBack(false)));
        LinkIs(d, Guard, Target);
      }
    }
  }

  /** The witness is gone, or safe and unchanged. */
  predicate Removable(d: Disk, n: Name, expected: Bytes) {
    n in d.dir ==> !Unsafe(d, n) && ContentAt(d, n) == Whole(expected)
  }

  lemma CleanIs(d: Disk, n: Name, expected: Bytes)
    ensures Clean(d, n, expected) == if Removable(d, n, expected) then Some(Without(d, n)) else None
  {
    if n in d.dir {
      UnlinkIs(d, n);
    } else {
      assert d.dir - {n} == d.dir;
    }
  }

  /** Guard and temporary file are removed in this order, each only as the witness it was, and then the journal. */
  function Cleaned(k: Intent, d: Disk): Disk {
    if !Removable(d, Guard, k.original) then d
    else if !Removable(Without(d, Guard), Temp, k.proposed) then Without(d, Guard)
    else Without(Without(d, Guard), Temp).(journal := None)
  }

  lemma CleanOutcome(k: Intent, d: Disk)
    requires Displaced !in d.dir
    ensures Settle(k, Back(d, CleanGuard)) == Stopped(Cleaned(k, d))
    ensures Settle(k, Final(d, FinalGuard)) == Stopped(Cleaned(k, d))
  {
    hide Settle;
    hide Clean;
    hide Removable;
    var d1 := Without(d, Guard);
    var d2 := Without(d1, Temp);
    CleanIs(d, Guard, k.original);
    CleanIs(d1, Temp, k.proposed);
    Unroll(k, Back(d, CleanGuard));
    Unroll(k, Back(d1, CleanTemp));
    Unroll(k, Back(d2, CheckGone));
    Unroll(k, Back(d2, DeleteIntent));
    Unroll(k, Final(d, FinalGuard));
    Unroll(k, Final(d1, FinalTemp));
    Unroll(k, Final(d2, FinalDelete));
    StoppedStays(k, d);
    StoppedStays(k, d1);
    StoppedStays(k, d2.(journal := None));
  }

  /** What a rollback leaves, from any disk whatsoever. */
  lemma RollbackOutcome(k: Intent, d: Disk)
    ensures
      var put := PutBack(d);
      Settle(k, Back(d, ReadDisplaced)).disk ==
        if !Clear(d) then d
        else if !Decided(k, put) then put
        else Cleaned(k, Restored(k, put))
  {
    hide Settle;
    hide Decided;
    hide Restored;
    hide Cleaned;
    hide Clear;
    DisplacedOutcome(k, d);
    if Clear(d) {
      DecisionOutcome(k, PutBack(d));
      if Decided(k, PutBack(d)) {
        StillNotDisplaced(k, PutBack(d));
        CleanOutcome(k, Restored(k, PutBack(d)));
      }
    }
  }

  lemma StillNotDisplaced(k: Intent, d: Disk)
    requires Displaced !in d.dir && Decided(k, d)
    ensures Displaced !in Restored(k, d).dir
  {
  }

  /** A file of another writer under `SKILL.md` is never taken for the installed or the original one: once an install was
      recorded, rollback asks for help and leaves the disk, with its original witness and its journal, as it is. */
  lemma ForeignStopsRollback(k: Intent, d: Disk)
    requires Displaced !in d.dir && Target in d.dir && d.journal.Some? && d.journal.value.Some?
    requires ContentAt(d, Target) != Whole(k.original) && ContentAt(d, Target) != Whole(k.proposed)
    ensures Settle(k, Back(d, ReadDisplaced)).disk == d
  {
    hide Settle;
    hide ContentAt;
    RollbackOutcome(k, d);
  }

  lemma FinalOutcome(k: Intent, d: Disk)
    ensures Settle(k, Final(d, FinalCheck)).disk == if Displaced in d.dir then d else Cleaned(k, d)
  {
    hide Settle;
    hide Cleaned;
    Unroll(k, Final(d, FinalCheck));
    StoppedStays(k, d);
    if Displaced !in d.dir {
      CleanOutcome(k, d);
    }
  }

  // ---------------------------------------------------------------- save

  /** No witness of the transaction exists, and the next inode is unused. */
  predicate Fresh(d: Disk) {
    d.dir.Keys <= {Target} && (Target in d.dir ==> d.dir[Target] < d.next)
  }

  /** The disk before the original is moved aside: the proposed file is written and the original has a witness. */
  function Witnessed(k: Intent, d: Disk): Disk
    requires Target in d.dir
  {
    d.(dir := map[Target := d.dir[Target], Temp := d.next, Guard := d.dir[Target]],
       content := d.content[d.next := Whole(k.proposed)], next := d.next + 1, journal := Some(None))
  }

  lemma WitnessOutcome(k: Intent, d: Disk)
    requires Fresh(d) && Target in d.dir && ContentAt(d, Target) == Whole(k.original)
    ensures Settle(k, At(d, WriteIntent, 0)) == Settle(k, At(Witnessed(k, d), RenameTarget, d.dir[Target]))
  {
    hide Settle;
    hide RollAction;
    hide FinalAction;
    hide Raise;
    var i, n := d.dir[Target], d.next;
    var d0 := d.(journal := Some(None));
    var d1 := d0.(dir := d.dir[Temp := n], content := d.content[n := Torn], next := n + 1);
    var d2 := d1.(content := d.content[n := Whole(k.proposed)]);
    assert d.dir == map[Target := i];
    assert d1.content[n := Whole(k.proposed)] == d2.content;
    assert Witnessed(k, d).dir == d2.dir[Guard := i];
    Unroll(k, At(d, WriteIntent, 0));
    Unroll(k, At(d0, OpenTarget, 0));
    Unroll(k, At(d0, CreateTemp, i));
    Unroll(k, At(d1, FillTemp, i));
    Unroll(k, At(d2, LinkGuard, i));
    Unroll(k, At(Witnessed(k, d), CheckGuard, i));
  }

  /** From the witnesses to the empty name. */
  lemma DisplaceOutcome(k: Intent, d: Disk, i: Inode, n: Inode)
    requires d.dir == map[Target := i, Temp := n, Guard := i] && i != n && d.journal.Some?
    ensures Settle(k, At(d, RenameTarget, i)) == Settle(k, At(d.(dir := map[Temp := n, Guard := i]), LinkTarget, i))
  {
    hide Settle;
    hide RollAction;
    hide FinalAction;
    hide Raise;
    hide Unlink;
    hide Rename;
    var d4 := d.(dir := map[Temp := n, Guard := i, Displaced := i]);
    RenameIs(d, Target, Displaced);
    assert Named(Without(d, Target), Displaced, i).dir == d4.dir;
    UnlinkIs(d4, Displaced);
    assert Without(d4, Displaced).dir == map[Temp := n, Guard := i];
    Unroll(k, At(d, RenameTarget, i));
    Unroll(k, At(d4, CheckDisplaced, i));
    Unroll(k, At(d4, UnlinkDisplaced, i));
  }

  /** From the empty name to the installed file. */
  lemma InstallOutcome(k: Intent, d: Disk, i: Inode, n: Inode)
    requires d.dir == map[Temp := n, Guard := i]
    ensures Settle(k, At(d, LinkTarget, i)) ==
      Settle(k, At(d.(dir := map[Target := n, Guard := i], journal := Some(Some(n))), LoadUpdated, i))
  {
    hide Settle;
    hide RollAction;
    hide FinalAction;
    hide Raise;
    hide Unlink;
    hide Link;
    hide Links;
    var d6 := d.(dir := map[Target := n, Temp := n, Guard := i]);
    LinkIs(d, Temp, Target);
    assert d.dir[Target := n] == d6.dir;
    Unroll(k, At(d, LinkTarget, i));
    Unroll(k, At(d6, CheckInstalled, i));
    RecordOutcome(k, d6, i, n);
  }

  /** The installed file is recorded and its temporary name dropped. */
  lemma RecordOutcome(k: Intent, d: Disk, i: Inode, n: Inode)
    requires d.dir == map[Target := n, Temp := n, Guard := i]
    ensures Settle(k, At(d, WriteApplied, i)) ==
      Settle(k, At(d.(dir := map[Target := n, Guard := i], journal := Some(Some(n))), LoadUpdated, i))
  {
    hide Settle;
    hide RollAction;
    hide FinalAction;
    hide Raise;
    hide Unlink;
    hide Links;
    var applied := d.(journal := Some(Some(n)));
    UnlinkIs(applied, Temp);
    assert Without(applied, Temp).dir == map[Target := n, Guard := i];
    Unroll(k, At(d, WriteApplied, i));
    Unroll(k, At(applied, UnlinkTemp, i));
  }

  /** What a save leaves on a disk without witnesses: the proposed file alone, with its receipt, if `SKILL.md` holds the
      expected bytes, and otherwise the disk as it was; without a `SKILL.md` the journal stays for manual review. */
  lemma SaveOutcome(k: Intent, d: Disk)
    requires Fresh(d)
    ensures
      var after := Settle(k, At(d, WriteIntent, 0)).disk;
      if Target in d.dir && ContentAt(d, Target) == Whole(k.original) then
        after == Disk(map[Target := d.next], d.content[d.next := Whole(k.proposed)], d.next + 1, None, true)
      else after == d.(journal := if Target in d.dir then None else Some(None))
  {
    hide Settle;
    if Target in d.dir && ContentAt(d, Target) == Whole(k.original) {
      var i, n := d.dir[Target], d.next;
      WitnessOutcome(k, d);
      DisplaceOutcome(k, Witnessed(k, d), i, n);
      InstallOutcome(k, Witnessed(k, d).(dir := map[Temp := n, Guard := i]), i, n);
      CommitOutcome(k, Witnessed(k, d).(dir := map[Target := n, Guard := i], journal := Some(Some(n))), i, n);
    } else {
      RefusedOutcome(k, d);
    }
  }

  lemma CommitOutcome(k: Intent, d: Disk, i: Inode, n: Inode)
    requires d.dir == map[Target := n, Guard := i] && i != n && i in d.content && n in d.content
    requires d.content[n] == Whole(k.proposed) && d.content[i] == Whole(k.original) && d.journal.Some?
    ensures Settle(k, At(d, LoadUpdated, i)).disk == d.(dir := map[Target := n], journal := None, receipt := true)
  {
    hide Settle;
    var d1 := d.(receipt := true);
    Unroll(k, At(d, LoadUpdated, i));
    Unroll(k, At(d, CommitReceipt, i));
    FinalOutcome(k, d1);
    assert Without(Without(d1, Guard), Temp).dir == map[Target := n];
  }

  lemma RefusedOutcome(k: Intent, d: Disk)
    requires Fresh(d) && !(Target in d.dir && ContentAt(d, Target) == Whole(k.original))
    ensures Settle(k, At(d, WriteIntent, 0)).disk == d.(journal := if Target in d.dir then None else Some(None))
  {
    hide Settle;
    var d0 := d.(journal := Some(None));
    Unroll(k, At(d, WriteIntent, 0));
    Unroll(k, At(d0, OpenTarget, 0));
    RollbackOutcome(k, d0);
    assert d0.dir == if Target in d.dir then map[Target := d.dir[Target]] else map[];
    assert Without(Without(d0, Guard), Temp).dir == d0.dir;
  }
}
