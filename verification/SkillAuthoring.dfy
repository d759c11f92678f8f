/** Saving, rolling back and recovering a skill file, as code that runs without interruption.

    Each method leaves the disk as the state machine of `SkillSave` does when it is left to run, so what is
    proved there about that run is proved of the methods.
 */
module SkillAuthoring {
  import opened Options
  import opened SkillSave
  import opened SkillOutcomes
  import SkillRecovery

  class SkillDirectory {
    var disk: Disk

    constructor (disk: Disk)
      ensures this.disk == disk
    {
      this.disk := disk;
    }

    method LinkNoReplace(from: Name, to: Name) returns (ok: bool)
      modifies this
      ensures disk.receipt == old(disk).receipt && disk.journal == old(disk).journal
      ensures ok == Link(old(disk), from, to).Some?
      ensures disk == if ok then Link(old(disk), from, to).value else old(disk)
    {
      ok := from in disk.dir && to !in disk.dir;
      if ok {
        disk := disk.(dir := disk.dir[to := disk.dir[from]]);
      }
    }

    method UnlinkName(n: Name) returns (ok: bool)
      modifies this
      ensures disk.receipt == old(disk).receipt && disk.journal == old(disk).journal
      ensures ok == Unlink(old(disk), n).Some?
      ensures disk == if ok then Unlink(old(disk), n).value else old(disk)
    {
      ok := n in disk.dir;
      if ok {
        disk := disk.(dir := map m | m in disk.dir && m != n :: disk.dir[m]);
      }
    }

    method RenameName(from: Name, to: Name) returns (ok: bool)
      modifies this
      ensures disk.receipt == old(disk).receipt && disk.journal == old(disk).journal
      ensures ok == Rename(old(disk), from, to).Some?
      ensures disk == if ok then Rename(old(disk), from, to).value else old(disk)
    {
      ok := from in disk.dir;
      if ok {
        disk := disk.(dir := (map m | m in disk.dir && m != from :: disk.dir[m])[to := disk.dir[from]]);
      }
    }

    /** `_cleanup_named_recovery_file`. */
    method CleanNamed(n: Name, expected: Bytes) returns (ok: bool)
      modifies this
      ensures disk.receipt == old(disk).receipt && disk.journal == old(disk).journal
      ensures ok == Clean(old(disk), n, expected).Some?
      ensures disk == if ok then Clean(old(disk), n, expected).value else old(disk)
    {
      if n !in disk.dir {
        return true;
      }
      if Unsafe(disk, n) || ContentAt(disk, n) != Whole(expected) {
        return false;
      }
      ok := UnlinkName(n);
    }

    /** `_restore_displaced_no_replace`. */
    method RestoreDisplaced() returns (ok: bool)
      modifies this
      ensures disk.receipt == old(disk).receipt && disk.journal == old(disk).journal
      ensures
        var linked := Link(old(disk), Displaced, Target);
        if linked.None? then !ok && disk == old(disk)
        else ok == Unlink(linked.value, Displaced).Some? && disk == if ok then Unlink(linked.value, Displaced).value else linked.value
    {
      ok := LinkNoReplace(Displaced, Target);
      if ok {
        ok := UnlinkName(Displaced);
      }
    }

    /** First part of `_rollback_save_intent`: deals with a displaced file. */
    method PutBackDisplaced(k: Intent) returns (ok: bool)
      modifies this
      ensures disk.receipt == old(disk).receipt && disk.journal == old(disk).journal
      ensures ok ==> Settle(k, Back(old(disk), ReadDisplaced)) == Settle(k, Back(disk, ReadWitnesses))
      ensures !ok ==> Settle(k, Back(old(disk), ReadDisplaced)).disk == disk
    {
      hide Settle;
      hide Links;
      hide Unlink;
      hide Link;
      ghost var d := disk;
      var displaced := Lookup(disk.dir, Displaced);
      Unroll(k, Back(d, ReadDisplaced));
      Unroll(k, Back(d, ReadTarget(displaced)));
      Unroll(k, Back(d, ReadDisplaced).(proc := Idle));
      if Unsafe(disk, Displaced) || Unsafe(disk, Target) {
        return false;
      }
      if displaced.None? {
        return true;
      }
      if Target !in disk.dir {
        Unroll(k, Back(d, LinkBack));
        ok := LinkNoReplace(Displaced, Target);
        if !ok {
          return;
        }
      } else if displaced != Some(disk.dir[Target]) {
        return false;
      }
      Unroll(k, Back(disk, UnlinkBack));
      Unroll(k, Back(disk, UnlinkBack).(proc := Idle));
      ok := UnlinkName(Displaced);
    }

    /** Second part: puts the original back under `SKILL.md`. */
    method PutBackOriginal(k: Intent) returns (ok: bool)
      modifies this
      ensures disk.receipt == old(disk).receipt && disk.journal == old(disk).journal
      ensures ok ==> Settle(k, Back(old(disk), ReadWitnesses)) == Settle(k, Back(disk, CleanGuard))
      ensures !ok ==> Settle(k, Back(old(disk), ReadWitnesses)).disk == disk
    {
      hide Settle;
      hide Unlink;
      hide Link;
      hide Rename;
      hide Unsafe;
      hide IsProposed;
      hide IsOriginal;
      hide GuardIsOriginal;
      Unroll(k, Back(disk, ReadWitnesses));
      Unroll(k, Back(disk, ReadWitnesses).(proc := Idle));
      if Unsafe(disk, Target) || Unsafe(disk, Guard) || Unsafe(disk, Temp) {
        return false;
      }
      if IsProposed(k, disk) {
        ProposedIsThere(k, disk);
        if !GuardIsOriginal(k, disk) {
          return false;
        }
        ok := ReplaceProposed(k, disk.dir[Target]);
      } else if Target !in disk.dir {
        if !GuardIsOriginal(k, disk) {
          return false;
        }
        Unroll(k, Back(disk, LinkGuardBack(false)));
        ok := LinkNoReplace(Guard, Target);
      } else {
        ok := IsOriginal(k, disk) || disk.journal == Some(None);
      }
    }

    /** Moves the proposed file out of the way and links the original witness in its place. */
    method ReplaceProposed(k: Intent, found: Inode) returns (ok: bool)
      modifies this
      ensures disk.receipt == old(disk).receipt && disk.journal == old(disk).journal
      ensures ok ==> Settle(k, Back(old(disk), RenameProposed(found))) == Settle(k, Back(disk, CleanGuard))
      ensures !ok ==> Settle(k, Back(old(disk), RenameProposed(found))).disk == disk
    {
      hide Settle;
      hide Unlink;
      hide Link;
      hide Rename;
      hide Unsafe;
      Unroll(k, Back(disk, RenameProposed(found)));
      Unroll(k, Back(disk, RenameProposed(found)).(proc := Idle));
      ok := RenameName(Target, Displaced);
      if !ok {
        return;
      }
      Unroll(k, Back(disk, CheckMoved(found)));
      Unroll(k, Back(disk, CheckMoved(found)).(proc := Idle));
      if Displaced !in disk.dir || Unsafe(disk, Displaced) {
        return false;
      }
      if disk.dir[Displaced] != found {
        ReturnSteps(k, disk);
        var _ := RestoreDisplaced();
        return false;
      }
      Unroll(k, Back(disk, LinkGuardBack(true)));
      ok := LinkNoReplace(Guard, Target);
      if !ok {
        return;
      }
      Unroll(k, Back(disk, UnlinkMoved));
      Unroll(k, Back(disk, UnlinkMoved).(proc := Idle));
      ok := UnlinkName(Displaced);
    }

    /** Last part: removes the witnesses and then the journal. */
    method RemoveWitnesses(k: Intent) returns (ok: bool)
      modifies this
      ensures disk.receipt == old(disk).receipt
      ensures Settle(k, Back(old(disk), CleanGuard)).disk == disk
      ensures disk.journal == if ok then None else old(disk).journal
    {
      hide Settle;
      hide Clean;
      Unroll(k, Back(disk, CleanGuard));
      Unroll(k, Back(disk, CleanGuard).(proc := Idle));
      ok := CleanNamed(Guard, k.original);
      if !ok {
        return;
      }
      Unroll(k, Back(disk, CleanTemp));
      Unroll(k, Back(disk, CleanTemp).(proc := Idle));
      ok := CleanNamed(Temp, k.proposed);
      if !ok {
        return;
      }
      Unroll(k, Back(disk, CheckGone));
      Unroll(k, Back(disk, CheckGone).(proc := Idle));
      if Displaced in disk.dir {
        return false;
      }
      Unroll(k, Back(disk, DeleteIntent));
      disk := disk.(journal := None);
      Unroll(k, Back(disk, DeleteIntent).(proc := Idle));
    }

    /** `_rollback_recovery_intent`. */
    method RollBack(k: Intent) returns (ok: bool)
      modifies this
      ensures disk.receipt == old(disk).receipt
      ensures disk == Settle(k, Back(old(disk), ReadDisplaced)).disk
      ensures disk.journal == if ok then None else old(disk).journal
      ensures
        var d, put := old(disk), PutBack(old(disk));
        disk == if !Clear(d) then d else if !Decided(k, put) then put else Cleaned(k, Restored(k, put))
      ensures
        var d := old(disk);
        var foreign := Target in d.dir && ContentAt(d, Target) !in {Whole(k.original), Whole(k.proposed)};
        foreign && Displaced !in d.dir && d.journal.Some? && d.journal.value.Some? ==> !ok && disk == d
    {
      hide Settle;
      hide ContentAt;
      hide Clear;
      hide Decided;
      hide Restored;
      hide Cleaned;
      RollbackOutcome(k, disk);
      if Displaced !in disk.dir && Target in disk.dir && disk.journal.Some? && disk.journal.value.Some?
         && ContentAt(disk, Target) != Whole(k.original) && ContentAt(disk, Target) != Whole(k.proposed) {
        ForeignStopsRollback(k, disk);
      }
      ok := PutBackDisplaced(k);
      if ok {
        ok := PutBackOriginal(k);
      }
      if ok {
        ok := RemoveWitnesses(k);
      }
    }

    /** `_finalize_recovery_intent`. */
    method FinalizeSave(k: Intent) returns (ok: bool)
      modifies this
      ensures disk.receipt == old(disk).receipt
      ensures disk == Settle(k, Final(old(disk), FinalCheck)).disk
      ensures disk.journal == if ok then None else old(disk).journal
      ensures disk == if Displaced in old(disk).dir then old(disk) else Cleaned(k, old(disk))
    {
      hide Settle;
      hide Clean;
      hide Cleaned;
      FinalOutcome(k, disk);
      Unroll(k, Final(disk, FinalCheck));
      Unroll(k, Final(disk, FinalCheck).(proc := Idle));
      if Displaced in disk.dir {
        return false;
      }
      Unroll(k, Final(disk, FinalGuard));
      Unroll(k, Final(disk, FinalGuard).(proc := Idle));
      ok := CleanNamed(Guard, k.original);
      if !ok {
        return;
      }
      Unroll(k, Final(disk, FinalTemp));
      Unroll(k, Final(disk, FinalTemp).(proc := Idle));
      ok := CleanNamed(Temp, k.proposed);
      if !ok {
        return;
      }
      Unroll(k, Final(disk, FinalDelete));
      disk := disk.(journal := None);
      Unroll(k, Final(disk, FinalDelete).(proc := Idle));
    }

    /** `_recover_pending_journals`, for the one journal of the model. */
    method RecoverPending(k: Intent) returns (ok: bool)
      modifies this
      ensures disk.receipt == old(disk).receipt
      ensures disk == Settle(k, Restart(State(old(disk), Idle, None))).disk
      ensures disk.journal == if ok then None else old(disk).journal
      ensures
        var d, put := old(disk), PutBack(old(disk));
        disk ==
          if d.journal.None? then d
          else if d.receipt then (if Displaced in d.dir then d else Cleaned(k, d))
          else if !Clear(d) then d else if !Decided(k, put) then put else Cleaned(k, Restored(k, put))
      ensures SkillRecovery.Inv(k, State(old(disk), Idle, None)) && old(disk).journal.Some? && !old(disk).receipt ==>
        (SkillRecovery.Restored(k, disk) <==> SkillRecovery.Recoverable(old(disk)))
    {
      hide Cleaned;
      hide Clear;
      hide Decided;
      hide Restored;
      hide Settle;
      hide SkillRecovery.Inv;
      hide SkillRecovery.Recoverable;
      if SkillRecovery.Inv(k, State(disk, Idle, None)) && disk.journal.Some? {
        SkillRecovery.RecoverIdle(k, State(disk, Idle, None));
      }
      if disk.journal.None? {
        Unroll(k, State(disk, Idle, None));
        return true;
      }
      if disk.receipt {
        ok := FinalizeSave(k);
      } else {
        ok := RollBack(k);
      }
    }

    /** First part of `_atomic_replace`: writes the proposed witness and links the original witness. */
    method MakeWitnesses(k: Intent) returns (ok: bool, before: Inode)
      requires disk.journal.Some?
      modifies this
      ensures disk.receipt == old(disk).receipt
      ensures disk.journal.Some?
      ensures ok ==> Settle(k, At(old(disk), OpenTarget, 0)) == Settle(k, At(disk, RenameTarget, before))
      ensures !ok ==> Settle(k, At(old(disk), OpenTarget, 0)) == Settle(k, Back(disk, ReadDisplaced))
    {
      hide Settle;
      hide Links;
      hide Unlink;
      hide Link;
      before := 0;
      Unroll(k, At(disk, OpenTarget, 0));
      if Target !in disk.dir || Links(disk, disk.dir[Target]) != 1 || ContentAt(disk, Target) != Whole(k.original) {
        return false, 0;
      }
      before := disk.dir[Target];
      Unroll(k, At(disk, CreateTemp, before));
      if Temp in disk.dir {
        return false, before;
      }
      disk := disk.(dir := disk.dir[Temp := disk.next], content := disk.content[disk.next := Torn], next := disk.next + 1);
      Unroll(k, At(disk, FillTemp, before));
      disk := disk.(content := disk.content[disk.dir[Temp] := Whole(k.proposed)]);
      ok := LinkWitness(k, before);
    }

    method LinkWitness(k: Intent, before: Inode) returns (ok: bool)
      requires disk.journal.Some?
      modifies this
      ensures disk.receipt == old(disk).receipt
      ensures disk.journal.Some?
      ensures ok ==> Settle(k, At(old(disk), LinkGuard, before)) == Settle(k, At(disk, RenameTarget, before))
      ensures !ok ==> Settle(k, At(old(disk), LinkGuard, before)) == Settle(k, Back(disk, ReadDisplaced))
    {
      hide Settle;
      hide Links;
      hide Unsafe;
      Unroll(k, At(disk, LinkGuard, before));
      ok := LinkNoReplace(Target, Guard);
      if !ok {
        return;
      }
      Unroll(k, At(disk, CheckGuard, before));
      if Guard !in disk.dir || Unsafe(disk, Guard) {
        return false;
      }
      ok := disk.dir[Guard] == before && ContentAt(disk, Guard) == Whole(k.original);
      if !ok {
        Unroll(k, At(disk, DropGuard, before));
        var _ := UnlinkName(Guard);
      }
    }

    /** Second part: moves `SKILL.md` aside, checks what was moved and drops it. */
    method Displace(k: Intent, before: Inode) returns (ok: bool)
      requires disk.journal.Some?
      modifies this
      ensures disk.receipt == old(disk).receipt
      ensures disk.journal.Some?
      ensures ok ==> Settle(k, At(old(disk), RenameTarget, before)) == Settle(k, At(disk, LinkTarget, before))
      ensures !ok ==> Settle(k, At(old(disk), RenameTarget, before)) == Settle(k, Back(disk, ReadDisplaced))
    {
      hide Settle;
      hide Unsafe;
      Unroll(k, At(disk, RenameTarget, before));
      ok := RenameName(Target, Displaced);
      if !ok {
        return;
      }
      Unroll(k, At(disk, CheckDisplaced, before));
      if Displaced !in disk.dir || Guard !in disk.dir || Unsafe(disk, Displaced) {
        return false;
      }
      if disk.dir[Displaced] != disk.dir[Guard] {
        RestoreSteps(k, disk, before);
        var _ := RestoreDisplaced();
        return false;
      }
      Unroll(k, At(disk, UnlinkDisplaced, before));
      ok := UnlinkName(Displaced);
    }

    /** Third part: links the proposed file into the empty name and records it. */
    method Install(k: Intent, before: Inode) returns (ok: bool)
      requires disk.journal.Some?
      modifies this
      ensures disk.receipt == old(disk).receipt
      ensures disk.journal.Some?
      ensures ok ==> Settle(k, At(old(disk), LinkTarget, before)) == Settle(k, At(disk, LoadUpdated, before))
      ensures !ok ==> Settle(k, At(old(disk), LinkTarget, before)) == Settle(k, Back(disk, ReadDisplaced))
    {
      hide Settle;
      hide Unlink;
      Unroll(k, At(disk, LinkTarget, before));
      ok := LinkNoReplace(Temp, Target);
      if !ok {
        return;
      }
      Unroll(k, At(disk, CheckInstalled, before));
      if Target !in disk.dir || Temp !in disk.dir || disk.dir[Target] != disk.dir[Temp] {
        return false;
      }
      Unroll(k, At(disk, WriteApplied, before));
      disk := disk.(journal := Some(Some(disk.dir[Temp])));
      Unroll(k, At(disk, UnlinkTemp, before));
      JournalStays(disk, Temp);
      ok := UnlinkName(Temp);
    }

    /** `save`: journals the intent, replaces the file, commits the receipt and cleans up, or rolls back. */
    method Save(k: Intent) returns (committed: bool)
      modifies this
      ensures disk == Settle(k, At(old(disk), WriteIntent, 0)).disk
      ensures disk.receipt <==> committed || old(disk).receipt
      ensures Fresh(old(disk)) && !old(disk).receipt ==>
        var d := old(disk);
        && (committed <==> Target in d.dir && ContentAt(d, Target) == Whole(k.original))
        && disk ==
             if committed then Disk(map[Target := d.next], d.content[d.next := Whole(k.proposed)], d.next + 1, None, true)
             else d.(journal := if Target in d.dir then None else Some(None))
      ensures old(disk) == Begin(k.original).disk ==>
        && committed && disk.journal.None?
        && disk.dir.Keys == {Target} && ContentAt(disk, Target) == Whole(k.proposed)
    {
      hide Settle;
      hide SkillRecovery.Inv;
      hide Fresh;
      hide Links;
      hide Unlink;
      hide Clear;
      hide Decided;
      hide Restored;
      hide Cleaned;
      if Fresh(disk) {
        SaveOutcome(k, disk);
      }
      if disk == Begin(k.original).disk {
        SkillRecovery.BeginOk(k);
        BeginAt(k);
        SkillRecovery.SaveRunsOn(k, At(disk, WriteIntent, 0));
      }
      Unroll(k, At(disk, WriteIntent, 0));
      disk := disk.(journal := Some(None));
      var before;
      committed, before := MakeWitnesses(k);
      if committed {
        committed := Displace(k, before);
      }
      if committed {
        committed := Install(k, before);
      }
      if committed {
        Unroll(k, At(disk, LoadUpdated, before));
        committed := ContentAt(disk, Target) == Whole(k.proposed);
      }
      if committed {
        Unroll(k, At(disk, CommitReceipt, before));
        disk := disk.(receipt := true);
        var _ := FinalizeSave(k);
      } else {
        var _ := RollBack(k);
      }
    }
  }

  lemma ProposedIsThere(k: Intent, d: Disk)
    requires IsProposed(k, d)
    ensures Target in d.dir
  {
  }

  lemma ReturnSteps(k: Intent, d: Disk)
    ensures
      var linked := Link(d, Displaced, Target);
      var after := Settle(k, Back(d, ReturnLink)).disk;
      if linked.None? then after == d
      else after == if Unlink(linked.value, Displaced).Some? then Unlink(linked.value, Displaced).value else linked.value
  {
    hide Link;
    hide Unlink;
    hide Settle;
    Unroll(k, Back(d, ReturnLink));
    Unroll(k, Back(d, ReturnLink).(proc := Idle));
    var linked := Link(d, Displaced, Target);
    if linked.Some? {
      Unroll(k, Back(linked.value, ReturnUnlink));
      Unroll(k, Back(linked.value, ReturnUnlink).(proc := Idle));
      if Unlink(linked.value, Displaced).Some? {
        Unroll(k, Back(Unlink(linked.value, Displaced).value, ReturnUnlink).(proc := Idle));
      }
    }
  }

  lemma JournalStays(d: Disk, n: Name)
    ensures Unlink(d, n).Some? ==> Unlink(d, n).value.journal == d.journal
  {
  }

  lemma RestoreSteps(k: Intent, d: Disk, before: Inode)
    requires d.journal.Some?
    ensures
      var linked := Link(d, Displaced, Target);
      var end := Settle(k, At(d, RestoreLink, before));
      if linked.None? then end == Settle(k, Back(d, ReadDisplaced))
      else
        end == Settle(k, Back(if Unlink(linked.value, Displaced).Some? then Unlink(linked.value, Displaced).value else linked.value,
                              ReadDisplaced))
  {
    hide Settle;
    hide Unlink;
    Unroll(k, At(d, RestoreLink, before));
    var linked := Link(d, Displaced, Target);
    if linked.Some? {
      Unroll(k, At(linked.value, RestoreUnlink, before));
    }
  }

  lemma BeginAt(k: Intent)
    ensures At(Begin(k.original).disk, WriteIntent, 0) == Begin(k.original)
  {
  }
}
