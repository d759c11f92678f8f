/** Another writer's version of a skill is never lost to a save or its recovery. */
module SkillForeign {
  import opened Options
  import opened SkillSave

  /** Inodes in use were allocated before. */
  ghost predicate Allocated(s: State) {
    var d := s.disk;
    && (forall n :: Lookup(d.dir, n).Some? ==> Lookup(d.dir, n).value < d.next)
    && (d.journal.Some? && d.journal.value.Some? ==> d.journal.value.value < d.next)
    && (s.proc.Saving? ==> s.proc.before < d.next)
    && (s.proc.Rolling? && s.proc.back.RenameProposed? ==> s.proc.back.found < d.next)
    && (s.proc.Rolling? && s.proc.back.CheckMoved? ==> s.proc.back.found < d.next)
  }

  /** The foreign file is whole and is not one of the files of the transaction. */
  ghost predicate Foreign(s: State, f: Inode, b: Bytes) {
    var d := s.disk;
    && f < d.next && f in d.content && d.content[f] == Whole(b)
    && (Lookup(d.dir, Target) == Some(f) || Lookup(d.dir, Displaced) == Some(f))
    && Lookup(d.dir, Temp) != Some(f)
    && d.journal != Some(Some(f))
    && (s.proc.Saving? && !s.proc.at.WriteIntent? && !s.proc.at.OpenTarget? ==> s.proc.before != f)
  }

  /** Dropping the displaced name would not drop the foreign file. */
  ghost predicate Spare(s: State, f: Inode) {
    Lookup(s.disk.dir, Displaced) == Some(f) ==> Lookup(s.disk.dir, Target) == Some(f)
  }

  ghost predicate SaveFacts(s: State)
    requires s.proc.Saving?
  {
    var d, at := s.disk, s.proc.at;
    && (at.CheckDisplaced? || at.RestoreLink? || at.RestoreUnlink? || at.UnlinkDisplaced? || Lookup(d.dir, Displaced).None?)
    && (at.RenameTarget? || at.CheckDisplaced? || at.UnlinkDisplaced? ==> Lookup(d.dir, Guard) == Some(s.proc.before))
    && (at.UnlinkDisplaced? ==> Lookup(d.dir, Displaced) == Some(s.proc.before))
  }

  /** The rollback steps that come after the displaced file was dealt with. */
  predicate DisplacedGone(at: RollStep) {
    || at.ReadWitnesses? || at.RenameProposed? || at == LinkGuardBack(false)
    || at.CleanGuard? || at.CleanTemp? || at.CheckGone? || at.DeleteIntent?
  }

  ghost predicate RollFacts(s: State)
    requires s.proc.Rolling?
  {
    var d, at := s.disk, s.proc.back;
    && (at.ReadTarget? ==> at.displaced == Lookup(d.dir, Displaced))
    && (DisplacedGone(at) ==> Lookup(d.dir, Displaced).None?)
  }

  ghost predicate ForeignFacts(s: State, f: Inode, b: Bytes) {
    && Foreign(s, f, b)
    && (s.proc.Saving? && s.proc.at.RestoreUnlink? ==> Spare(s, f))
    && (s.proc.Rolling? ==>
         var at := s.proc.back;
         && (at.UnlinkBack? || at.ReturnUnlink? ==> Spare(s, f))
         && (at.RenameProposed? || at.CheckMoved? ==> at.found != f)
         && (at == LinkGuardBack(true) || at.UnlinkMoved? ==> Lookup(s.disk.dir, Displaced) != Some(f)))
  }

  ghost predicate Inv(s: State) {
    && Allocated(s)
    && (s.proc.Saving? ==> SaveFacts(s))
    && (s.proc.Rolling? ==> RollFacts(s))
    && (s.foreign.Some? ==> ForeignFacts(s, s.foreign.value.0, s.foreign.value.1))
  }

  // ---------------------------------------------------------------- every step keeps the facts

  lemma RaiseKeeps(s: State)
    requires Inv(s)
    ensures Inv(Raise(s))
  {
  }

  lemma LinkingKeeps(k: Intent, s: State)
    requires Inv(s) && s.proc.Saving? && Linking(s.proc.at)
    ensures Inv(SaveAction(k, s))
  {
    hide Raise;
    hide Unsafe;
    hide ContentAt;
    hide Link;
    RaiseKeeps(s);
    var d, at := s.disk, s.proc.at;
    if at.LinkGuard? && Link(d, Target, Guard).Some? { LinkFrame(d, Target, Guard); }
    if at.RestoreLink? && Link(d, Displaced, Target).Some? { LinkFrame(d, Displaced, Target); }
    if at.LinkTarget? && Link(d, Temp, Target).Some? { LinkFrame(d, Temp, Target); }
  }

  lemma UnlinkingKeeps(k: Intent, s: State)
    requires Inv(s) && s.proc.Saving? && Unlinking(s.proc.at)
    ensures Inv(SaveAction(k, s))
  {
    hide Raise;
    hide Unsafe;
    hide ContentAt;
    hide Unlink;
    hide Rename;
    RaiseKeeps(s);
    var d, at := s.disk, s.proc.at;
    if at.DropGuard? && Unlink(d, Guard).Some? { UnlinkFrame(d, Guard); }
    if at.RenameTarget? && Rename(d, Target, Displaced).Some? { RenameFrame(d, Target, Displaced); }
    if (at.RestoreUnlink? || at.UnlinkDisplaced?) && Unlink(d, Displaced).Some? { UnlinkFrame(d, Displaced); }
    if at.UnlinkTemp? && Unlink(d, Temp).Some? { UnlinkFrame(d, Temp); }
  }

  lemma WritingKeeps(k: Intent, s: State)
    requires Inv(s) && s.proc.Saving? && Writing(s.proc.at)
    ensures Inv(SaveAction(k, s))
  {
    hide Raise;
    RaiseKeeps(s);
    Looks(s.disk);
  }

  lemma OpeningKeeps(k: Intent, s: State)
    requires Inv(s) && s.proc.Saving? && s.proc.at.OpenTarget?
    ensures Inv(SaveAction(k, s))
  {
    hide Links;
    hide ContentAt;
    hide Raise;
    RaiseKeeps(s);
    Looks(s.disk);
  }

  lemma CheckingKeeps(k: Intent, s: State)
    requires Inv(s) && s.proc.Saving? && !Linking(s.proc.at) && !Unlinking(s.proc.at) && !Writing(s.proc.at)
    requires !s.proc.at.OpenTarget?
    ensures Inv(SaveAction(k, s))
  {
    hide Links;
    hide Unsafe;
    hide ContentAt;
    hide Raise;
    RaiseKeeps(s);
    Looks(s.disk);
  }

  lemma SaveKeeps(k: Intent, s: State)
    requires Inv(s) && s.proc.Saving?
    ensures Inv(SaveAction(k, s))
  {
    hide Inv;
    hide SaveAction;
    if Linking(s.proc.at) {
      LinkingKeeps(k, s);
    } else if Unlinking(s.proc.at) {
      UnlinkingKeeps(k, s);
    } else if Writing(s.proc.at) {
      WritingKeeps(k, s);
    } else if s.proc.at.OpenTarget? {
      OpeningKeeps(k, s);
    } else {
      CheckingKeeps(k, s);
    }
  }

  lemma LinkingBackKeeps(k: Intent, s: State)
    requires Inv(s) && s.proc.Rolling? && LinkingBack(s.proc.back)
    ensures Inv(RollAction(k, s))
  {
    hide Raise;
    hide Unsafe;
    hide ContentAt;
    hide Link;
    hide Rename;
    hide Judge;
    RaiseKeeps(s);
    var d, at := s.disk, s.proc.back;
    if (at.LinkBack? || at.ReturnLink?) && Link(d, Displaced, Target).Some? { LinkFrame(d, Displaced, Target); }
    if at.RenameProposed? && Rename(d, Target, Displaced).Some? { RenameFrame(d, Target, Displaced); }
    if at.LinkGuardBack? && Link(d, Guard, Target).Some? { LinkFrame(d, Guard, Target); }
  }

  lemma UnlinkingBackKeeps(k: Intent, s: State)
    requires Inv(s) && s.proc.Rolling? && UnlinkingBack(s.proc.back)
    ensures Inv(RollAction(k, s))
  {
    hide Raise;
    hide Unsafe;
    hide ContentAt;
    hide Unlink;
    hide Clean;
    hide Judge;
    RaiseKeeps(s);
    var d, at := s.disk, s.proc.back;
    if (at.UnlinkBack? || at.ReturnUnlink? || at.UnlinkMoved?) && Unlink(d, Displaced).Some? { UnlinkFrame(d, Displaced); }
    if at.CleanGuard? && Clean(d, Guard, k.original).Some? { CleanFrame(d, Guard, k.original); }
    if at.CleanTemp? && Clean(d, Temp, k.proposed).Some? { CleanFrame(d, Temp, k.proposed); }
  }

  lemma RollKeeps(k: Intent, s: State)
    requires Inv(s) && s.proc.Rolling?
    ensures Inv(RollAction(k, s))
  {
    hide Links;
    hide Unsafe;
    hide Link;
    hide Unlink;
    hide Rename;
    hide Clean;
    hide ContentAt;
    hide IsOriginal;
    hide GuardIsOriginal;
    Looks(s.disk);
    if LinkingBack(s.proc.back) {
      LinkingBackKeeps(k, s);
    } else if UnlinkingBack(s.proc.back) {
      UnlinkingBackKeeps(k, s);
    }
  }

  lemma FinalKeeps(k: Intent, s: State)
    requires Inv(s) && s.proc.Finalizing?
    ensures Inv(FinalAction(k, s))
  {
    hide Clean;
    var d := s.disk;
    if s.proc.last.FinalGuard? && Clean(d, Guard, k.original).Some? { CleanFrame(d, Guard, k.original); }
    if s.proc.last.FinalTemp? && Clean(d, Temp, k.proposed).Some? { CleanFrame(d, Temp, k.proposed); }
  }

  lemma StepKeeps(k: Intent, s: State, l: Label)
    requires Inv(s)
    ensures Inv(Next(k, s, l))
  {
    hide SaveAction;
    hide RollAction;
    hide FinalAction;
    Looks(s.disk);
    if l.Proceed? {
      if s.proc.Saving? { SaveKeeps(k, s); }
      if s.proc.Rolling? { RollKeeps(k, s); }
      if s.proc.Finalizing? { FinalKeeps(k, s); }
    }
  }

  lemma {:induction false} RunKeeps(k: Intent, s: State, ls: seq<Label>)
    requires Inv(s)
    ensures Inv(Run(k, s, ls))
    decreases |ls|
  {
    if ls != [] {
      RunKeeps(k, s, ls[..|ls| - 1]);
      StepKeeps(k, Run(k, s, ls[..|ls| - 1]), ls[|ls| - 1]);
    }
  }

  // ---------------------------------------------------------------- results

  /** Whatever the save, its rollbacks, crashes, restarts and failing system calls do, the newest version a
      foreign writer gave `SKILL.md` between any two steps is still there, with its bytes, as `SKILL.md` or as the
      displaced file, unless the save opened that very version as the source it replaces. */
  lemma NewestForeignVersionSurvives(k: Intent, b: Bytes, ls: seq<Label>)
    ensures
      var s := Run(k, Begin(b), ls);
      s.foreign.Some? ==>
        var (f, bytes) := s.foreign.value;
        && f in s.disk.content && s.disk.content[f] == Whole(bytes)
        && (Lookup(s.disk.dir, Target) == Some(f) || Lookup(s.disk.dir, Displaced) == Some(f))
  {
    RunKeeps(k, Begin(b), ls);
  }

  /** No rename ever replaces an existing displaced file. */
  lemma RenameNeverClobbers(k: Intent, b: Bytes, ls: seq<Label>)
    ensures
      var s := Run(k, Begin(b), ls);
      (s.proc.Saving? && s.proc.at.RenameTarget?) || (s.proc.Rolling? && s.proc.back.RenameProposed?) ==>
        Displaced !in s.disk.dir
  {
    RunKeeps(k, Begin(b), ls);
  }
}
