/** Crash recovery of a save that no foreign writer disturbs.

    The original file is inode 0 and the proposed file, once created, inode 1.
 */
module SkillRecovery {
  import opened Options
  import opened SkillSave

  const O: Inode := 0
  const P: Inode := 1

  ghost predicate NoForeign(ls: seq<Label>) {
    forall l <- ls :: !l.Foreign?
  }

  // ---------------------------------------------------------------- the disk during a save

  ghost predicate DiskOk(k: Intent, d: Disk) {
    && O in d.content && d.content[O] == Whole(k.original)
    && (d.next == P || d.next == P + 1)
    && (d.next == P ==> Lookup(d.dir, Temp).None?)
    && (Lookup(d.dir, Temp).None? || Lookup(d.dir, Temp) == Some(P))
    && (Lookup(d.dir, Guard).None? || Lookup(d.dir, Guard) == Some(O))
    && (Lookup(d.dir, Target).None? || Lookup(d.dir, Target) == Some(O) || InstalledAs(k, d, Target))
    && (Lookup(d.dir, Displaced).None? || Lookup(d.dir, Displaced) == Some(O) || InstalledAs(k, d, Displaced))
    && (d.journal == None || d.journal == Some(None) || d.journal == Some(Some(P)))
    && (d.next == P + 1 ==> P in d.content && (d.content[P] == Torn || d.content[P] == Whole(k.proposed)))
  }

  /** The name holds the proposed file, which is recognizable as such. */
  ghost predicate InstalledAs(k: Intent, d: Disk, n: Name) {
    && Lookup(d.dir, n) == Some(P) && d.next == P + 1
    && P in d.content && d.content[P] == Whole(k.proposed)
    && (d.receipt || Lookup(d.dir, Temp) == Some(P) || d.journal == Some(Some(P)))
  }

  /** The original file has a name. */
  predicate Kept(d: Disk) {
    Lookup(d.dir, Target) == Some(O) || Lookup(d.dir, Guard) == Some(O) || Lookup(d.dir, Displaced) == Some(O)
  }

  /** What a save that runs undisturbed finds at each of its steps. */
  ghost predicate SaveFacts(k: Intent, s: State)
    requires s.proc.Saving?
  {
    var d, at := s.disk, s.proc.at;
    var target, temp, guard, displaced := Lookup(d.dir, Target), Lookup(d.dir, Temp), Lookup(d.dir, Guard), Lookup(d.dir, Displaced);
    && !d.receipt
    && !at.DropGuard? && !at.RestoreLink? && !at.RestoreUnlink?
    && (at.WriteIntent? <==> d.journal.None?)
    && (at.UnlinkTemp? || at.LoadUpdated? || at.CommitReceipt? <==> d.journal == Some(Some(P)))
    && (at.WriteIntent? || at.OpenTarget? || s.proc.before == O)
    && (at.WriteIntent? || at.OpenTarget? || at.CreateTemp? ==> d.next == P && target == Some(O) && guard.None? && displaced.None?)
    && (at.FillTemp? || at.LinkGuard? ==> temp == Some(P) && target == Some(O) && guard.None? && displaced.None?)
    && (at.CheckGuard? || at.RenameTarget? ==> temp == Some(P) && target == Some(O) && guard == Some(O) && displaced.None?)
    && (at.CheckDisplaced? || at.UnlinkDisplaced? ==> temp == Some(P) && target.None? && guard == Some(O) && displaced == Some(O))
    && (at.LinkTarget? ==> temp == Some(P) && target.None? && guard == Some(O) && displaced.None?)
    && (at.CheckInstalled? || at.WriteApplied? || at.UnlinkTemp? ==>
          temp == Some(P) && target == Some(P) && guard == Some(O) && displaced.None?)
    && (at.LoadUpdated? || at.CommitReceipt? ==> temp.None? && target == Some(P) && guard == Some(O) && displaced.None?)
    && (at.FillTemp? <==> TornTemp(d))
  }

  predicate TornTemp(d: Disk) {
    Lookup(d.dir, Temp) == Some(P) && P in d.content && d.content[P] == Torn
  }

  ghost predicate RollFacts(s: State)
    requires s.proc.Rolling?
  {
    var d, at := s.disk, s.proc.back;
    var target, guard, displaced := Lookup(d.dir, Target), Lookup(d.dir, Guard), Lookup(d.dir, Displaced);
    && !d.receipt && d.journal.Some?
    && (at.ReadTarget? ==> at.displaced == displaced)
    && (at.LinkBack? ==> target.None? && displaced.Some?)
    && (at.UnlinkBack? ==> target == displaced && displaced.Some?)
    && (at.ReadWitnesses? ==> displaced.None?)
    && (at.RenameProposed? ==> at.found == P && target == Some(P) && guard == Some(O) && displaced.None?)
    && (at.CheckMoved? ==> at.found == P && target.None? && guard == Some(O) && displaced == Some(P))
    && !at.ReturnLink? && !at.ReturnUnlink?
    && (at.LinkGuardBack? ==> target.None? && guard == Some(O) && displaced == if at.moved then Some(P) else None)
    && (at.UnlinkMoved? ==> target == Some(O) && displaced == Some(P))
    && (at.CleanGuard? || at.CleanTemp? || at.CheckGone? || at.DeleteIntent? ==> target == Some(O) && displaced.None?)
    && (at.CleanTemp? || at.CheckGone? || at.DeleteIntent? ==> guard.None?)
    && (at.CheckGone? || at.DeleteIntent? ==> Lookup(d.dir, Temp).None?)
  }

  ghost predicate Inv(k: Intent, s: State) {
    && DiskOk(k, s.disk)
    && (!s.disk.receipt ==> Kept(s.disk))
    && (s.disk.receipt ==> !s.proc.Saving? && !s.proc.Rolling? && InstalledAs(k, s.disk, Target) && Lookup(s.disk.dir, Displaced).None?)
    && (s.disk.receipt && s.disk.journal.None? ==> s.proc.Idle?)
    && (s.proc.Finalizing? ==> s.disk.receipt)
    && (s.proc.Saving? ==> SaveFacts(k, s))
    && (s.proc.Rolling? ==> RollFacts(s))
  }

  // ---------------------------------------------------------------- every step keeps the facts

  lemma RaiseKeeps(k: Intent, s: State)
    requires Inv(k, s)
    ensures Inv(k, Raise(s))
  {
  }

  lemma LinkingKeeps(k: Intent, s: State)
    requires Inv(k, s) && s.proc.Saving? && Linking(s.proc.at)
    ensures Inv(k, SaveAction(k, s))
  {
    hide Raise;
    hide Unsafe;
    hide ContentAt;
    hide Link;
    RaiseKeeps(k, s);
    var d, at := s.disk, s.proc.at;
    if at.LinkGuard? && Link(d, Target, Guard).Some? { LinkFrame(d, Target, Guard); }
    if at.LinkTarget? && Link(d, Temp, Target).Some? { LinkFrame(d, Temp, Target); }
  }

  lemma UnlinkingKeeps(k: Intent, s: State)
    requires Inv(k, s) && s.proc.Saving? && Unlinking(s.proc.at)
    ensures Inv(k, SaveAction(k, s))
  {
    hide Raise;
    hide Unsafe;
    hide ContentAt;
    hide Unlink;
    hide Rename;
    RaiseKeeps(k, s);
    var d, at := s.disk, s.proc.at;
    if at.RenameTarget? && Rename(d, Target, Displaced).Some? { RenameFrame(d, Target, Displaced); }
    if at.UnlinkDisplaced? && Unlink(d, Displaced).Some? { UnlinkFrame(d, Displaced); }
    if at.UnlinkTemp? && Unlink(d, Temp).Some? { UnlinkFrame(d, Temp); }
  }

  lemma WritingTempKeeps(k: Intent, s: State)
    requires Inv(k, s) && s.proc.Saving? && (s.proc.at.CreateTemp? || s.proc.at.FillTemp?)
    ensures Inv(k, SaveAction(k, s))
  {
    hide Raise;
    hide Links;
    RaiseKeeps(k, s);
  }

  lemma WritingKeeps(k: Intent, s: State)
    requires Inv(k, s) && s.proc.Saving? && Writing(s.proc.at)
    ensures Inv(k, SaveAction(k, s))
  {
    hide Raise;
    hide Links;
    hide Create;
    RaiseKeeps(k, s);
    if s.proc.at.CreateTemp? || s.proc.at.FillTemp? {
      WritingTempKeeps(k, s);
    }
  }

  lemma SaveKeeps(k: Intent, s: State)
    requires Inv(k, s) && s.proc.Saving?
    ensures Inv(k, SaveAction(k, s))
  {
    hide Links;
    hide Link;
    hide Unlink;
    hide Rename;
    hide Create;
    hide Raise;
    RaiseKeeps(k, s);
    var at := s.proc.at;
    if Linking(at) {
      LinkingKeeps(k, s);
    } else if Unlinking(at) {
      UnlinkingKeeps(k, s);
    } else if Writing(at) {
      WritingKeeps(k, s);
    }
  }

  lemma LinkingBackKeeps(k: Intent, s: State)
    requires Inv(k, s) && s.proc.Rolling? && LinkingBack(s.proc.back)
    ensures Inv(k, RollAction(k, s))
  {
    hide Raise;
    hide Unsafe;
    hide ContentAt;
    hide Link;
    hide Rename;
    hide Judge;
    RaiseKeeps(k, s);
    var d, at := s.disk, s.proc.back;
    if at.LinkBack? && Link(d, Displaced, Target).Some? { LinkFrame(d, Displaced, Target); }
    if at.RenameProposed? && Rename(d, Target, Displaced).Some? { RenameFrame(d, Target, Displaced); }
    if at.LinkGuardBack? && Link(d, Guard, Target).Some? { LinkFrame(d, Guard, Target); }
  }

  lemma UnlinkingBackKeeps(k: Intent, s: State)
    requires Inv(k, s) && s.proc.Rolling? && UnlinkingBack(s.proc.back)
    ensures Inv(k, RollAction(k, s))
  {
    hide Raise;
    hide Unsafe;
    hide ContentAt;
    hide Unlink;
    hide Clean;
    hide Judge;
    RaiseKeeps(k, s);
    var d, at := s.disk, s.proc.back;
    if (at.UnlinkBack? || at.UnlinkMoved?) && Unlink(d, Displaced).Some? { UnlinkFrame(d, Displaced); }
    if at.CleanGuard? && Clean(d, Guard, k.original).Some? { CleanFrame(d, Guard, k.original); }
    if at.CleanTemp? && Clean(d, Temp, k.proposed).Some? { CleanFrame(d, Temp, k.proposed); }
  }

  lemma JudgeKeeps(k: Intent, s: State)
    requires Inv(k, s) && s.proc == Rolling(ReadWitnesses)
    ensures Inv(k, Judge(k, s))
  {
    hide Raise;
    hide Unsafe;
    RaiseKeeps(k, s);
  }

  lemma RollKeeps(k: Intent, s: State)
    requires Inv(k, s) && s.proc.Rolling?
    ensures Inv(k, RollAction(k, s))
  {
    hide Raise;
    hide Unsafe;
    hide Link;
    hide Unlink;
    hide Rename;
    hide Clean;
    hide Judge;
    hide DiskOk;
    RaiseKeeps(k, s);
    var at := s.proc.back;
    if LinkingBack(at) {
      LinkingBackKeeps(k, s);
    } else if UnlinkingBack(at) {
      UnlinkingBackKeeps(k, s);
    } else if at.ReadWitnesses? {
      JudgeKeeps(k, s);
    } else if at.DeleteIntent? {
      DeleteKeeps(k, s);
    }
  }

  lemma DeleteKeeps(k: Intent, s: State)
    requires Inv(k, s) && s.proc == Rolling(DeleteIntent)
    ensures Inv(k, RollAction(k, s))
  {
  }

  lemma FinalKeeps(k: Intent, s: State)
    requires Inv(k, s) && s.proc.Finalizing?
    ensures Inv(k, FinalAction(k, s))
  {
    hide Clean;
    var d := s.disk;
    if s.proc.last.FinalGuard? && Clean(d, Guard, k.original).Some? { CleanFrame(d, Guard, k.original); }
    if s.proc.last.FinalTemp? && Clean(d, Temp, k.proposed).Some? { CleanFrame(d, Temp, k.proposed); }
  }

  lemma StepKeeps(k: Intent, s: State, l: Label)
    requires Inv(k, s) && !l.Foreign?
    ensures Inv(k, Next(k, s, l))
  {
    hide SaveAction;
    hide RollAction;
    hide FinalAction;
    if l.Proceed? {
      if s.proc.Saving? { SaveKeeps(k, s); }
      if s.proc.Rolling? { RollKeeps(k, s); }
      if s.proc.Finalizing? { FinalKeeps(k, s); }
    }
  }

  lemma {:induction false} RunKeeps(k: Intent, s: State, ls: seq<Label>)
    requires Inv(k, s) && NoForeign(ls)
    ensures Inv(k, Run(k, s, ls))
    decreases |ls|
  {
    hide Inv;
    hide Next;
    if ls != [] {
      RunKeeps(k, s, ls[..|ls| - 1]);
      StepKeeps(k, Run(k, s, ls[..|ls| - 1]), ls[|ls| - 1]);
    }
  }

  /** Until the receipt is committed the original bytes stay on disk as `SKILL.md`, as the original witness or as
      the displaced file, through any number of crashes, also inside rollback. */
  lemma OriginalStaysReachable(k: Intent, ls: seq<Label>)
    requires NoForeign(ls)
    ensures
      var d := Run(k, Begin(k.original), ls).disk;
      !d.receipt ==> exists n :: (n == Target || n == Guard || n == Displaced) && n in d.dir && ContentAt(d, n) == Whole(k.original)
  {
    RunKeeps(k, Begin(k.original), ls);
  }

  // ---------------------------------------------------------------- when rollback succeeds

  /** The states rollback can undo: the proposed file is not torn, and a displaced file beside a target is that same
      file, with no third name. */
  predicate Recoverable(d: Disk) {
    && !TornTemp(d)
    && (Displaced in d.dir && Target in d.dir ==> d.dir[Displaced] == d.dir[Target] && Links(d, d.dir[Target]) <= 2)
  }

  /** The original file is back and nothing else is left. */
  predicate Restored(k: Intent, d: Disk) {
    d.dir == map[Target := O] && d.journal.None? && ContentAt(d, Target) == Whole(k.original)
  }

  ghost predicate OnCourse(s: State)
    requires s.proc.Rolling?
  {
    && !TornTemp(s.disk)
    && (s.proc.back.ReadDisplaced? || s.proc.back.ReadTarget? ==> Recoverable(s.disk))
  }

  lemma ReadsOnCourse(k: Intent, s: State)
    requires Inv(k, s) && s.proc.Rolling? && OnCourse(s)
    requires s.proc.back.ReadDisplaced? || s.proc.back.ReadTarget? || s.proc.back.ReadWitnesses? || s.proc.back.CheckMoved?
    ensures RollAction(k, s).proc.Rolling? && OnCourse(RollAction(k, s))
  {
  }

  lemma MovesOnCourse(k: Intent, s: State)
    requires Inv(k, s) && s.proc.Rolling? && OnCourse(s)
    requires LinkingBack(s.proc.back) || UnlinkingBack(s.proc.back)
    ensures RollAction(k, s).proc.Rolling? && OnCourse(RollAction(k, s))
  {
  }

  /** A rollback that is on course runs through and restores the original. */
  lemma {:induction false} RollbackRestores(k: Intent, s: State)
    requires Inv(k, s) && s.proc.Rolling? && OnCourse(s)
    ensures Restored(k, Settle(k, s).disk)
    decreases Rank(s.proc)
  {
    hide Inv;
    hide OnCourse;
    hide RollAction;
    var at := s.proc.back;
    ActDescends(k, s);
    RollKeeps(k, s);
    if LinkingBack(at) || UnlinkingBack(at) {
      MovesOnCourse(k, s);
      RollbackRestores(k, RollAction(k, s));
    } else if at.CheckGone? || at.DeleteIntent? {
      LastSteps(k, s);
    } else {
      ReadsOnCourse(k, s);
      RollbackRestores(k, RollAction(k, s));
    }
  }

  lemma LastSteps(k: Intent, s: State)
    requires Inv(k, s) && s.proc.Rolling? && (s.proc.back.CheckGone? || s.proc.back.DeleteIntent?)
    ensures Restored(k, Settle(k, s).disk)
  {
    var d := s.disk;
    assert d.dir == map[Target := O] by {
      forall n: Name
        ensures n in d.dir <==> n == Target
      {
        assert Lookup(d.dir, n).Some? <==> n == Target;
      }
    }
    var last := s.(proc := Rolling(DeleteIntent));
    var done := s.(disk := d.(journal := None), proc := Idle);
    assert Settle(k, done) == done;
    assert Settle(k, last) == done;
  }

  /** A torn proposed file stops the rollback before it deletes the journal. */
  lemma {:induction false} TornStops(k: Intent, s: State)
    requires Inv(k, s) && s.proc.Rolling? && TornTemp(s.disk)
    ensures Settle(k, s).disk.journal == s.disk.journal && Lookup(Settle(k, s).disk.dir, Target) == Some(O)
    decreases Rank(s.proc)
  {
    hide Inv;
    hide RollAction;
    ActDescends(k, s);
    RollKeeps(k, s);
    TornStep(k, s);
    if RollAction(k, s).proc.Rolling? {
      TornStops(k, RollAction(k, s));
    } else {
      assert Settle(k, RollAction(k, s)) == RollAction(k, s);
    }
  }

  lemma TornStep(k: Intent, s: State)
    requires Inv(k, s) && s.proc.Rolling? && TornTemp(s.disk)
    ensures
      var n := RollAction(k, s);
      && TornTemp(n.disk) && n.disk.journal == s.disk.journal
      && (n.proc.Rolling? || (n.proc.Idle? && Lookup(n.disk.dir, Target) == Some(O)))
  {
    hide IsProposed;
    hide IsOriginal;
  }

  /** A displaced file that differs from the target, or has a third name, stops the rollback at once. */
  lemma AmbiguousStops(k: Intent, s: State)
    requires Inv(k, s) && s.proc == Rolling(ReadDisplaced) && !TornTemp(s.disk) && !Recoverable(s.disk)
    ensures Settle(k, s).disk == s.disk
  {
    var next := RollAction(k, s);
    if Unsafe(s.disk, Displaced) {
      assert next == s.(proc := Idle);
    } else {
      assert next == s.(proc := Rolling(ReadTarget(Lookup(s.disk.dir, Displaced))));
      assert RollAction(k, next) == s.(proc := Idle);
      assert Settle(k, next) == s.(proc := Idle);
    }
  }

  lemma {:induction false} FinalizationCompletes(k: Intent, s: State)
    requires Inv(k, s) && s.proc.Finalizing?
    requires s.proc.last.FinalTemp? || s.proc.last.FinalDelete? ==> Lookup(s.disk.dir, Guard).None?
    requires s.proc.last.FinalDelete? ==> Lookup(s.disk.dir, Temp).None?
    ensures
      var d := Settle(k, s).disk;
      d.dir == map[Target := P] && d.journal.None? && d.receipt && ContentAt(d, Target) == Whole(k.proposed)
    decreases Rank(s.proc)
  {
    ActDescends(k, s);
    FinalKeeps(k, s);
    var next := FinalAction(k, s);
    if s.proc.last.FinalDelete? {
      assert Settle(k, next) == next;
      var d := next.disk;
      forall n: Name
        ensures n in d.dir <==> n == Target
      {
        assert Lookup(d.dir, n).Some? <==> n == Target;
      }
      assert d.dir == map[Target := P];
    } else {
      FinalStepGoes(k, s);
      FinalizationCompletes(k, next);
    }
  }

  lemma FinalStepGoes(k: Intent, s: State)
    requires Inv(k, s) && s.proc.Finalizing? && !s.proc.last.FinalDelete?
    requires s.proc.last.FinalTemp? ==> Lookup(s.disk.dir, Guard).None?
    ensures
      var n := FinalAction(k, s);
      && n.proc.Finalizing?
      && (n.proc.last.FinalTemp? || n.proc.last.FinalDelete? ==> Lookup(n.disk.dir, Guard).None?)
      && (n.proc.last.FinalDelete? ==> Lookup(n.disk.dir, Temp).None?)
  {
  }

  /** Recovery after any crashes, as long as nobody else writes the skill: if the receipt was committed it leaves the
      proposed file alone in the directory; otherwise it leaves the original file alone exactly when the state is
      recoverable, and else keeps the journal for manual recovery. */
  lemma RecoveryIff(k: Intent, ls: seq<Label>)
    requires NoForeign(ls)
    ensures
      var s := Run(k, Begin(k.original), ls).(proc := Idle);
      var after := Settle(k, Restart(s)).disk;
      s.disk.journal.Some? ==>
        && (s.disk.receipt ==>
              after.dir == map[Target := P] && after.journal.None? && ContentAt(after, Target) == Whole(k.proposed))
        && (!s.disk.receipt && Recoverable(s.disk) ==> Restored(k, after))
        && (!s.disk.receipt && !Recoverable(s.disk) ==> after.journal.Some?)
  {
    RunKeeps(k, Begin(k.original), ls);
    var s := Run(k, Begin(k.original), ls).(proc := Idle);
    if s.disk.journal.Some? {
      RecoverIdle(k, s);
    }
  }

  lemma RecoverIdle(k: Intent, s: State)
    requires Inv(k, s) && s.proc.Idle? && s.disk.journal.Some?
    ensures
      var after := Settle(k, Restart(s)).disk;
      && (s.disk.receipt ==>
            after.dir == map[Target := P] && after.journal.None? && ContentAt(after, Target) == Whole(k.proposed))
      && (!s.disk.receipt && Recoverable(s.disk) ==> Restored(k, after))
      && (!s.disk.receipt && !Recoverable(s.disk) ==> after.journal.Some?)
  {
    hide Settle;
    var started := Restart(s);
    if s.disk.receipt {
      FinalizationCompletes(k, started);
    } else if Recoverable(s.disk) {
      RollbackRestores(k, started);
    } else if TornTemp(s.disk) {
      TornStops(k, started);
    } else {
      AmbiguousStops(k, started);
    }
  }

  // ---------------------------------------------------------------- a crash at any step of a save

  function Steps(n: nat): seq<Label> {
    seq(n, _ => Proceed)
  }

  /** A save killed at any of its steps is undone by one uninterrupted recovery: the directory holds the original alone
      and the journal is gone, unless the kill came while the proposed file was being filled, in which case `SKILL.md`
      is untouched and the journal stays.  A save killed after its receipt is completed. */
  lemma CrashedSaveRecovers(k: Intent, n: nat)
    ensures
      var s := Run(k, Begin(k.original), Steps(n));
      var after := Settle(k, Restart(s.(proc := Idle))).disk;
      && (s.proc.Saving? && !s.proc.at.FillTemp? ==> Restored(k, after))
      && (s.proc.Saving? && s.proc.at.FillTemp? ==>
            after.journal.Some? && ContentAt(after, Target) == Whole(k.original))
      && (s.proc.Finalizing? ==>
            after.dir == map[Target := P] && after.journal.None? && ContentAt(after, Target) == Whole(k.proposed))
  {
    hide Inv;
    hide Settle;
    hide Run;
    var s := Run(k, Begin(k.original), Steps(n));
    BeginOk(k);
    RunKeeps(k, Begin(k.original), Steps(n));
    CrashOnceRecovers(k, s);
  }

  lemma BeginOk(k: Intent)
    ensures Inv(k, Begin(k.original))
  {
  }

  lemma CrashOnceRecovers(k: Intent, s: State)
    requires Inv(k, s)
    ensures
      var after := Settle(k, Restart(s.(proc := Idle))).disk;
      && (s.proc.Saving? && !s.proc.at.FillTemp? ==> Restored(k, after))
      && (s.proc.Saving? && s.proc.at.FillTemp? ==>
            after.journal.Some? && ContentAt(after, Target) == Whole(k.original))
      && (s.proc.Finalizing? ==>
            after.dir == map[Target := P] && after.journal.None? && ContentAt(after, Target) == Whole(k.proposed))
  {
    hide Settle;
    var idle := s.(proc := Idle);
    if s.proc.Saving? && s.proc.at.WriteIntent? {
      BeforeIntent(k, s);
    } else if s.proc.Saving? && s.proc.at.FillTemp? {
      TornStops(k, Restart(idle));
      SettleKeeps(k, Restart(idle));
    } else if s.proc.Saving? {
      SaveIsRecoverable(k, s);
      RecoverIdle(k, idle);
    } else if s.proc.Finalizing? {
      RecoverIdle(k, idle);
    }
  }

  lemma BeforeIntent(k: Intent, s: State)
    requires Inv(k, s) && s.proc.Saving? && s.proc.at.WriteIntent?
    ensures Restored(k, Settle(k, Restart(s.(proc := Idle))).disk)
  {
    var d := s.disk;
    forall n: Name
      ensures n in d.dir <==> n == Target
    {
      assert Lookup(d.dir, n).Some? <==> n == Target;
    }
    assert d.dir == map[Target := O];
  }

  lemma SaveIsRecoverable(k: Intent, s: State)
    requires Inv(k, s) && s.proc.Saving? && !s.proc.at.FillTemp?
    ensures Recoverable(s.disk)
  {
  }

  lemma {:induction false} SettleKeeps(k: Intent, s: State)
    requires Inv(k, s)
    ensures Inv(k, Settle(k, s))
    decreases Rank(s.proc)
  {
    hide Inv;
    if s.proc != Idle {
      ActDescends(k, s);
      StepKeeps(k, s, Proceed);
      SettleKeeps(k, Act(k, s));
    }
  }

  /** A save that nothing disturbs commits its receipt and leaves the proposed file alone in the directory. */
  lemma UndisturbedSaveCommits(k: Intent)
    ensures
      var after := Settle(k, Begin(k.original)).disk;
      after.dir == map[Target := P] && after.journal.None? && after.receipt && ContentAt(after, Target) == Whole(k.proposed)
  {
    hide Inv;
    BeginOk(k);
    SaveRunsOn(k, Begin(k.original));
  }

  lemma {:induction false} SaveRunsOn(k: Intent, s: State)
    requires Inv(k, s) && s.proc.Saving?
    ensures
      var after := Settle(k, s).disk;
      after.dir == map[Target := P] && after.journal.None? && after.receipt && ContentAt(after, Target) == Whole(k.proposed)
    decreases Rank(s.proc)
  {
    hide Inv;
    hide SaveAction;
    ActDescends(k, s);
    SaveKeeps(k, s);
    SaveGoesOn(k, s);
    var next := SaveAction(k, s);
    if next.proc.Saving? {
      SaveRunsOn(k, next);
    } else {
      FinalizationCompletes(k, next);
    }
  }

  lemma SaveGoesOn(k: Intent, s: State)
    requires Inv(k, s) && s.proc.Saving?
    ensures SaveAction(k, s).proc.Saving? || SaveAction(k, s).proc == Finalizing(FinalCheck)
  {
  }

  // ---------------------------------------------------------------- a second crash, inside rollback

  lemma RunOneMore(k: Intent, s: State, ls: seq<Label>, l: Label)
    ensures Run(k, s, ls + [l]) == Next(k, Run(k, s, ls), l)
  {
    assert (ls + [l])[..|ls| + 1 - 1] == ls;
  }

  lemma KillRestartKill(k: Intent, s: State)
    ensures
      var back := Next(k, Next(k, s, Kill), Start);
      Run(k, s, [Kill, Start, Proceed, Proceed, Proceed, Kill])
        == Next(k, Next(k, Next(k, Next(k, back, Proceed), Proceed), Proceed), Kill)
  {
    hide Next;
    RunOneMore(k, s, [], Kill);
    RunOneMore(k, s, [Kill], Start);
    RunOneMore(k, s, [Kill, Start], Proceed);
    RunOneMore(k, s, [Kill, Start, Proceed], Proceed);
    RunOneMore(k, s, [Kill, Start, Proceed, Proceed], Proceed);
    RunOneMore(k, s, [Kill, Start, Proceed, Proceed, Proceed], Kill);
    assert [] + [Kill] == [Kill];
    assert [Kill] + [Start] == [Kill, Start];
    assert [Kill, Start] + [Proceed] == [Kill, Start, Proceed];
    assert [Kill, Start, Proceed] + [Proceed] == [Kill, Start, Proceed, Proceed];
    assert [Kill, Start, Proceed, Proceed] + [Proceed] == [Kill, Start, Proceed, Proceed, Proceed];
    assert [Kill, Start, Proceed, Proceed, Proceed] + [Kill] == [Kill, Start, Proceed, Proceed, Proceed, Kill];
  }

  /** The step a save stands at after so many steps, up to the check of the displaced file. */
  function StepNumber(n: nat): SaveStep {
    match n
    case 0 => WriteIntent
    case 1 => OpenTarget
    case 2 => CreateTemp
    case 3 => FillTemp
    case 4 => LinkGuard
    case 5 => CheckGuard
    case 6 => RenameTarget
    case _ => CheckDisplaced
  }

  lemma StepFollows(k: Intent, s: State, n: nat)
    requires Inv(k, s) && s.proc.Saving? && n < 7 && s.proc.at == StepNumber(n)
    ensures SaveAction(k, s).proc.Saving? && SaveAction(k, s).proc.at == StepNumber(n + 1)
  {
  }

  lemma {:induction false} SaveReaches(k: Intent, n: nat)
    requires n <= 7
    ensures
      var s := Run(k, Begin(k.original), Steps(n));
      Inv(k, s) && s.proc.Saving? && s.proc.at == StepNumber(n)
  {
    hide Inv;
    hide SaveAction;
    BeginOk(k);
    if n > 0 {
      SaveReaches(k, n - 1);
      var before := Run(k, Begin(k.original), Steps(n - 1));
      assert Steps(n) == Steps(n - 1) + [Proceed];
      RunOneMore(k, Begin(k.original), Steps(n - 1), Proceed);
      StepFollows(k, before, n - 1);
      SaveKeeps(k, before);
    }
  }

  /** Two crashes: one right after the rename, and one between the two calls that put the displaced file back.  They
      leave three names for the original, and recovery then asks for manual help. */
  lemma SecondCrashNeedsHelp(k: Intent)
    ensures
      var first := Run(k, Begin(k.original), Steps(7));
      var second := Run(k, first, [Kill, Start, Proceed, Proceed, Proceed, Kill]);
      second.proc.Idle? && !Recoverable(second.disk) && second.disk.journal.Some? && !second.disk.receipt
  {
    hide Run;
    SaveReaches(k, 7);
    var s0 := Run(k, Begin(k.original), Steps(7));
    var d := s0.disk;
    var s2 := s0.(proc := Rolling(ReadDisplaced));
    assert Next(k, Next(k, s0, Kill), Start) == s2;
    var s3 := s2.(proc := Rolling(ReadTarget(Some(O))));
    assert Next(k, s2, Proceed) == s3;
    var s4 := s2.(proc := Rolling(LinkBack));
    assert Next(k, s3, Proceed) == s4;
    var s5 := s2.(disk := d.(dir := d.dir[Target := O]), proc := Rolling(UnlinkBack));
    assert Next(k, s4, Proceed) == s5;
    KillRestartKill(k, s0);
    assert Links(s5.disk, O) == 3;
  }
}
