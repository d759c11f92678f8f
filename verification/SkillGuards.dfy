/** What a save, a rollback and a finalization had seen when they took a step they cannot take back, whatever another
    writer, crashes, restarts and failing system calls do in between. */
module SkillGuards {
  import opened Options
  import opened SkillSave
  import SkillForeign

  predicate SameFile(d: Disk, a: Name, b: Name) {
    a in d.dir && b in d.dir && d.dir[a] == d.dir[b]
  }

  predicate Holds(d: Disk, n: Name, bytes: Bytes) {
    n in d.dir && ContentAt(d, n) == Whole(bytes)
  }

  predicate Gone(d: Disk, n: Name) {
    n !in d.dir
  }

  /** The install was recorded in the journal. */
  predicate Applied(d: Disk) {
    d.journal.Some? && d.journal.value.Some?
  }

  predicate SaveEarned(k: Intent, d: Disk, at: SaveStep, before: Inode) {
    match at
    case CreateTemp =>                              // the proposed file is written
      Holds(d, Target, k.original) && d.dir[Target] == before && Links(d, before) == 1
    case RenameTarget => Holds(d, Guard, k.original) && d.dir[Guard] == before
    case UnlinkDisplaced => SameFile(d, Displaced, Guard)
    case WriteApplied => SameFile(d, Target, Temp)
    case CommitReceipt => Holds(d, Target, k.proposed)
    case DropGuard => Guard in d.dir && !(d.dir[Guard] == before && Holds(d, Guard, k.original))
    case RestoreLink => Displaced in d.dir && !SameFile(d, Displaced, Guard)
    case _ => true
  }

  predicate RollEarned(k: Intent, d: Disk, at: RollStep) {
    match at
    case LinkBack => Gone(d, Target)
    case UnlinkBack => SameFile(d, Displaced, Target)
    case RenameProposed(found) =>
      && Holds(d, Target, k.proposed) && d.dir[Target] == found && Holds(d, Guard, k.original)
      && (SameFile(d, Target, Temp) || d.journal == Some(Some(found)))
    case ReturnLink => Displaced in d.dir
    case LinkGuardBack(moved) => (moved || Gone(d, Target)) && Holds(d, Guard, k.original)
    case UnlinkMoved => Holds(d, Target, k.original)
    case CleanGuard => Holds(d, Target, k.original) || d.journal == Some(None)
    case CleanTemp => Gone(d, Guard)
    case CheckGone => Gone(d, Guard) && Gone(d, Temp)
    case DeleteIntent => Gone(d, Guard) && Gone(d, Temp) && Gone(d, Displaced)
    case _ => true
  }

  /** What the process knew when it entered the step it stands at. */
  predicate Earned(k: Intent, s: State) {
    match s.proc
    case Idle => true
    case Saving(at, before) => SaveEarned(k, s.disk, at, before)
    case Rolling(at) => RollEarned(k, s.disk, at)
    case Finalizing(last) =>
      match last
      case FinalCheck => true
      case FinalGuard => Gone(s.disk, Displaced)
      case FinalTemp => Gone(s.disk, Guard)
      case FinalDelete => Gone(s.disk, Guard) && Gone(s.disk, Temp)
  }

  /** Dropping the moved file and dropping the guard rest on the same look at `SKILL.md`. */
  predicate SameLook(before: Proc, now: Proc) {
    before == now || (before == Rolling(UnlinkMoved) && now == Rolling(CleanGuard))
  }

  /** At some moment of the run what the present step rests on was the case, and the process has gone no further since. */
  ghost predicate WasEarned(k: Intent, s: State, ls: seq<Label>)
    decreases |ls|
  {
    var t := Run(k, s, ls);
    || Earned(k, t)
    || (ls != [] && SameLook(Run(k, s, ls[..|ls| - 1]).proc, t.proc) && WasEarned(k, s, ls[..|ls| - 1]))
  }

  // ---------------------------------------------------------------- the witnesses between two steps

  /** Nobody but the process writes the witnesses. */
  ghost predicate WitnessFacts(k: Intent, s: State) {
    var d := s.disk;
    match s.proc
    case Idle => true
    case Saving(_, _) => true
    case Rolling(at) =>
      && (at.RenameProposed? || at.CheckMoved? || at.LinkGuardBack? ==> Holds(d, Guard, k.original))
      && (at.ReadTarget? ==> at.displaced == Lookup(d.dir, Displaced))
      && (at.CleanTemp? || at.CheckGone? || at.DeleteIntent? ==> Gone(d, Guard))
      && (at.CheckGone? || at.DeleteIntent? ==> Gone(d, Temp))
    case Finalizing(last) =>
      && (last.FinalTemp? || last.FinalDelete? ==> Gone(d, Guard))
      && (last.FinalDelete? ==> Gone(d, Temp))
  }

  lemma CleanGone(d: Disk, n: Name, expected: Bytes)
    requires Clean(d, n, expected).Some?
    ensures forall m :: m in Clean(d, n, expected).value.dir <==> m in d.dir && m != n
  {
  }

  lemma SaveStepEarned(k: Intent, s: State)
    requires s.proc.Saving?
    ensures SaveAction(k, s).proc != s.proc ==> Earned(k, SaveAction(k, s))
    ensures WitnessFacts(k, SaveAction(k, s))
  {
    hide Links;
    hide Create;
    hide Link;
    hide Unlink;
    hide Rename;
  }

  lemma RollStepEarned(k: Intent, s: State)
    requires s.proc.Rolling? && WitnessFacts(k, s)
    ensures
      var t := RollAction(k, s);
      && WitnessFacts(k, t)
      && (t.proc != s.proc ==> Earned(k, t) || SameLook(s.proc, t.proc))
  {
    hide Links;
    hide Unsafe;
    hide Clean;
    var d, at := s.disk, s.proc.back;
    if at.CleanGuard? && Clean(d, Guard, k.original).Some? { CleanGone(d, Guard, k.original); }
    if at.CleanTemp? && Clean(d, Temp, k.proposed).Some? { CleanGone(d, Temp, k.proposed); }
  }

  lemma FinalStepEarned(k: Intent, s: State)
    requires s.proc.Finalizing? && WitnessFacts(k, s)
    ensures FinalAction(k, s).proc != s.proc ==> Earned(k, FinalAction(k, s))
    ensures WitnessFacts(k, FinalAction(k, s))
  {
    hide Clean;
    var d := s.disk;
    if s.proc.last.FinalGuard? && Clean(d, Guard, k.original).Some? { CleanGone(d, Guard, k.original); }
    if s.proc.last.FinalTemp? && Clean(d, Temp, k.proposed).Some? { CleanGone(d, Temp, k.proposed); }
  }

  lemma OverwriteKeepsWitnesses(k: Intent, s: State, b: Bytes)
    requires WitnessFacts(k, s) && SkillForeign.Allocated(s)
    ensures WitnessFacts(k, Overwrite(s, b))
  {
    assert Guard in s.disk.dir ==> Lookup(s.disk.dir, Guard) == Some(s.disk.dir[Guard]);
  }

  lemma StepEarned(k: Intent, s: State, l: Label)
    requires WitnessFacts(k, s) && SkillForeign.Allocated(s)
    ensures
      var t := Next(k, s, l);
      && WitnessFacts(k, t)
      && (Earned(k, t) || SameLook(s.proc, t.proc))
  {
    hide SaveAction;
    hide RollAction;
    hide FinalAction;
    hide SaveEarned;
    match l
    case Proceed =>
      if s.proc.Saving? { SaveStepEarned(k, s); }
      if s.proc.Rolling? { RollStepEarned(k, s); }
      if s.proc.Finalizing? { FinalStepEarned(k, s); }
    case Foreign(b) => OverwriteKeepsWitnesses(k, s, b);
    case _ =>
  }

  // ---------------------------------------------------------------- results

  lemma {:induction false} RunKeepsWitnesses(k: Intent, b: Bytes, ls: seq<Label>)
    ensures WitnessFacts(k, Run(k, Begin(b), ls))
    decreases |ls|
  {
    hide Next;
    hide WitnessFacts;
    if ls != [] {
      RunKeepsWitnesses(k, b, ls[..|ls| - 1]);
      SkillForeign.RunKeeps(k, Begin(b), ls[..|ls| - 1]);
      StepEarned(k, Run(k, Begin(b), ls[..|ls| - 1]), ls[|ls| - 1]);
    } else {
      BeginHasNone(k, b);
    }
  }

  lemma BeginHasNone(k: Intent, b: Bytes)
    ensures WitnessFacts(k, Begin(b)) && Earned(k, Begin(b)) && SkillForeign.Inv(Begin(b))
  {
  }

  /** Over every run, with any foreign writes, crashes, restarts and failing system calls: whatever step the process
      stands at, it had seen what that step rests on, and went no further in between.  In particular `SKILL.md` held
      the proposed bytes before the receipt was committed, was the temporary file before the install was recorded,
      and held the original bytes before a rollback dropped the original witness of a recorded install. */
  lemma {:induction false} EveryStepWasEarned(k: Intent, b: Bytes, ls: seq<Label>)
    ensures WasEarned(k, Begin(b), ls)
    decreases |ls|
  {
    hide Next;
    hide Earned;
    hide WitnessFacts;
    if ls == [] {
      BeginHasNone(k, b);
    } else {
      var init := ls[..|ls| - 1];
      EveryStepWasEarned(k, b, init);
      RunKeepsWitnesses(k, b, init);
      SkillForeign.RunKeeps(k, Begin(b), init);
      StepEarned(k, Run(k, Begin(b), init), ls[|ls| - 1]);
    }
  }

  /** When a rollback is about to drop the original witness of a recorded install, `SKILL.md` held the original bytes at a
      moment of this very rollback, after its decision. */
  lemma {:induction false} GuardOutlivesForeign(k: Intent, b: Bytes, ls: seq<Label>)
    requires var t := Run(k, Begin(b), ls); t.proc in {Rolling(UnlinkMoved), Rolling(CleanGuard)} && Applied(t.disk)
    ensures exists m: nat | m <= |ls| ::
      && Holds(Run(k, Begin(b), ls[..m]).disk, Target, k.original)
      && forall i | m <= i <= |ls| :: Run(k, Begin(b), ls[..i]).proc in {Rolling(UnlinkMoved), Rolling(CleanGuard)}
    decreases |ls|
  {
    EveryStepWasEarned(k, b, ls);
    Trace(k, Begin(b), ls);
  }

  lemma {:induction false} Trace(k: Intent, s: State, ls: seq<Label>)
    requires WasEarned(k, s, ls)
    requires var t := Run(k, s, ls); t.proc in {Rolling(UnlinkMoved), Rolling(CleanGuard)} && Applied(t.disk)
    ensures exists m: nat | m <= |ls| ::
      && Holds(Run(k, s, ls[..m]).disk, Target, k.original)
      && forall i | m <= i <= |ls| :: Run(k, s, ls[..i]).proc in {Rolling(UnlinkMoved), Rolling(CleanGuard)}
    decreases |ls|
  {
    hide Next;
    assert ls[..|ls|] == ls;
    if Holds(Run(k, s, ls).disk, Target, k.original) {
      assert forall i | |ls| <= i <= |ls| :: ls[..i] == ls;
    } else {
      var init := ls[..|ls| - 1];
      JournalStays(k, Run(k, s, init), ls[|ls| - 1]);
      Trace(k, s, init);
      var m: nat :| m <= |init| && Holds(Run(k, s, init[..m]).disk, Target, k.original)
                    && forall i | m <= i <= |init| :: Run(k, s, init[..i]).proc in {Rolling(UnlinkMoved), Rolling(CleanGuard)};
      assert forall i | 0 <= i <= |init| :: init[..i] == ls[..i];
      forall i | m <= i <= |ls|
        ensures Run(k, s, ls[..i]).proc in {Rolling(UnlinkMoved), Rolling(CleanGuard)}
      {
        if i < |ls| {
          assert Run(k, s, init[..i]).proc in {Rolling(UnlinkMoved), Rolling(CleanGuard)};
        }
      }
    }
  }

  lemma JournalStays(k: Intent, s: State, l: Label)
    requires s.proc in {Rolling(UnlinkMoved), Rolling(CleanGuard)}
    requires Next(k, s, l).proc in {Rolling(UnlinkMoved), Rolling(CleanGuard)}
    ensures Next(k, s, l).disk.journal == s.disk.journal
  {
    hide Clean;
  }
}
