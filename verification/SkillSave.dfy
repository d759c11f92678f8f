/** The crash-recoverable compare-and-swap of a skill file, as a state machine.

    Every change of the directory, of a file or of the journal is one step, and so is every read of `SKILL.md` or
    of the displaced file that a decision rests on.  Only reads of the two other witnesses, which nobody else
    writes, are joined to the step that follows them.  A foreign writer may replace `SKILL.md` between any two
    steps, the process may be killed at any step, and any system call may fail.  Creating the proposed file and
    filling it are two steps, so a kill can leave it torn.
 */
module SkillSave {
  import opened Options

  type Inode = nat
  type Bytes = nat

  /** `SKILL.md` and the three witnesses of one transaction. */
  datatype Name = Target | Temp | Guard | Displaced

  datatype Content = Torn | Whole(bytes: Bytes)

  /** What survives a crash.  The journal holds the intent, with the installed inode once known. */
  datatype Disk = Disk(
    dir: map<Name, Inode>,
    content: map<Inode, Content>,
    next: Inode,
    journal: Option<Option<Inode>>,
    receipt: bool)

  /** The hashes recorded in the intent. */
  datatype Intent = Intent(original: Bytes, proposed: Bytes)

  // ---------------------------------------------------------------- system calls

  function Lookup(dir: map<Name, Inode>, n: Name): Option<Inode> {
    if n in dir then Some(dir[n]) else None
  }

  function LinkAt(dir: map<Name, Inode>, n: Name, i: Inode): nat {
    if Lookup(dir, n) == Some(i) then 1 else 0
  }

  /** The number of names of an inode. */
  function Links(d: Disk, i: Inode): nat {
    LinkAt(d.dir, Target, i) + LinkAt(d.dir, Temp, i) + LinkAt(d.dir, Guard, i) + LinkAt(d.dir, Displaced, i)
  }

  /** The file exists but `_read_recovery_file_at` refuses it for its number of links. */
  predicate Unsafe(d: Disk, n: Name) {
    n in d.dir && Links(d, d.dir[n]) !in {1, 2}
  }

  function ContentAt(d: Disk, n: Name): Content {
    if n in d.dir && d.dir[n] in d.content then d.content[d.dir[n]] else Torn
  }

  /** `link` without replacement. */
  function Link(d: Disk, from: Name, to: Name): Option<Disk> {
    if from !in d.dir || to in d.dir then None else Some(d.(dir := d.dir[to := d.dir[from]]))
  }

  /** `rename`, which would replace an existing name. */
  function Rename(d: Disk, from: Name, to: Name): Option<Disk> {
    if from !in d.dir then None
    else Some(d.(dir := (map n | n in d.dir && n != from :: d.dir[n])[to := d.dir[from]]))
  }

  function Unlink(d: Disk, n: Name): Option<Disk> {
    if n !in d.dir then None else Some(d.(dir := map m | m in d.dir && m != n :: d.dir[m]))
  }

  /** A new file under an unused name. */
  function Create(d: Disk, n: Name, c: Content): Option<Disk> {
    if n in d.dir then None
    else Some(d.(dir := d.dir[n := d.next], content := d.content[d.next := c], next := d.next + 1))
  }

  /** `_cleanup_named_recovery_file`. */
  function Clean(d: Disk, n: Name, expected: Bytes): Option<Disk> {
    if n !in d.dir then Some(d)
    else if Unsafe(d, n) || ContentAt(d, n) != Whole(expected) then None
    else Unlink(d, n)
  }

  // ---------------------------------------------------------------- the process

  datatype SaveStep =
    | WriteIntent | OpenTarget | CreateTemp | FillTemp | LinkGuard | CheckGuard | DropGuard
    | RenameTarget | CheckDisplaced | RestoreLink | RestoreUnlink | UnlinkDisplaced
    | LinkTarget | CheckInstalled | WriteApplied | UnlinkTemp | LoadUpdated | CommitReceipt

  datatype RollStep =
    | ReadDisplaced | ReadTarget(displaced: Option<Inode>) | LinkBack | UnlinkBack
    | ReadWitnesses | RenameProposed(found: Inode) | CheckMoved(found: Inode) | ReturnLink | ReturnUnlink
    | LinkGuardBack(moved: bool) | UnlinkMoved | CleanGuard | CleanTemp | CheckGone | DeleteIntent

  datatype FinalStep = FinalCheck | FinalGuard | FinalTemp | FinalDelete

  datatype Proc =
    | Idle
    | Saving(at: SaveStep, before: Inode)
    | Rolling(back: RollStep)
    | Finalizing(last: FinalStep)

  /** `foreign` is the newest version another writer gave `SKILL.md`, unless the save took that very version as its
      source. */
  datatype State = State(disk: Disk, proc: Proc, foreign: Option<(Inode, Bytes)>)

  /** An exception: the save rolls back once its intent is written, recovery gives up. */
  function Raise(s: State): State {
    if s.proc.Saving? && s.disk.journal.Some? then s.(proc := Rolling(ReadDisplaced)) else s.(proc := Idle)
  }

  /** The process goes on with a disk, or raises. */
  function Goes(s: State, d: Option<Disk>, next: Proc): State {
    if d.None? then Raise(s) else s.(disk := d.value, proc := next)
  }

  function Check(s: State, ok: bool, next: Proc): State {
    if ok then s.(proc := next) else Raise(s)
  }

  /** `save` and `_atomic_replace`. */
  function SaveAction(k: Intent, s: State): State
    requires s.proc.Saving?
  {
    var d, before := s.disk, s.proc.before;
    var go := (d': Option<Disk>, next: SaveStep) => Goes(s, d', Saving(next, before));
    match s.proc.at
    case WriteIntent => go(Some(d.(journal := Some(None))), OpenTarget)
    case OpenTarget =>
      if Target in d.dir && Links(d, d.dir[Target]) == 1 && ContentAt(d, Target) == Whole(k.original) then
        s.(proc := Saving(CreateTemp, d.dir[Target]), foreign := None)
      else Raise(s)
    case CreateTemp => go(Create(d, Temp, Torn), FillTemp)
    case FillTemp =>
      if Temp in d.dir then go(Some(d.(content := d.content[d.dir[Temp] := Whole(k.proposed)])), LinkGuard) else Raise(s)
    case LinkGuard => go(Link(d, Target, Guard), CheckGuard)
    case CheckGuard =>
      if Guard !in d.dir || Unsafe(d, Guard) then Raise(s)
      else if d.dir[Guard] == before && ContentAt(d, Guard) == Whole(k.original) then go(Some(d), RenameTarget)
      else go(Some(d), DropGuard)
    case DropGuard => Goes(s, Unlink(d, Guard), Rolling(ReadDisplaced))
    case RenameTarget => go(Rename(d, Target, Displaced), CheckDisplaced)
    case CheckDisplaced =>
      if Displaced !in d.dir || Guard !in d.dir || Unsafe(d, Displaced) then Raise(s)
      else if d.dir[Displaced] == d.dir[Guard] then go(Some(d), UnlinkDisplaced)
      else go(Some(d), RestoreLink)
    case RestoreLink => go(Link(d, Displaced, Target), RestoreUnlink)
    case RestoreUnlink => Goes(s, Unlink(d, Displaced), Rolling(ReadDisplaced))
    case UnlinkDisplaced => go(Unlink(d, Displaced), LinkTarget)
    case LinkTarget => go(Link(d, Temp, Target), CheckInstalled)
    case CheckInstalled =>
      Check(s, Target in d.dir && Temp in d.dir && d.dir[Target] == d.dir[Temp], Saving(WriteApplied, before))
    case WriteApplied =>
      if Temp in d.dir then go(Some(d.(journal := Some(Some(d.dir[Temp])))), UnlinkTemp) else Raise(s)
    case UnlinkTemp => go(Unlink(d, Temp), LoadUpdated)
    case LoadUpdated => Check(s, ContentAt(d, Target) == Whole(k.proposed), Saving(CommitReceipt, before))
    case CommitReceipt => s.(disk := d.(receipt := true), proc := Finalizing(FinalCheck))
  }

  /** The target is the file this transaction installed. */
  predicate IsProposed(k: Intent, d: Disk) {
    && Target in d.dir && ContentAt(d, Target) == Whole(k.proposed)
    && (|| (Temp in d.dir && d.dir[Target] == d.dir[Temp])
        || (d.journal.Some? && d.journal.value == Some(d.dir[Target])))
  }

  predicate IsOriginal(k: Intent, d: Disk) {
    && Target in d.dir && ContentAt(d, Target) == Whole(k.original)
    && (Guard in d.dir ==> d.dir[Target] == d.dir[Guard])
  }

  predicate GuardIsOriginal(k: Intent, d: Disk) {
    Guard in d.dir && ContentAt(d, Guard) == Whole(k.original)
  }

  /** The decision of `_rollback_save_intent` after it read target, guard and temporary file. */
  function Judge(k: Intent, s: State): State {
    var d := s.disk;
    if Unsafe(d, Target) || Unsafe(d, Guard) || Unsafe(d, Temp) then Raise(s)
    else if IsProposed(k, d) then Check(s, GuardIsOriginal(k, d), Rolling(RenameProposed(d.dir[Target])))
    else if Target !in d.dir then Check(s, GuardIsOriginal(k, d), Rolling(LinkGuardBack(false)))
    else Check(s, IsOriginal(k, d) || d.journal == Some(None), Rolling(CleanGuard))
  }

  function RollAction(k: Intent, s: State): State
    requires s.proc.Rolling?
  {
    var d := s.disk;
    match s.proc.back
    case ReadDisplaced => Check(s, !Unsafe(d, Displaced), Rolling(ReadTarget(Lookup(d.dir, Displaced))))
    case ReadTarget(displaced) =>
      if Unsafe(d, Target) then Raise(s)
      else if displaced.None? then s.(proc := Rolling(ReadWitnesses))
      else if Target !in d.dir then s.(proc := Rolling(LinkBack))
      else Check(s, displaced == Lookup(d.dir, Target), Rolling(UnlinkBack))
    case LinkBack => Goes(s, Link(d, Displaced, Target), Rolling(UnlinkBack))
    case UnlinkBack => Goes(s, Unlink(d, Displaced), Rolling(ReadWitnesses))
    case ReadWitnesses => Judge(k, s)
    case RenameProposed(found) => Goes(s, Rename(d, Target, Displaced), Rolling(CheckMoved(found)))
    case CheckMoved(found) =>
      if Displaced !in d.dir || Unsafe(d, Displaced) then Raise(s)
      else if d.dir[Displaced] == found then s.(proc := Rolling(LinkGuardBack(true)))
      else s.(proc := Rolling(ReturnLink))
    case ReturnLink => Goes(s, Link(d, Displaced, Target), Rolling(ReturnUnlink))
    case ReturnUnlink => Goes(s, Unlink(d, Displaced), Idle)
    case LinkGuardBack(moved) => Goes(s, Link(d, Guard, Target), Rolling(if moved then UnlinkMoved else CleanGuard))
    case UnlinkMoved => Goes(s, Unlink(d, Displaced), Rolling(CleanGuard))
    case CleanGuard => Goes(s, Clean(d, Guard, k.original), Rolling(CleanTemp))
    case CleanTemp => Goes(s, Clean(d, Temp, k.proposed), Rolling(CheckGone))
    case CheckGone => Check(s, Displaced !in d.dir, Rolling(DeleteIntent))
    case DeleteIntent => s.(disk := d.(journal := None), proc := Idle)
  }

  function FinalAction(k: Intent, s: State): State
    requires s.proc.Finalizing?
  {
    var d := s.disk;
    match s.proc.last
    case FinalCheck => Check(s, Displaced !in d.dir, Finalizing(FinalGuard))
    case FinalGuard => Goes(s, Clean(d, Guard, k.original), Finalizing(FinalTemp))
    case FinalTemp => Goes(s, Clean(d, Temp, k.proposed), Finalizing(FinalDelete))
    case FinalDelete => s.(disk := d.(journal := None), proc := Idle)
  }

  function Act(k: Intent, s: State): State {
    match s.proc
    case Idle => s
    case Saving(_, _) => SaveAction(k, s)
    case Rolling(_) => RollAction(k, s)
    case Finalizing(_) => FinalAction(k, s)
  }

  // ---------------------------------------------------------------- the environment

  /** `_recover_pending_journals` on the next start. */
  function Restart(s: State): State {
    if s.proc != Idle || s.disk.journal.None? then s
    else s.(proc := if s.disk.receipt then Finalizing(FinalCheck) else Rolling(ReadDisplaced))
  }

  /** Another writer puts a new file under `SKILL.md`. */
  function Overwrite(s: State, b: Bytes): State {
    var d := s.disk;
    s.(disk := d.(dir := d.dir[Target := d.next], content := d.content[d.next := Whole(b)], next := d.next + 1),
       foreign := Some((d.next, b)))
  }

  datatype Label = Proceed | Fail | Kill | Start | Foreign(bytes: Bytes)

  function Next(k: Intent, s: State, l: Label): State {
    match l
    case Proceed => Act(k, s)
    case Fail => Raise(s)
    case Kill => s.(proc := Idle)
    case Start => Restart(s)
    case Foreign(b) => Overwrite(s, b)
  }

  function Run(k: Intent, s: State, ls: seq<Label>): State
    decreases |ls|
  {
    if ls == [] then s else Next(k, Run(k, s, ls[..|ls| - 1]), ls[|ls| - 1])
  }

  /** How many steps are left at most, when nobody interferes. */
  function Rank(p: Proc): nat {
    match p
    case Idle => 0
    case Finalizing(last) =>
      (match last case FinalCheck => 4 case FinalGuard => 3 case FinalTemp => 2 case FinalDelete => 1)
    case Rolling(back) => RollRank(back)
    case Saving(at, _) => SaveRank(at)
  }

  function RollRank(back: RollStep): nat {
    match back
    case ReadDisplaced => 13
    case ReadTarget(_) => 12
    case LinkBack => 11
    case UnlinkBack => 10
    case ReadWitnesses => 9
    case RenameProposed(_) => 8
    case CheckMoved(_) => 7
    case LinkGuardBack(_) => 6
    case UnlinkMoved => 5
    case CleanGuard => 4
    case CleanTemp => 3
    case CheckGone => 2
    case DeleteIntent => 1
    case ReturnLink => 2
    case ReturnUnlink => 1
  }

  function SaveRank(at: SaveStep): nat {
    match at
    case WriteIntent => 28
    case OpenTarget => 27
    case CreateTemp => 26
    case FillTemp => 25
    case LinkGuard => 24
    case CheckGuard => 23
    case RenameTarget => 22
    case CheckDisplaced => 21
    case UnlinkDisplaced => 20
    case LinkTarget => 19
    case CheckInstalled => 18
    case WriteApplied => 17
    case UnlinkTemp => 16
    case LoadUpdated => 15
    case CommitReceipt => 14
    case DropGuard => 14
    case RestoreLink => 15
    case RestoreUnlink => 14
  }

  lemma ActDescends(k: Intent, s: State)
    requires s.proc != Idle
    ensures Rank(Act(k, s).proc) < Rank(s.proc)
  {
    hide Links;
    hide Unsafe;
    hide ContentAt;
    hide Link;
    hide Unlink;
    hide Rename;
    hide Create;
    hide Clean;
    hide IsProposed;
    hide IsOriginal;
    hide GuardIsOriginal;
  }

  /** The process runs to its end without interruption. */
  function Settle(k: Intent, s: State): (r: State)
    ensures r.proc == Idle
    decreases Rank(s.proc)
  {
    if s.proc == Idle then s
    else
      ActDescends(k, s);
      Settle(k, Act(k, s))
  }

  /** A save is about to begin on a skill whose bytes are `b`. */
  function Begin(b: Bytes): State {
    State(Disk(map[Target := 0], map[0 := Whole(b)], 1, None, false), Saving(WriteIntent, 0), None)
  }

  // ---------------------------------------------------------------- what the system calls leave alone

  /** All of the disk but its directory. */
  ghost predicate SameFiles(a: Disk, b: Disk) {
    a.content == b.content && a.next == b.next && a.journal == b.journal && a.receipt == b.receipt
  }

  lemma Looks(d: Disk)
    ensures forall n <- d.dir :: Lookup(d.dir, n) == Some(d.dir[n])
  {
  }

  lemma UnlinkFrame(d: Disk, n: Name)
    requires Unlink(d, n).Some?
    ensures SameFiles(d, Unlink(d, n).value)
    ensures forall m :: Lookup(Unlink(d, n).value.dir, m) == if m == n then None else Lookup(d.dir, m)
  {
  }

  lemma LinkFrame(d: Disk, from: Name, to: Name)
    requires Link(d, from, to).Some?
    ensures Lookup(d.dir, from).Some? && Lookup(d.dir, to).None?
    ensures SameFiles(d, Link(d, from, to).value)
    ensures forall m :: Lookup(Link(d, from, to).value.dir, m) == if m == to then Lookup(d.dir, from) else Lookup(d.dir, m)
  {
  }

  lemma RenameFrame(d: Disk, from: Name, to: Name)
    requires Rename(d, from, to).Some? && from != to
    ensures Lookup(d.dir, from).Some? && SameFiles(d, Rename(d, from, to).value)
    ensures
      var after := Rename(d, from, to).value;
      forall m :: Lookup(after.dir, m) == if m == to then Lookup(d.dir, from) else if m == from then None else Lookup(d.dir, m)
  {
  }

  lemma CleanFrame(d: Disk, n: Name, expected: Bytes)
    requires Clean(d, n, expected).Some?
    ensures SameFiles(d, Clean(d, n, expected).value)
    ensures forall m :: Lookup(Clean(d, n, expected).value.dir, m) == if m == n then None else Lookup(d.dir, m)
  {
  }

  // ---------------------------------------------------------------- kinds of steps

  predicate Linking(at: SaveStep) {
    at.LinkGuard? || at.RestoreLink? || at.LinkTarget?
  }

  predicate Unlinking(at: SaveStep) {
    at.DropGuard? || at.RenameTarget? || at.RestoreUnlink? || at.UnlinkDisplaced? || at.UnlinkTemp?
  }

  predicate Writing(at: SaveStep) {
    at.WriteIntent? || at.CreateTemp? || at.FillTemp? || at.WriteApplied? || at.CommitReceipt?
  }

  predicate LinkingBack(at: RollStep) {
    at.LinkBack? || at.RenameProposed? || at.ReturnLink? || at.LinkGuardBack?
  }

  predicate UnlinkingBack(at: RollStep) {
    at.UnlinkBack? || at.ReturnUnlink? || at.UnlinkMoved? || at.CleanGuard? || at.CleanTemp?
  }
}
