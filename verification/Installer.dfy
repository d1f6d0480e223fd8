/**
 The USB installer as a machine that may stop between any two of its steps: a durable
 record, a flash backup, the flash itself and the host process that works on them.

 One transaction is followed from its first durable record through any number of
 interrupted attempts. A host crash loses the process and any bytes of the backup not
 yet forced to disk. Any step of the process may instead raise, which runs the handler of
 the entry point it belongs to. Only the installer writes flash.
 */
module Installer {
  import opened Bytes
  import opened Options
  import opened Uf2

  const FLASH_SIZE := 0x40_0000

  datatype Operation = Install | Upgrade

  /** What does not change during a transaction. `digest` is the hash that receipts record. */
  datatype Setup = Setup(operation: Operation, image: seq<byte>, start: nat, guarded: bool, digest: seq<byte> -> int)

  /** The image's erase sectors end by the preserved region. */
  predicate SetupOk(c: Setup) {
    0 < |c.image| && EraseExtent(|c.image|) <= c.start <= FLASH_SIZE
  }

  /** Every accepted file gives such a setup: preserved flash starts at its application end. */
  lemma AcceptedSetup(c: Setup, data: seq<byte>, end: nat)
    requires Accepted(data, end) && IsImage(c.image, data) && c.start == end - FLASH_BASE
    ensures SetupOk(c)
  {
    ErasesBelowEnd(data, end, c.image);
  }

  datatype Stage =
    | Validated | AwaitingBootsel | EnteringBootsel | MaintenanceRefused | BackupReadbackVerified | BackedUp
    | Programming | ProgrammedAndVerified | Launching | ApplicationHeld | ReleaseRequested | Complete | Failed

  datatype Record = Record(stage: Stage, failureStage: Option<Stage>, authorized: bool, recoveryRequired: bool,
                           preserved: bool, manualBootsel: bool,
                           backupDigest: Option<int>, persistentDigest: Option<int>)

  const FIRST := Record(Validated, None, false, false, false, false, None, None)

  /** Where the process is. `Saving` is about to write the record and then go on. */
  datatype Pc =
    | Preflight | EnterBootsel | MigrationChecks | ReadBackup | SyncBackup | RecordBackup | Compatibility
    | RecoverBoard | Program | Write | ReadBack | MarkLaunch | Launch | Verify | Release | ReleaseCall | Finish
    | Return | RaiseRefusal | Saving(next: Pc) | Handling

  datatype Entry = Transaction | Recovery | Migration

  datatype Host = Idle | Running(entry: Entry, pc: Pc, rec: Record, before: seq<byte>)

  /** `synced` is whether the backup file's bytes survive a crash. The last three fields
      are history: a write has begun, a record was completed, the handler dropped the flag. */
  datatype State = State(present: bool, durable: Record, backup: Option<seq<byte>>, synced: bool, flash: seq<byte>,
                         host: Host, written: bool, completed: bool, dropped: bool)

  predicate Init(s: State) {
    && s.present && s.durable == FIRST && s.backup == None && !s.synced && |s.flash| == FLASH_SIZE
    && s.host == Running(Transaction, Preflight, FIRST, []) && !s.written && !s.completed && !s.dropped
  }

  // ---------- Steps ----------

  /** What the step's outcome depends on: the world outside the process. */
  datatype Step =
    | Prepare(legacy: bool)          // preflight, to the next pc of its operation
    | Decline                        // maintenance refuses the reset
    | Enter                          // the board is in BOOTSEL
    | CheckMigration
    | ReadSome(bytes: Option<seq<byte>>) | ReadAll | Sync | NoteBackup | Authorize
    | FoundApplication | FoundBootsel
    | StartProgram | WriteSome(flash: seq<byte>) | WriteDone | CheckReadBack | NoteLaunch | DoLaunch(flash: seq<byte>)
    | Observe | RequestRelease(alreadyIdle: bool) | Released | Conclude | Leave
    | Save | SaveRaises(effective: bool) | Raise | HandlerSave(effective: bool)
    | Crash(backup: Option<seq<byte>>) | Recover | Prune

  /** The last stage reached by whoever wrote the record. */
  function Reached(r: Record): Stage {
    if r.stage == Failed then (if r.failureStage.Some? then r.failureStage.value else Failed) else r.stage
  }

  /** From these stages on, the flash has been compared with the image. */
  predicate Compared(stage: Stage) {
    stage in {ProgrammedAndVerified, Launching, ApplicationHeld, ReleaseRequested, Complete}
  }

  predicate PendingMigration(c: Setup, r: Record) {
    && r.manualBootsel && c.operation == Upgrade && !r.authorized
    && (if r.failureStage.Some? then r.failureStage.value else r.stage) == AwaitingBootsel
  }

  /** What a handler makes of the record it finds. */
  function FailedRecord(entry: Entry, r: Record): Record {
    match entry
    case Transaction => r.(failureStage := Some(r.stage), stage := Failed)
    case _ => r.(failureStage := if r.stage != Failed then Some(r.stage) else r.failureStage,
                 stage := Failed, recoveryRequired := true)
  }

  function At(s: State, pc: Pc): State
    requires s.host.Running?
  {
    s.(host := s.host.(pc := pc))
  }

  /** The record is changed in memory and then saved. */
  function SaveThen(s: State, rec: Record, next: Pc): State
    requires s.host.Running?
  {
    s.(host := s.host.(rec := rec, pc := Saving(next)))
  }

  /** A save replaces the durable record atomically, unless the directory is gone. */
  function Saved(s: State): State
    requires s.host.Running? && s.present
  {
    s.(durable := s.host.rec, completed := s.completed || s.host.rec.stage == Complete)
  }

  /** Only the image's erase sectors are written. */
  predicate WritesImage(c: Setup, from: seq<byte>, to: seq<byte>) {
    var extent := EraseExtent(|c.image|);
    |to| == |from| && extent <= |from| && to[extent..] == from[extent..]
  }

  function Receipt(c: Setup, rec: Record, before: seq<byte>): Record {
    if c.start <= |before|
    then rec.(backupDigest := Some(c.digest(before)), persistentDigest := Some(c.digest(before[c.start..])))
    else rec
  }

  predicate ImageInFlash(c: Setup, flash: seq<byte>) { c.image <= flash }

  predicate UpperKept(c: Setup, a: seq<byte>, b: seq<byte>) {
    c.start <= |a| && |a| == |b| && a[c.start..] == b[c.start..]
  }

  /** The steps that reach beyond the process: the backup is read or forced to disk, the
      flash is written, the record is saved. */
  predicate Reaches(step: Step) {
    step.ReadSome? || step.ReadAll? || step.Sync? || step.WriteSome? || step.DoLaunch? || step.Save?
  }

  /** The other steps of a process that runs on without raising. */
  predicate Moves(c: Setup, s: State, host: Host, step: Step)
    requires s.host.Running?
  {
    var rec, pc, before := s.host.rec, s.host.pc, s.host.before;
    match step
    case Prepare(legacy) =>
      && pc == Preflight
      && if c.operation == Install then host == At(s, ReadBackup).host
         else if legacy then
           var waiting := rec.(stage := AwaitingBootsel, recoveryRequired := true, manualBootsel := true);
           host == SaveThen(s, waiting, Return).host
         else host == SaveThen(s, rec.(stage := EnteringBootsel, recoveryRequired := true), EnterBootsel).host
    case Decline =>
      && pc == EnterBootsel
      && host == SaveThen(s, rec.(stage := MaintenanceRefused, recoveryRequired := false), RaiseRefusal).host
    case Enter => pc == EnterBootsel && host == At(s, ReadBackup).host
    case CheckMigration => pc == MigrationChecks && c.guarded && host == At(s, ReadBackup).host
    case NoteBackup =>
      && pc == RecordBackup
      && if s.host.entry == Migration then host == At(s, Compatibility).host
         else host == SaveThen(s, Receipt(c, rec.(stage := BackupReadbackVerified), before), Compatibility).host
    case Authorize =>
      var manual := rec.manualBootsel && s.host.entry != Migration;
      var authorized := rec.(stage := BackedUp, authorized := true, manualBootsel := manual);
      pc == Compatibility && host == SaveThen(s, Receipt(c, authorized, before), Program).host
    case FoundApplication => pc == RecoverBoard && Compared(Reached(rec)) && host == At(s, Verify).host
    case FoundBootsel => pc == RecoverBoard && UpperKept(c, s.flash, before) && host == At(s, Program).host
    case StartProgram =>
      && pc == Program && (rec.authorized || rec.preserved)
      && host == SaveThen(s, rec.(stage := Programming, recoveryRequired := true), Write).host
    case WriteDone => pc == Write && host == At(s, ReadBack).host
    case CheckReadBack =>
      && pc == ReadBack && ImageInFlash(c, s.flash) && UpperKept(c, s.flash, before)
      && host == SaveThen(s, rec.(stage := ProgrammedAndVerified, preserved := true), MarkLaunch).host
    case NoteLaunch => pc == MarkLaunch && host == SaveThen(s, rec.(stage := Launching), Launch).host
    case Observe =>
      && pc == Verify
      && if c.guarded then host == SaveThen(s, rec.(stage := ApplicationHeld), Release).host
         else c.operation == Install && host == At(s, Finish).host
    case RequestRelease(alreadyIdle) =>
      && pc == Release
      && if alreadyIdle then host == At(s, Finish).host
         else host == SaveThen(s, rec.(stage := ReleaseRequested), ReleaseCall).host
    case Released => pc == ReleaseCall && host == At(s, Finish).host
    case Conclude =>
      var completed := rec.(stage := Complete, recoveryRequired := false, preserved := true);
      pc == Finish && host == SaveThen(s, completed, Return).host
    case Leave => pc == Return && host == Idle
    case _ => false
  }

  /** The steps of a process that runs on without raising. */
  predicate Works(c: Setup, s: State, t: State, step: Step)
    requires s.host.Running?
  {
    var pc := s.host.pc;
    match step
    case ReadSome(bytes) => pc == ReadBackup && t == s.(backup := bytes, synced := false)
    case ReadAll =>
      && pc == ReadBackup
      && t == s.(backup := Some(s.flash), synced := false, host := s.host.(pc := SyncBackup, before := s.flash))
    case Sync => pc == SyncBackup && t == At(s.(synced := true), RecordBackup)
    case WriteSome(flash) =>
      pc == Write && WritesImage(c, s.flash, flash) && t == s.(flash := flash, written := true)
    case DoLaunch(flash) => // sectors that already hold the image are skipped
      && pc == Launch && WritesImage(c, s.flash, flash) && (ImageInFlash(c, s.flash) ==> flash == s.flash)
      && t == At(s.(flash := flash), Verify)
    case Save => pc.Saving? && s.present && t == At(Saved(s), pc.next)
    case _ => t == s.(host := t.host) && Moves(c, s, t.host, step)
  }

  /** Any step but the handler's own may raise, a save even after it has replaced the record. */
  predicate Fails(s: State, t: State, step: Step)
    requires s.host.Running?
  {
    var entry, rec := s.host.entry, s.host.rec;
    match step
    case Raise => !s.host.pc.Handling? && t == s.(host := s.host.(rec := FailedRecord(entry, rec), pc := Handling))
    case SaveRaises(effective) =>
      && s.host.pc.Saving? && (effective ==> s.present)
      && var after := if effective then Saved(s) else s;
         t == after.(host := s.host.(rec := FailedRecord(entry, rec), pc := Handling))
    case HandlerSave(effective) =>
      && s.host.pc.Handling? && (effective ==> s.present)
      && var after := if effective then Saved(s) else s;
         t == after.(host := Idle, dropped := s.dropped || (effective && DropsFlag(s)))
    case _ => false
  }

  /** The first run's handler keeps whatever flag it finds: after the completing update of
      the record in memory that is a cleared one. */
  predicate DropsFlag(s: State) {
    s.host.Running? && s.host.pc == Handling && s.host.entry == Transaction && s.host.rec.failureStage == Some(Complete)
  }

  /** A recovery loads the record, checks the backup against it and takes up the work. */
  predicate Recovers(c: Setup, s: State, t: State) {
    var r := s.durable;
    && s.host == Idle && s.present
    && if PendingMigration(c, r) then t == s.(host := Running(Migration, MigrationChecks, r, []))
       else
         && (r.authorized || r.preserved) && s.backup.Some? && |s.backup.value| == FLASH_SIZE && c.start <= FLASH_SIZE
         && r.backupDigest == Some(c.digest(s.backup.value))
         && r.persistentDigest == Some(c.digest(s.backup.value[c.start..]))
         && t == s.(host := Running(Recovery, RecoverBoard, r, s.backup.value))
  }

  predicate NextBy(c: Setup, s: State, t: State, step: Step) {
    match step
    case Crash(backup) => t == s.(host := Idle, backup := if s.synced then s.backup else backup)
    case Recover => Recovers(c, s, t)
    case Prune => // any installer's housekeeping, at any time; it looks at the durable record only
      s.present && !s.durable.recoveryRequired && t == s.(present := false, backup := None, synced := false)
    case _ => s.host.Running? && (Works(c, s, t, step) || Fails(s, t, step))
  }

  ghost predicate Next(c: Setup, s: State, t: State) {
    exists step :: NextBy(c, s, t, step)
  }

  /** A run: an initial state and a step between each two neighbours. */
  ghost predicate Run(c: Setup, states: seq<State>): (run: bool)
    ensures run ==> states != []
  {
    && states != [] && Init(states[0])
    && forall i :: 0 < i < |states| ==> Next(c, states[i - 1], states[i])
  }

  // ---------- The invariant ----------

  /** The backup is on disk, is what the record says it is, and the preserved region equals it. */
  predicate BackupGood(c: Setup, s: State, r: Record) {
    && s.synced && s.backup.Some? && |s.backup.value| == FLASH_SIZE
    && r.backupDigest == Some(c.digest(s.backup.value))
    && UpperKept(c, s.flash, s.backup.value)
    && r.persistentDigest == Some(c.digest(s.backup.value[c.start..]))
  }

  /** The process has not authorised anything yet. */
  predicate Early(pc: Pc, rec: Record) {
    || pc in {Preflight, EnterBootsel, MigrationChecks, ReadBackup, SyncBackup, RecordBackup, Compatibility}
    || pc == RaiseRefusal
    || (pc.Saving? && pc.next in {EnterBootsel, RaiseRefusal, Compatibility})
    || ((pc == Saving(Return) || pc == Return) && rec.stage == AwaitingBootsel)
  }

  /** The backup being made is still a copy of the flash. */
  predicate CopyInHand(s: State) {
    s.host.Running? && s.host.before == s.flash && s.backup == Some(s.flash)
  }

  predicate HostGood(c: Setup, s: State)
    requires s.host.Running?
  {
    var pc, rec := s.host.pc, s.host.rec;
    && (pc.Saving? ==> pc.next in {EnterBootsel, RaiseRefusal, Compatibility, Program, Write, MarkLaunch, Launch,
                                   Release, ReleaseCall, Return})
    && (rec.preserved ==> rec.authorized)
    && (s.written ==> rec.authorized)
    && (s.present && rec.authorized ==> BackupGood(c, s, rec))
    && (Compared(Reached(rec)) ==> rec.authorized && ImageInFlash(c, s.flash))
    && (Early(pc, rec) ==> !s.written && !rec.authorized && (s.present ==> !s.durable.authorized))
    && (s.present && pc in {SyncBackup, RecordBackup, Compatibility, Saving(Compatibility)} ==> CopyInHand(s))
    && (s.present && pc in {RecordBackup, Compatibility, Saving(Compatibility)} ==> s.synced)
    && (pc == Saving(Program) ==> rec.authorized && rec.stage == BackedUp)
    && (pc == Saving(Write) ==> rec.authorized && rec.stage == Programming && rec.recoveryRequired)
    && (pc == Write ==> s.present && s.durable == rec)
    && (pc == Write ==> rec.authorized && rec.stage == Programming && rec.recoveryRequired)
    && (pc == ReadBack ==> rec.authorized)
    && (pc == MarkLaunch || pc == Saving(MarkLaunch) ==> rec.stage == ProgrammedAndVerified)
    && (pc == Launch || pc == Saving(Launch) ==> rec.stage == Launching)
    && (pc in {Verify, Release, ReleaseCall, Finish, Saving(Release), Saving(ReleaseCall)} ==> Compared(Reached(rec)))
    && (pc == Saving(Return) ==> rec.stage == AwaitingBootsel || rec.stage == Complete)
    && (pc == Return && rec.stage != AwaitingBootsel ==> s.completed)
    && (s.written && !s.completed && !s.dropped ==>
          rec.recoveryRequired || DropsFlag(s) || (pc == Saving(Return) && rec.stage == Complete))
    && (pc == Handling ==> rec.stage == Failed)
    && (rec.stage == Complete && !s.completed ==> pc == Saving(Return) && !rec.recoveryRequired)
    && (DropsFlag(s) && !s.completed ==> !rec.recoveryRequired)
  }

  predicate Inv(c: Setup, s: State) {
    && SetupOk(c) && |s.flash| == FLASH_SIZE
    && (s.present && s.durable.preserved ==> s.durable.authorized)
    && (s.present && s.durable.authorized ==> BackupGood(c, s, s.durable))
    && (s.present && s.written ==> s.durable.authorized)
    && (s.present && s.durable.stage == Complete ==> s.completed)
    && (s.written && !s.completed && !s.dropped ==> s.present && s.durable.recoveryRequired)
    && (s.present && Compared(Reached(s.durable)) ==> s.durable.authorized && ImageInFlash(c, s.flash))
    && (s.host.Running? ==> HostGood(c, s))
  }

  lemma InitInv(c: Setup, s: State)
    requires SetupOk(c) && Init(s)
    ensures Inv(c, s)
  {}

  lemma WriteKeepsUpper(c: Setup, from: seq<byte>, to: seq<byte>)
    requires SetupOk(c) && |from| == FLASH_SIZE && WritesImage(c, from, to)
    ensures UpperKept(c, from, to)
  {
    hide EraseExtent;
    var extent := EraseExtent(|c.image|);
    assert from[c.start..] == from[extent..][c.start - extent..];
    assert to[c.start..] == to[extent..][c.start - extent..];
  }

  lemma GoOnKeepsInv(c: Setup, s: State, t: State)
    requires Inv(c, s) && s.host.Running? && s.host.pc == Preflight
    requires t == At(s, ReadBackup)
    ensures Inv(c, t)
  {
    hide EraseExtent, ImageInFlash, UpperKept, PendingMigration;
  }

  lemma AwaitKeepsInv(c: Setup, s: State, t: State)
    requires Inv(c, s) && s.host.Running? && s.host.pc == Preflight
    requires
      var waiting := s.host.rec.(stage := AwaitingBootsel, recoveryRequired := true, manualBootsel := true);
      t == SaveThen(s, waiting, Return)
    ensures Inv(c, t)
  {
    hide EraseExtent, ImageInFlash, UpperKept, PendingMigration;
  }

  lemma EnteringKeepsInv(c: Setup, s: State, t: State)
    requires Inv(c, s) && s.host.Running? && s.host.pc == Preflight
    requires t == SaveThen(s, s.host.rec.(stage := EnteringBootsel, recoveryRequired := true), EnterBootsel)
    ensures Inv(c, t)
  {
    hide EraseExtent, ImageInFlash, UpperKept, PendingMigration;
  }

  lemma DeclineKeepsInv(c: Setup, s: State, t: State)
    requires Inv(c, s) && s.host.Running? && s.host.pc == EnterBootsel
    requires t == SaveThen(s, s.host.rec.(stage := MaintenanceRefused, recoveryRequired := false), RaiseRefusal)
    ensures Inv(c, t)
  {
    hide EraseExtent, ImageInFlash, UpperKept, PendingMigration;
  }

  lemma EntersKeepsInv(c: Setup, s: State, t: State)
    requires Inv(c, s) && s.host.Running? && (s.host.pc == EnterBootsel || s.host.pc == MigrationChecks)
    requires t == At(s, ReadBackup)
    ensures Inv(c, t)
  {
    hide EraseExtent, ImageInFlash, UpperKept, PendingMigration;
  }

  lemma ReadSomeKeepsInv(c: Setup, s: State, t: State, bytes: Option<seq<byte>>)
    requires Inv(c, s) && s.host.Running? && s.host.pc == ReadBackup
    requires t == s.(backup := bytes, synced := false)
    ensures Inv(c, t)
  {
    hide EraseExtent, ImageInFlash, PendingMigration;
  }

  lemma ReadAllKeepsInv(c: Setup, s: State, t: State)
    requires Inv(c, s) && s.host.Running? && s.host.pc == ReadBackup
    requires t == s.(backup := Some(s.flash), synced := false, host := s.host.(pc := SyncBackup, before := s.flash))
    ensures Inv(c, t)
  {
    hide EraseExtent, ImageInFlash, PendingMigration;
  }

  lemma SyncKeepsInv(c: Setup, s: State, t: State)
    requires Inv(c, s) && s.host.Running? && s.host.pc == SyncBackup
    requires t == At(s.(synced := true), RecordBackup)
    ensures Inv(c, t)
  {
    hide EraseExtent, ImageInFlash, PendingMigration;
  }

  lemma MigratedKeepsInv(c: Setup, s: State, t: State)
    requires Inv(c, s) && s.host.Running? && s.host.pc == RecordBackup
    requires t == At(s, Compatibility)
    ensures Inv(c, t)
  {
    hide EraseExtent, ImageInFlash, UpperKept, PendingMigration;
  }

  lemma NoteKeepsInv(c: Setup, s: State, t: State)
    requires Inv(c, s) && s.host.Running? && s.host.pc == RecordBackup
    requires t == SaveThen(s, Receipt(c, s.host.rec.(stage := BackupReadbackVerified), s.host.before), Compatibility)
    ensures Inv(c, t)
  {
    hide EraseExtent, ImageInFlash, UpperKept, PendingMigration;
  }

  lemma AuthorizeKeepsInv(c: Setup, s: State, t: State)
    requires Inv(c, s) && s.host.Running? && s.host.pc == Compatibility
    requires
      var manual := s.host.rec.manualBootsel && s.host.entry != Migration;
      var rec := s.host.rec.(stage := BackedUp, authorized := true, manualBootsel := manual);
      t == SaveThen(s, Receipt(c, rec, s.host.before), Program)
    ensures Inv(c, t)
  {
    hide EraseExtent, ImageInFlash, PendingMigration;
  }

  lemma FoundApplicationKeepsInv(c: Setup, s: State, t: State)
    requires Inv(c, s) && s.host.Running? && s.host.pc == RecoverBoard
    requires Compared(Reached(s.host.rec))
    requires t == At(s, Verify)
    ensures Inv(c, t)
  {
    hide EraseExtent, ImageInFlash, UpperKept, PendingMigration;
  }

  lemma FoundBootselKeepsInv(c: Setup, s: State, t: State)
    requires Inv(c, s) && s.host.Running? && s.host.pc == RecoverBoard
    requires t == At(s, Program)
    ensures Inv(c, t)
  {
    hide EraseExtent, ImageInFlash, UpperKept, PendingMigration;
  }

  lemma StartProgramKeepsInv(c: Setup, s: State, t: State)
    requires Inv(c, s) && s.host.Running? && s.host.pc == Program
    requires s.host.rec.authorized || s.host.rec.preserved
    requires t == SaveThen(s, s.host.rec.(stage := Programming, recoveryRequired := true), Write)
    ensures Inv(c, t)
  {
    hide EraseExtent, ImageInFlash, UpperKept, PendingMigration;
  }

  lemma WriteSomeKeepsInv(c: Setup, s: State, t: State, flash: seq<byte>)
    requires Inv(c, s) && s.host.Running? && s.host.pc == Write
    requires WritesImage(c, s.flash, flash)
    requires t == s.(flash := flash, written := true)
    ensures Inv(c, t)
  {
    hide EraseExtent, ImageInFlash, WritesImage, PendingMigration;
    WriteKeepsUpper(c, s.flash, flash);
  }

  lemma WriteDoneKeepsInv(c: Setup, s: State, t: State)
    requires Inv(c, s) && s.host.Running? && s.host.pc == Write
    requires t == At(s, ReadBack)
    ensures Inv(c, t)
  {
    hide EraseExtent, ImageInFlash, UpperKept, PendingMigration;
  }

  lemma CheckReadBackKeepsInv(c: Setup, s: State, t: State)
    requires Inv(c, s) && s.host.Running? && s.host.pc == ReadBack
    requires ImageInFlash(c, s.flash)
    requires t == SaveThen(s, s.host.rec.(stage := ProgrammedAndVerified, preserved := true), MarkLaunch)
    ensures Inv(c, t)
  {
    hide EraseExtent, ImageInFlash, UpperKept, PendingMigration;
  }

  lemma NoteLaunchKeepsInv(c: Setup, s: State, t: State)
    requires Inv(c, s) && s.host.Running? && s.host.pc == MarkLaunch
    requires t == SaveThen(s, s.host.rec.(stage := Launching), Launch)
    ensures Inv(c, t)
  {
    hide EraseExtent, ImageInFlash, UpperKept, PendingMigration;
  }

  lemma DoLaunchKeepsInv(c: Setup, s: State, t: State, flash: seq<byte>)
    requires Inv(c, s) && s.host.Running? && s.host.pc == Launch
    requires ImageInFlash(c, s.flash) ==> flash == s.flash
    requires t == At(s.(flash := flash), Verify)
    ensures Inv(c, t)
  {
    hide EraseExtent, ImageInFlash, UpperKept, PendingMigration;
  }

  lemma HeldKeepsInv(c: Setup, s: State, t: State)
    requires Inv(c, s) && s.host.Running? && s.host.pc == Verify
    requires t == SaveThen(s, s.host.rec.(stage := ApplicationHeld), Release)
    ensures Inv(c, t)
  {
    hide EraseExtent, ImageInFlash, UpperKept, PendingMigration;
  }

  lemma FinishingKeepsInv(c: Setup, s: State, t: State)
    requires Inv(c, s) && s.host.Running?
    requires s.host.pc == Verify || s.host.pc == Release || s.host.pc == ReleaseCall
    requires t == At(s, Finish)
    ensures Inv(c, t)
  {
    hide EraseExtent, ImageInFlash, UpperKept, PendingMigration;
  }

  lemma RequestKeepsInv(c: Setup, s: State, t: State)
    requires Inv(c, s) && s.host.Running? && s.host.pc == Release
    requires t == SaveThen(s, s.host.rec.(stage := ReleaseRequested), ReleaseCall)
    ensures Inv(c, t)
  {
    hide EraseExtent, ImageInFlash, UpperKept, PendingMigration;
  }

  lemma ConcludeKeepsInv(c: Setup, s: State, t: State)
    requires Inv(c, s) && s.host.Running? && s.host.pc == Finish
    requires t == SaveThen(s, s.host.rec.(stage := Complete, recoveryRequired := false, preserved := true), Return)
    ensures Inv(c, t)
  {
    hide EraseExtent, ImageInFlash, UpperKept, PendingMigration;
  }

  lemma LeaveKeepsInv(c: Setup, s: State, t: State)
    requires Inv(c, s) && s.host.Running? && s.host.pc == Return
    requires t == s.(host := Idle)
    ensures Inv(c, t)
  {
    hide EraseExtent, ImageInFlash, UpperKept, PendingMigration;
  }

  lemma SaveKeepsInv(c: Setup, s: State, t: State)
    requires Inv(c, s) && s.host.Running? && s.host.pc.Saving? && s.present
    requires t == At(Saved(s), s.host.pc.next)
    ensures Inv(c, t)
  {
    hide EraseExtent, ImageInFlash, UpperKept, PendingMigration;
  }

  lemma MovesKeepsInv(c: Setup, s: State, t: State, step: Step)
    requires Inv(c, s) && s.host.Running? && t == s.(host := t.host) && Moves(c, s, t.host, step)
    ensures Inv(c, t)
  {
    hide Inv, WritesImage, ImageInFlash, UpperKept, Receipt, Compared, Reached;
    match step
    case Prepare(legacy) =>
      if c.operation == Install {
        GoOnKeepsInv(c, s, t);
      } else if legacy {
        AwaitKeepsInv(c, s, t);
      } else {
        EnteringKeepsInv(c, s, t);
      }
    case Decline => DeclineKeepsInv(c, s, t);
    case Enter => EntersKeepsInv(c, s, t);
    case CheckMigration => EntersKeepsInv(c, s, t);
    case NoteBackup => if s.host.entry == Migration { MigratedKeepsInv(c, s, t); } else { NoteKeepsInv(c, s, t); }
    case Authorize => AuthorizeKeepsInv(c, s, t);
    case FoundApplication => FoundApplicationKeepsInv(c, s, t);
    case FoundBootsel => FoundBootselKeepsInv(c, s, t);
    case StartProgram => StartProgramKeepsInv(c, s, t);
    case WriteDone => WriteDoneKeepsInv(c, s, t);
    case CheckReadBack => CheckReadBackKeepsInv(c, s, t);
    case NoteLaunch => NoteLaunchKeepsInv(c, s, t);
    case Observe => if c.guarded { HeldKeepsInv(c, s, t); } else { FinishingKeepsInv(c, s, t); }
    case RequestRelease(idle) => if idle { FinishingKeepsInv(c, s, t); } else { RequestKeepsInv(c, s, t); }
    case Released => FinishingKeepsInv(c, s, t);
    case Conclude => ConcludeKeepsInv(c, s, t);
    case Leave => LeaveKeepsInv(c, s, t);
    case _ =>
  }

  lemma WorksKeepsInv(c: Setup, s: State, t: State, step: Step)
    requires Inv(c, s) && s.host.Running? && Works(c, s, t, step)
    ensures Inv(c, t)
  {
    hide Inv, Moves, WritesImage, ImageInFlash, UpperKept, Receipt, Compared, Reached;
    match step
    case ReadSome(bytes) => ReadSomeKeepsInv(c, s, t, bytes);
    case ReadAll => ReadAllKeepsInv(c, s, t);
    case Sync => SyncKeepsInv(c, s, t);
    case WriteSome(flash) => WriteSomeKeepsInv(c, s, t, flash);
    case DoLaunch(flash) => DoLaunchKeepsInv(c, s, t, flash);
    case Save => SaveKeepsInv(c, s, t);
    case _ => MovesKeepsInv(c, s, t, step);
  }

  lemma RaiseKeepsInv(c: Setup, s: State, t: State)
    requires Inv(c, s) && s.host.Running? && Fails(s, t, Raise)
    ensures Inv(c, t)
  {
    hide EraseExtent, ImageInFlash, UpperKept;
    assert t == s.(host := s.host.(rec := FailedRecord(s.host.entry, s.host.rec), pc := Handling));
  }

  /** The record was replaced before the save raised. */
  lemma LateRaiseKeepsInv(c: Setup, s: State, t: State)
    requires Inv(c, s) && s.host.Running? && s.host.pc.Saving? && s.present
    requires t == Saved(s).(host := s.host.(rec := FailedRecord(s.host.entry, s.host.rec), pc := Handling))
    ensures Inv(c, t)
  {
    hide EraseExtent, ImageInFlash, UpperKept;
  }

  lemma SaveRaisesKeepsInv(c: Setup, s: State, t: State, effective: bool)
    requires Inv(c, s) && s.host.Running? && Fails(s, t, SaveRaises(effective))
    ensures Inv(c, t)
  {
    hide Inv, FailedRecord, Saved;
    if effective {
      LateRaiseKeepsInv(c, s, t);
    } else {
      RaiseKeepsInv(c, s, t);
    }
  }

  lemma HandlerSaveKeepsInv(c: Setup, s: State, t: State, effective: bool)
    requires Inv(c, s) && s.host.Running? && Fails(s, t, HandlerSave(effective))
    ensures Inv(c, t)
  {
    hide EraseExtent, ImageInFlash, UpperKept;
    var after := if effective then Saved(s) else s;
    assert t == after.(host := Idle, dropped := s.dropped || (effective && DropsFlag(s)));
  }

  lemma FailsKeepsInv(c: Setup, s: State, t: State, step: Step)
    requires Inv(c, s) && s.host.Running? && Fails(s, t, step)
    ensures Inv(c, t)
  {
    hide Inv;
    match step
    case Raise => RaiseKeepsInv(c, s, t);
    case SaveRaises(effective) => SaveRaisesKeepsInv(c, s, t, effective);
    case HandlerSave(effective) => HandlerSaveKeepsInv(c, s, t, effective);
    case _ =>
  }

  lemma RecoverKeepsInv(c: Setup, s: State, t: State)
    requires Inv(c, s) && Recovers(c, s, t)
    ensures Inv(c, t)
  {
    hide EraseExtent, ImageInFlash;
  }

  lemma NextKeepsInv(c: Setup, s: State, t: State, step: Step)
    requires Inv(c, s) && NextBy(c, s, t, step)
    ensures Inv(c, t)
  {
    hide EraseExtent, ImageInFlash, Works, Fails, Recovers;
    match step
    case Crash(backup) =>
    case Recover => RecoverKeepsInv(c, s, t);
    case Prune =>
    case _ =>
      if Works(c, s, t, step) {
        WorksKeepsInv(c, s, t, step);
      } else {
        FailsKeepsInv(c, s, t, step);
      }
  }

  // ---------- What every run keeps ----------

  lemma {:induction false} RunKeepsInv(c: Setup, states: seq<State>, i: nat)
    requires SetupOk(c) && Run(c, states) && i < |states|
    ensures Inv(c, states[i])
  {
    hide Inv, Init, NextBy;
    if i == 0 {
      InitInv(c, states[0]);
    } else {
      RunKeepsInv(c, states, i - 1);
      assert Next(c, states[i - 1], states[i]);
      var step :| NextBy(c, states[i - 1], states[i], step);
      NextKeepsInv(c, states[i - 1], states[i], step);
    }
  }

  /** In every state of every run: once a write has begun the durable backup is the one the
      record names and the preserved region equals it; until a record is completed the record
      stays, authorised and asking for recovery, unless the first run's handler dropped the
      flag; and a record past the comparison stands on flash that holds the image. */
  lemma RunIsSafe(c: Setup, states: seq<State>, i: nat)
    requires SetupOk(c) && Run(c, states) && i < |states|
    ensures var s := states[i];
            && (s.written && s.present ==> BackupGood(c, s, s.durable))
            && (s.written && !s.completed && !s.dropped ==>
                  s.present && s.durable.authorized && s.durable.recoveryRequired)
            && (s.present && Compared(Reached(s.durable)) ==> ImageInFlash(c, s.flash) && BackupGood(c, s, s.durable))
  {
    hide HostGood, BackupGood, Run;
    RunKeepsInv(c, states, i);
  }

  lemma MovesNeverSaves(c: Setup, s: State, host: Host, step: Step)
    requires s.host.Running? && Moves(c, s, host, step)
    ensures !step.HandlerSave? && !step.SaveRaises? && !Reaches(step)
  {
    hide ImageInFlash, UpperKept, Receipt, Compared, Reached;
  }

  /** What working steps leave alone: two write flash, two the backup, one the record. */
  lemma WorksFrame(c: Setup, s: State, t: State, step: Step)
    requires s.host.Running? && Works(c, s, t, step)
    ensures t.present == s.present && t.dropped == s.dropped && (s.written ==> t.written)
    ensures t.flash == s.flash
            || (&& WritesImage(c, s.flash, t.flash)
                && (s.host.pc == Write || (s.host.pc == Launch && !ImageInFlash(c, s.flash))))
    ensures t.backup == s.backup || s.host.pc == ReadBackup
    ensures t.durable == s.durable || (step == Save && s.host.pc.Saving? && t.durable == s.host.rec)
    ensures !step.HandlerSave?
  {
    hide ImageInFlash, WritesImage, Moves, Reaches;
    if t == s.(host := t.host) && Moves(c, s, t.host, step) { MovesNeverSaves(c, s, t.host, step); }
  }

  lemma FailsFrame(s: State, t: State, step: Step)
    requires s.host.Running? && Fails(s, t, step)
    ensures t.present == s.present && t.written == s.written && t.flash == s.flash && t.backup == s.backup
    ensures t.durable == s.durable
            || (t.durable == s.host.rec && (step == HandlerSave(true) || step == SaveRaises(true)))
    ensures step == HandlerSave(true) ==> s.host.pc == Handling && t.durable == s.host.rec
    ensures step == SaveRaises(true) ==> s.host.pc.Saving?
  {
    hide DropsFlag, FailedRecord;
  }

  /** What any step leaves alone. */
  lemma NextFrame(c: Setup, s: State, t: State, step: Step)
    requires NextBy(c, s, t, step)
    ensures s.written ==> t.written
    ensures t.present ==> s.present
    ensures s.present && s.durable.recoveryRequired ==> t.present
    ensures t.flash == s.flash
            || (s.host.Running? && WritesImage(c, s.flash, t.flash)
                && (s.host.pc == Write || (s.host.pc == Launch && !ImageInFlash(c, s.flash))))
    ensures t.backup == s.backup || !t.present || !s.synced || (s.host.Running? && s.host.pc == ReadBackup)
    ensures t.durable == s.durable
            || (s.host.Running? && t.durable == s.host.rec
                && (step == HandlerSave(true) || (s.host.pc.Saving? && (step == Save || step == SaveRaises(true)))))
    ensures step == HandlerSave(true) ==> s.host.Running? && s.host.pc == Handling && t.durable == s.host.rec
  {
    hide Works, Fails, Recovers, ImageInFlash, WritesImage;
    match step
    case Crash(_) =>
    case Recover => RecoverFrame(c, s, t);
    case Prune =>
    case _ =>
      if Works(c, s, t, step) {
        WorksFrame(c, s, t, step);
      } else {
        FailsFrame(s, t, step);
      }
  }

  lemma RecoverFrame(c: Setup, s: State, t: State)
    requires Recovers(c, s, t)
    ensures t == s.(host := t.host)
  {
    hide PendingMigration;
  }

  /** Flash is written only under a durable record that says so. */
  lemma WritesAreAnnounced(c: Setup, s: State, t: State, step: Step)
    requires Inv(c, s) && NextBy(c, s, t, step) && t.flash != s.flash
    ensures s.present && s.durable.stage == Programming && s.durable.authorized && s.durable.recoveryRequired
    ensures UpperKept(c, s.flash, t.flash)
  {
    NextFrame(c, s, t, step);
    hide NextBy, EraseExtent, BackupGood, ImageInFlash, WritesImage, UpperKept;
    WriteKeepsUpper(c, s.flash, t.flash);
  }

  /** From the first write on, no step changes the backup or the preserved region. */
  lemma BackupNeverChanges(c: Setup, s: State, t: State, step: Step)
    requires Inv(c, s) && NextBy(c, s, t, step) && s.written && t.present
    ensures t.written && t.backup == s.backup && UpperKept(c, s.flash, t.flash)
  {
    NextFrame(c, s, t, step);
    if t.flash != s.flash {
      WritesAreAnnounced(c, s, t, step);
    }
    hide NextBy, EraseExtent, ImageInFlash, WritesImage;
  }

  /** The only steps that take the recovery flag from a written, uncompleted transaction are
      its completion and the first run's handler after the completing update in memory. */
  lemma FlagDropsExactly(c: Setup, s: State, t: State, step: Step)
    requires Inv(c, s) && NextBy(c, s, t, step)
    requires s.written && s.present && !s.completed && s.durable.recoveryRequired && !s.dropped
    ensures t.present
    ensures !t.durable.recoveryRequired <==> t.durable.stage == Complete || (step == HandlerSave(true) && DropsFlag(s))
  {
    NextFrame(c, s, t, step);
    hide NextBy, EraseExtent, BackupGood, ImageInFlash, WritesImage;
  }

  // ---------- Recovery is admitted ----------

  /** What a record says of how far the work went. */
  predicate Traced(c: Setup, r: Record) {
    && (r.manualBootsel ==> PendingMigration(c, r) && Reached(r) == AwaitingBootsel)
    && (r.authorized ==> Reached(r) in {BackedUp, Programming} || Compared(Reached(r)))
    && (Reached(r) == MaintenanceRefused ==> !r.authorized && !r.recoveryRequired)
  }

  /** Only a migration goes on from a record that waits for the operator's reset. */
  predicate HostTraced(c: Setup, host: Host)
    requires host.Running?
  {
    && Traced(c, host.rec)
    && (host.rec.manualBootsel ==>
          || host.pc in {Saving(Return), Return, Handling}
          || (&& host.entry == Migration
              && host.pc in {MigrationChecks, ReadBackup, SyncBackup, RecordBackup, Compatibility}))
    && (host.entry == Transaction && host.pc != Handling ==> host.rec.stage != Failed && host.rec.failureStage == None)
    && (host.pc == Preflight || host.pc == EnterBootsel || host.pc == Saving(EnterBootsel) ==>
          host.entry == Transaction)
    && (Reached(host.rec) == MaintenanceRefused ==> host.entry == Transaction)
    && (host.rec.authorized && host.pc.Saving? ==> host.pc.next != Compatibility)
  }

  predicate StateTraced(c: Setup, s: State) {
    Traced(c, s.durable) && (s.host.Running? ==> HostTraced(c, s.host))
  }

  /** The steps up to the authorised record. */
  predicate Preparing(step: Step) {
    step.Prepare? || step.Decline? || step.Enter? || step.CheckMigration? || step.NoteBackup? || step.Authorize?
  }

  lemma EarlyMovesTraced(c: Setup, s: State, host: Host, step: Step)
    requires Inv(c, s) && StateTraced(c, s) && s.host.Running? && Moves(c, s, host, step)
    requires step.Prepare? || step.Decline? || step.Enter? || step.CheckMigration?
    ensures host.Running? ==> HostTraced(c, host)
  {
    hide ImageInFlash, UpperKept, EraseExtent, BackupGood;
  }

  lemma BackupMovesTraced(c: Setup, s: State, host: Host, step: Step)
    requires Inv(c, s) && StateTraced(c, s) && s.host.Running? && Moves(c, s, host, step)
    requires step.NoteBackup? || step.Authorize?
    ensures host.Running? ==> HostTraced(c, host)
  {
    hide ImageInFlash, UpperKept, EraseExtent, BackupGood;
  }

  /** The other steps keep what is authorised, or leave the record alone. */
  lemma ProgramMovesTraced(c: Setup, s: State, host: Host, step: Step)
    requires StateTraced(c, s) && s.host.Running? && Moves(c, s, host, step) && Programs(step)
    ensures host.Running? ==> HostTraced(c, host)
  {
    hide ImageInFlash, UpperKept, Receipt, EraseExtent;
  }

  predicate Programs(step: Step) {
    step.FoundApplication? || step.FoundBootsel? || step.StartProgram? || step.WriteDone? || step.CheckReadBack?
  }

  /** Nothing that a traced record says changes as the work goes on past the comparison. */
  lemma AdvanceTraced(c: Setup, host: Host, after: Host)
    requires host.Running? && HostTraced(c, host) && after.Running? && after.entry == host.entry
    requires Compared(after.rec.stage) && after.rec == host.rec.(stage := after.rec.stage,
      recoveryRequired := after.rec.recoveryRequired, preserved := after.rec.preserved)
    requires after.pc.Saving? && after.pc.next != Compatibility && after.pc.next != EnterBootsel
    requires !host.rec.manualBootsel && host.pc != Handling
    ensures HostTraced(c, after)
  {}

  lemma PlaceTraced(c: Setup, host: Host, after: Host)
    requires host.Running? && HostTraced(c, host) && after.Running? && !host.rec.manualBootsel && host.pc != Handling
    requires after == host.(pc := after.pc) && after.pc == Finish
    ensures HostTraced(c, after)
  {}

  lemma LateMovesTraced(c: Setup, s: State, host: Host, step: Step)
    requires StateTraced(c, s) && s.host.Running? && Moves(c, s, host, step)
    requires !Preparing(step) && !Programs(step)
    ensures host.Running? ==> HostTraced(c, host)
  {
    hide ImageInFlash, UpperKept, Receipt, EraseExtent, Traced;
    if host.Running? {
      if host.pc == Finish { PlaceTraced(c, s.host, host); } else { AdvanceTraced(c, s.host, host); }
    }
  }

  lemma MovesTraced(c: Setup, s: State, t: State, step: Step)
    requires Inv(c, s) && StateTraced(c, s) && s.host.Running?
    requires t == s.(host := t.host) && Moves(c, s, t.host, step)
    ensures StateTraced(c, t)
  {
    hide Inv, Moves, Traced, HostTraced;
    if step.NoteBackup? || step.Authorize? {
      BackupMovesTraced(c, s, t.host, step);
    } else if Preparing(step) {
      EarlyMovesTraced(c, s, t.host, step);
    } else if Programs(step) {
      ProgramMovesTraced(c, s, t.host, step);
    } else {
      LateMovesTraced(c, s, t.host, step);
    }
  }

  lemma SaveTraced(c: Setup, s: State, t: State)
    requires Inv(c, s) && StateTraced(c, s) && s.host.Running? && s.host.pc.Saving? && s.present
    requires t == At(Saved(s), s.host.pc.next)
    ensures StateTraced(c, t)
  {
    hide Traced, EraseExtent, ImageInFlash, BackupGood;
  }

  lemma WorksTraced(c: Setup, s: State, t: State, step: Step)
    requires Inv(c, s) && StateTraced(c, s) && s.host.Running? && Works(c, s, t, step)
    ensures StateTraced(c, t)
  {
    hide Inv, Moves, Traced, ImageInFlash, WritesImage;
    match step
    case Save => SaveTraced(c, s, t);
    case ReadSome(_) =>
    case ReadAll =>
    case Sync =>
    case WriteSome(_) =>
    case DoLaunch(_) =>
    case _ => MovesTraced(c, s, t, step);
  }

  lemma FailsTraced(c: Setup, s: State, t: State, step: Step)
    requires StateTraced(c, s) && s.host.Running? && Fails(s, t, step)
    ensures StateTraced(c, t)
  {
    hide DropsFlag;
  }

  lemma RecoverTraced(c: Setup, s: State, t: State)
    requires Inv(c, s) && StateTraced(c, s) && Recovers(c, s, t)
    ensures StateTraced(c, t)
  {
    hide EraseExtent, ImageInFlash, BackupGood;
  }

  lemma NextTraced(c: Setup, s: State, t: State, step: Step)
    requires Inv(c, s) && StateTraced(c, s) && NextBy(c, s, t, step)
    ensures StateTraced(c, t)
  {
    hide Inv, Works, Fails, Recovers, Traced;
    match step
    case Crash(_) =>
    case Recover => RecoverTraced(c, s, t);
    case Prune =>
    case _ =>
      if Works(c, s, t, step) {
        WorksTraced(c, s, t, step);
      } else {
        FailsTraced(c, s, t, step);
      }
  }

  lemma {:induction false} RunTraced(c: Setup, states: seq<State>, i: nat)
    requires SetupOk(c) && Run(c, states) && i < |states|
    ensures StateTraced(c, states[i])
  {
    hide Inv, NextBy, StateTraced;
    if i == 0 {
      FirstTraced(c, states[0]);
    } else {
      RunTraced(c, states, i - 1);
      RunKeepsInv(c, states, i - 1);
      assert Next(c, states[i - 1], states[i]);
      var step :| NextBy(c, states[i - 1], states[i], step);
      NextTraced(c, states[i - 1], states[i], step);
    }
  }

  lemma FirstTraced(c: Setup, s: State)
    requires Init(s)
    ensures StateTraced(c, s)
  {}

  /** What a caller can read off the record of a transaction that nobody works on. */
  predicate Resumable(s: State) {
    s.present && (s.durable.authorized || s.durable.manualBootsel)
  }

  /** Whatever run came before, a recovery is admitted exactly when the record was authorised or
      waits for the operator's reset; at most one way, and never against the backup. */
  lemma RecoveryAdmittedExactly(c: Setup, states: seq<State>)
    requires SetupOk(c) && Run(c, states) && Last(states).host == Idle
    ensures (exists t :: Recovers(c, Last(states), t)) <==> Resumable(Last(states))
    ensures Last(states).durable.manualBootsel <==> PendingMigration(c, Last(states).durable)
  {
    hide Run;
    var s := Last(states);
    RunKeepsInv(c, states, |states| - 1);
    RunTraced(c, states, |states| - 1);
    if s.present && s.durable.manualBootsel {
      assert Recovers(c, s, s.(host := Running(Migration, MigrationChecks, s.durable, [])));
    } else if s.present && s.durable.authorized {
      assert Recovers(c, s, s.(host := Running(Recovery, RecoverBoard, s.durable, s.backup.value)));
    }
  }

  /** A declined upgrade and an authorised one are told apart for good: the one asks for
      nothing, so that pruning may take it, and the other has only stages that a recovery knows. */
  lemma ReachedIsTold(c: Setup, states: seq<State>)
    requires SetupOk(c) && Run(c, states)
    ensures var r := Last(states).durable;
            && (Reached(r) == MaintenanceRefused ==> !r.recoveryRequired && !r.authorized)
            && (r.authorized ==> Reached(r) in {BackedUp, Programming} || Compared(Reached(r)))
  {
    hide Run;
    RunTraced(c, states, |states| - 1);
  }

  // ---------- Runs are made longer ----------

  function Last(states: seq<State>): State
    requires states != []
  {
    states[|states| - 1]
  }

  lemma Extend(c: Setup, states: seq<State>, t: State, step: Step) returns (longer: seq<State>)
    requires Run(c, states) && NextBy(c, Last(states), t, step)
    ensures Run(c, longer) && longer == states + [t]
  {
    longer := states + [t];
    assert Next(c, Last(states), t);
    forall i | 0 < i < |longer| ensures Next(c, longer[i - 1], longer[i]) {
      if i < |states| {
        assert Next(c, states[i - 1], states[i]);
      }
    }
  }

  /** Go on with a working step that keeps the process where it is or saves the record. */
  lemma Work(c: Setup, states: seq<State>, t: State, step: Step) returns (longer: seq<State>)
    requires Run(c, states) && Last(states).host.Running? && Works(c, Last(states), t, step)
    ensures Run(c, longer) && longer == states + [t]
  {
    WorkIsNext(c, Last(states), t, step);
    longer := Extend(c, states, t, step);
  }

  lemma WorkIsNext(c: Setup, s: State, t: State, step: Step)
    requires s.host.Running? && Works(c, s, t, step)
    ensures NextBy(c, s, t, step)
  {}

  lemma SaveOn(c: Setup, states: seq<State>, next: Pc) returns (longer: seq<State>)
    requires Run(c, states)
    requires Last(states).host.Running? && Last(states).host.pc == Saving(next) && Last(states).present
    ensures Run(c, longer) && longer == states + [At(Saved(Last(states)), next)]
  {
    var s := Last(states);
    longer := Work(c, states, At(Saved(s), next), Save);
  }

  /** Go on with a step that changes the record, and save it. */
  lemma MoveAndSave(c: Setup, states: seq<State>, rec: Record, next: Pc, step: Step) returns (longer: seq<State>)
    requires Run(c, states) && Last(states).host.Running? && Last(states).present && !Reaches(step)
    requires Moves(c, Last(states), SaveThen(Last(states), rec, next).host, step)
    ensures Run(c, longer)
    ensures var s := SaveThen(Last(states), rec, next); longer == states + [s, At(Saved(s), next)]
  {
    hide Run, Moves;
    longer := Work(c, states, SaveThen(Last(states), rec, next), step);
    longer := SaveOn(c, longer, next);
  }

  // ---------- From anywhere to completion ----------

  /** The process stands at the given place with an authorised record. */
  predicate Stands(s: State, pc: Pc) {
    s.present && s.host.Running? && s.host.pc == pc && s.host.rec.authorized && |s.flash| == FLASH_SIZE
  }

  /** The longer run writes no flash where it goes on. */
  predicate Follows(states: seq<State>, longer: seq<State>) {
    && states != [] && states <= longer && Last(longer).flash == Last(states).flash
    && forall i :: |states| <= i < |longer| ==> longer[i].flash == Last(states).flash
  }

  /** The process goes on without completing anything. */
  predicate Keeps(s: State, t: State) {
    && s.host.Running? && t.host.Running? && t.host.entry == s.host.entry
    && t.completed == s.completed && t.dropped == s.dropped && (s.written ==> t.written)
  }

  /** From the state before a backup to the authorised record. */
  lemma OnToProgram(c: Setup, states: seq<State>) returns (longer: seq<State>)
    requires Run(c, states)
    requires var s := Last(states);
             s.present && s.host.Running? && s.host.pc == ReadBackup && |s.flash| == FLASH_SIZE
             && s.host.rec.stage != Complete
    ensures Run(c, longer) && states <= longer && Stands(Last(longer), Program)
    ensures Keeps(Last(states), Last(longer)) && Last(longer).flash == Last(longer).host.before == Last(states).flash
  {
    hide Run, WritesImage, ImageInFlash, UpperKept;
    var s0 := Last(states);
    longer := Work(c, states, s0.(backup := Some(s0.flash), synced := false,
                                  host := s0.host.(pc := SyncBackup, before := s0.flash)), ReadAll);
    longer := Work(c, longer, At(Last(longer).(synced := true), RecordBackup), Sync);
    longer := NoteOn(c, longer);
    longer := AuthorizeOn(c, longer);
  }

  lemma NoteOn(c: Setup, states: seq<State>) returns (longer: seq<State>)
    requires Run(c, states)
    requires var s := Last(states);
             s.present && s.host.Running? && s.host.pc == RecordBackup && s.host.rec.stage != Complete
    ensures Run(c, longer) && states <= longer
    ensures Keeps(Last(states), Last(longer)) && Last(longer).present && Last(longer).flash == Last(states).flash
    ensures Last(longer).host.pc == Compatibility && Last(longer).host.before == Last(states).host.before
  {
    hide Run, WritesImage, ImageInFlash, UpperKept;
    var s := Last(states);
    if s.host.entry == Migration {
      longer := Work(c, states, At(s, Compatibility), NoteBackup);
    } else {
      var noted := Receipt(c, s.host.rec.(stage := BackupReadbackVerified), s.host.before);
      longer := MoveAndSave(c, states, noted, Compatibility, NoteBackup);
    }
  }

  lemma AuthorizeOn(c: Setup, states: seq<State>) returns (longer: seq<State>)
    requires Run(c, states)
    requires var s := Last(states);
             s.present && s.host.Running? && s.host.pc == Compatibility && |s.flash| == FLASH_SIZE
    ensures Run(c, longer) && states <= longer && Stands(Last(longer), Program)
    ensures Keeps(Last(states), Last(longer)) && Last(longer).flash == Last(states).flash
    ensures Last(longer).host.before == Last(states).host.before
  {
    hide Run, WritesImage, ImageInFlash, UpperKept;
    var s := Last(states);
    var manual := s.host.rec.manualBootsel && s.host.entry != Migration;
    var authorized := s.host.rec.(stage := BackedUp, authorized := true, manualBootsel := manual);
    longer := MoveAndSave(c, states, Receipt(c, authorized, s.host.before), Program, Authorize);
  }

  /** On to the first bytes written, which happen to be all of them. */
  lemma OnToWritten(c: Setup, states: seq<State>) returns (longer: seq<State>)
    requires SetupOk(c) && Run(c, states) && Stands(Last(states), Program)
    requires UpperKept(c, Last(states).flash, Last(states).host.before)
    ensures Run(c, longer) && states <= longer && Stands(Last(longer), Write) && Last(longer).written
    ensures Keeps(Last(states), Last(longer)) && ImageInFlash(c, Last(longer).flash)
    ensures UpperKept(c, Last(states).flash, Last(longer).flash)
    ensures UpperKept(c, Last(longer).flash, Last(longer).host.before)
  {
    hide Run, WritesImage, ImageInFlash, UpperKept, Receipt;
    var s := Last(states);
    var programming := s.host.rec.(stage := Programming, recoveryRequired := true);
    longer := MoveAndSave(c, states, programming, Write, StartProgram);
    var programmed := c.image + s.flash[|c.image|..];
    ProgrammedFlash(c, s.flash);
    KeptJoins(c, programmed, s.flash, s.host.before);
    longer := Work(c, longer, Last(longer).(flash := programmed, written := true), WriteSome(programmed));
  }

  lemma ProgrammedFlash(c: Setup, flash: seq<byte>)
    requires SetupOk(c) && |flash| == FLASH_SIZE
    ensures var programmed := c.image + flash[|c.image|..];
            && WritesImage(c, flash, programmed) && ImageInFlash(c, programmed) && |programmed| == FLASH_SIZE
            && UpperKept(c, programmed, flash) && UpperKept(c, flash, programmed)
  {
    var programmed, extent := c.image + flash[|c.image|..], EraseExtent(|c.image|);
    hide EraseExtent;
    assert programmed[extent..] == flash[extent..] && programmed[c.start..] == flash[c.start..];
  }

  lemma KeptJoins(c: Setup, a: seq<byte>, b: seq<byte>, d: seq<byte>)
    requires UpperKept(c, a, b) && UpperKept(c, b, d)
    ensures UpperKept(c, a, d)
  {}

  lemma KeepsItself(c: Setup, flash: seq<byte>)
    requires SetupOk(c) && |flash| == FLASH_SIZE
    ensures UpperKept(c, flash, flash) && WritesImage(c, flash, flash)
  {}

  /** On through the comparison. */
  lemma OnToLaunch(c: Setup, states: seq<State>) returns (longer: seq<State>)
    requires Run(c, states) && Stands(Last(states), Write)
    requires ImageInFlash(c, Last(states).flash) && UpperKept(c, Last(states).flash, Last(states).host.before)
    ensures Run(c, longer) && Follows(states, longer) && Stands(Last(longer), MarkLaunch)
    ensures Keeps(Last(states), Last(longer))
  {
    hide Run, WritesImage, ImageInFlash, UpperKept, Receipt;
    longer := Work(c, states, At(Last(states), ReadBack), WriteDone);
    var verified := Last(longer).host.rec.(stage := ProgrammedAndVerified, preserved := true);
    longer := MoveAndSave(c, longer, verified, MarkLaunch, CheckReadBack);
  }

  /** On through the launch, which finds nothing left to write. */
  lemma OnToVerify(c: Setup, states: seq<State>) returns (longer: seq<State>)
    requires SetupOk(c) && Run(c, states) && Stands(Last(states), MarkLaunch) && ImageInFlash(c, Last(states).flash)
    ensures Run(c, longer) && Follows(states, longer) && Stands(Last(longer), Verify)
    ensures Keeps(Last(states), Last(longer))
  {
    hide Run, WritesImage, ImageInFlash, UpperKept, Receipt;
    var flash := Last(states).flash;
    KeepsItself(c, flash);
    longer := MoveAndSave(c, states, Last(states).host.rec.(stage := Launching), Launch, NoteLaunch);
    longer := Work(c, longer, At(Last(longer).(flash := flash), Verify), DoLaunch(flash));
  }

  /** On through the verification of a held application. */
  lemma OnToRelease(c: Setup, states: seq<State>) returns (longer: seq<State>)
    requires Run(c, states) && Stands(Last(states), Verify) && c.guarded
    ensures Run(c, longer) && Follows(states, longer) && Stands(Last(longer), Release)
    ensures Keeps(Last(states), Last(longer))
  {
    hide Run, WritesImage, ImageInFlash, UpperKept, Receipt;
    var held := Last(states).host.rec.(stage := ApplicationHeld);
    longer := MoveAndSave(c, states, held, Release, Observe);
  }

  lemma OnToReleased(c: Setup, states: seq<State>) returns (longer: seq<State>)
    requires Run(c, states) && Stands(Last(states), Release)
    ensures Run(c, longer) && Follows(states, longer) && Stands(Last(longer), Finish)
    ensures Keeps(Last(states), Last(longer))
  {
    hide Run, WritesImage, ImageInFlash, UpperKept, Receipt;
    var requested := Last(states).host.rec.(stage := ReleaseRequested);
    longer := MoveAndSave(c, states, requested, ReleaseCall, RequestRelease(false));
    longer := Work(c, longer, At(Last(longer), Finish), Released);
  }

  /** On to the end of the work. */
  lemma OnToFinish(c: Setup, states: seq<State>) returns (longer: seq<State>)
    requires Run(c, states) && Stands(Last(states), Verify) && (c.guarded || c.operation == Install)
    ensures Run(c, longer) && Follows(states, longer) && Stands(Last(longer), Finish)
    ensures Keeps(Last(states), Last(longer))
  {
    hide Run, WritesImage, ImageInFlash, UpperKept, Receipt;
    if c.guarded {
      longer := OnToRelease(c, states);
      longer := OnToReleased(c, longer);
    } else {
      longer := Work(c, states, At(Last(states), Finish), Observe);
    }
  }

  /** On to the saved completion. */
  lemma OnToEnd(c: Setup, states: seq<State>) returns (longer: seq<State>)
    requires Run(c, states) && Stands(Last(states), Finish)
    ensures Run(c, longer) && Follows(states, longer) && Completed(Last(longer))
  {
    hide Run, WritesImage, ImageInFlash, UpperKept, Receipt;
    var completed := Last(states).host.rec.(stage := Complete, recoveryRequired := false, preserved := true);
    longer := MoveAndSave(c, states, completed, Return, Conclude);
    longer := Work(c, longer, Last(longer).(host := Idle), Leave);
  }

  /** The record is complete, asks for nothing, and the process has left. */
  predicate Completed(s: State) {
    s.completed && s.host == Idle && s.present && s.durable.stage == Complete && !s.durable.recoveryRequired
  }

  /** From an authorised record to the end. */
  lemma OnToCompletion(c: Setup, states: seq<State>) returns (longer: seq<State>)
    requires SetupOk(c) && Run(c, states) && Stands(Last(states), Program) && (c.guarded || c.operation == Install)
    requires UpperKept(c, Last(states).flash, Last(states).host.before)
    ensures Run(c, longer) && states <= longer && Completed(Last(longer))
    ensures ImageInFlash(c, Last(longer).flash) && UpperKept(c, Last(states).flash, Last(longer).flash)
  {
    hide Run, Stands, ImageInFlash, UpperKept, Completed, SetupOk;
    longer := OnToWritten(c, states);
    longer := OnToLaunch(c, longer);
    longer := OnToVerify(c, longer);
    longer := OnToFinish(c, longer);
    longer := OnToEnd(c, longer);
  }

  /** The operator's reset takes a prepared migration to its authorised record. */
  lemma MigrationOn(c: Setup, states: seq<State>) returns (longer: seq<State>)
    requires SetupOk(c) && Run(c, states) && Last(states).host == Idle && c.guarded
    requires Last(states).present && Last(states).durable.manualBootsel
    ensures Run(c, longer) && states <= longer && Stands(Last(longer), Program)
    ensures UpperKept(c, Last(states).flash, Last(longer).flash)
    ensures UpperKept(c, Last(longer).flash, Last(longer).host.before)
  {
    hide Run, WritesImage, ImageInFlash, UpperKept;
    var s := Last(states);
    RunKeepsInv(c, states, |states| - 1);
    RunTraced(c, states, |states| - 1);
    longer := Extend(c, states, s.(host := Running(Migration, MigrationChecks, s.durable, [])), Recover);
    longer := Work(c, longer, At(Last(longer), ReadBackup), CheckMigration);
    longer := OnToProgram(c, longer);
    KeepsItself(c, s.flash);
  }

  /** A recovery takes an authorised record to where it programs the board again. */
  lemma AuthorizedOn(c: Setup, states: seq<State>) returns (longer: seq<State>)
    requires SetupOk(c) && Run(c, states) && Last(states).host == Idle
    requires Last(states).present && Last(states).durable.authorized
    ensures Run(c, longer) && states <= longer && Stands(Last(longer), Program)
    ensures UpperKept(c, Last(states).flash, Last(longer).flash)
    ensures UpperKept(c, Last(longer).flash, Last(longer).host.before)
  {
    hide Run, WritesImage, ImageInFlash, UpperKept;
    var s := Last(states);
    RunKeepsInv(c, states, |states| - 1);
    KeepsItself(c, s.flash);
    longer := Extend(c, states, s.(host := Running(Recovery, RecoverBoard, s.durable, s.backup.value)), Recover);
    longer := Work(c, longer, At(Last(longer), Program), FoundBootsel);
  }

  /** Both ways on. */
  lemma RecoveryOn(c: Setup, states: seq<State>) returns (longer: seq<State>)
    requires SetupOk(c) && Run(c, states) && Last(states).host == Idle && Resumable(Last(states))
    requires c.guarded || c.operation == Install
    ensures Run(c, longer) && states <= longer && Stands(Last(longer), Program)
    ensures UpperKept(c, Last(states).flash, Last(longer).flash)
    ensures UpperKept(c, Last(longer).flash, Last(longer).host.before)
  {
    hide Run, Stands, UpperKept, Reached;
    if Last(states).durable.manualBootsel {
      RunTraced(c, states, |states| - 1);
      longer := MigrationOn(c, states);
    } else {
      longer := AuthorizedOn(c, states);
    }
  }

  lemma RecoveryToVerify(c: Setup, states: seq<State>) returns (longer: seq<State>)
    requires SetupOk(c) && Run(c, states) && Last(states).host == Idle
    requires var s := Last(states);
             s.present && s.durable.authorized && Reached(s.durable) != BackedUp && Reached(s.durable) != Programming
    ensures Run(c, longer) && Follows(states, longer) && Stands(Last(longer), Verify)
    ensures ImageInFlash(c, Last(longer).flash)
  {
    hide Run, WritesImage, ImageInFlash, UpperKept;
    var s := Last(states);
    RunKeepsInv(c, states, |states| - 1);
    RunTraced(c, states, |states| - 1);
    longer := Extend(c, states, s.(host := Running(Recovery, RecoverBoard, s.durable, s.backup.value)), Recover);
    longer := Work(c, longer, At(Last(longer), Verify), FoundApplication);
  }

  /** If the interrupted work had got past the comparison, it can end without writing flash. */
  lemma CompletesWithoutWriting(c: Setup, states: seq<State>) returns (longer: seq<State>)
    requires SetupOk(c) && Run(c, states) && Last(states).host == Idle && (c.guarded || c.operation == Install)
    requires var s := Last(states);
             s.present && s.durable.authorized && Reached(s.durable) != BackedUp && Reached(s.durable) != Programming
    ensures Run(c, longer) && Follows(states, longer) && Completed(Last(longer)) && ImageInFlash(c, Last(longer).flash)
  {
    hide Run, Stands, Completed, ImageInFlash;
    longer := RecoveryToVerify(c, states);
    longer := OnToFinish(c, longer);
    longer := OnToEnd(c, longer);
  }

  // ---------- Exactly which interrupted transactions can be completed ----------

  /** The places that only an application held for its verification leads to. */
  predicate Ending(pc: Pc) {
    pc.Release? || pc.ReleaseCall? || pc.Finish? || (pc.Saving? && Ending(pc.next))
  }

  predicate HostUnfinished(host: Host)
    requires host.Running?
  {
    !host.rec.stage.Complete? && !Ending(host.pc)
  }

  /** A run of an upgrade to an unguarded image gets no further than its verification. */
  predicate Unfinished(s: State) {
    !s.completed && !s.durable.stage.Complete? && (s.host.Running? ==> HostUnfinished(s.host))
  }

  lemma SavingUnfinished(s: State, rec: Record, next: Pc)
    requires s.host.Running? && !rec.stage.Complete? && !Ending(next)
    ensures SaveThen(s, rec, next).host.Running? && HostUnfinished(SaveThen(s, rec, next).host)
  {}

  lemma PlaceUnfinished(s: State, pc: Pc)
    requires s.host.Running? && HostUnfinished(s.host) && !Ending(pc)
    ensures At(s, pc).host.Running? && HostUnfinished(At(s, pc).host)
  {}

  lemma EarlyMovesUnfinished(c: Setup, s: State, host: Host, step: Step)
    requires s.host.Running? && HostUnfinished(s.host) && Moves(c, s, host, step) && Preparing(step)
    ensures host.Running? && HostUnfinished(host)
  {
    hide HostUnfinished, SaveThen, At, Receipt;
    var rec, before := s.host.rec, s.host.before;
    match step
    case Prepare(legacy) =>
      PlaceUnfinished(s, ReadBackup);
      SavingUnfinished(s, rec.(stage := AwaitingBootsel, recoveryRequired := true, manualBootsel := true), Return);
      SavingUnfinished(s, rec.(stage := EnteringBootsel, recoveryRequired := true), EnterBootsel);
    case Decline =>
      SavingUnfinished(s, rec.(stage := MaintenanceRefused, recoveryRequired := false), RaiseRefusal);
    case NoteBackup =>
      var noted := rec.(stage := BackupReadbackVerified);
      ReceiptKeepsStage(c, noted, before);
      PlaceUnfinished(s, Compatibility);
      SavingUnfinished(s, Receipt(c, noted, before), Compatibility);
    case Authorize =>
      var manual := rec.manualBootsel && s.host.entry != Migration;
      var authorized := rec.(stage := BackedUp, authorized := true, manualBootsel := manual);
      ReceiptKeepsStage(c, authorized, before);
      SavingUnfinished(s, Receipt(c, authorized, before), Program);
    case _ =>
      PlaceUnfinished(s, ReadBackup);
  }

  lemma ReceiptKeepsStage(c: Setup, rec: Record, before: seq<byte>)
    ensures Receipt(c, rec, before).stage == rec.stage
  {}

  lemma LateMovesUnfinished(c: Setup, s: State, host: Host, step: Step)
    requires c.operation == Upgrade && !c.guarded
    requires s.host.Running? && HostUnfinished(s.host) && Moves(c, s, host, step) && !Preparing(step)
    ensures host.Running? ==> HostUnfinished(host)
  {
    hide ImageInFlash, UpperKept, Compared, Reached, Receipt;
  }

  lemma WorksUnfinished(c: Setup, s: State, t: State, step: Step)
    requires c.operation == Upgrade && !c.guarded
    requires s.host.Running? && Unfinished(s) && Works(c, s, t, step)
    ensures Unfinished(t)
  {
    hide Moves, Preparing, ImageInFlash, WritesImage, HostUnfinished;
    match step
    case Save => SaveUnfinished(s, t);
    case ReadSome(_) =>
    case ReadAll => assert HostUnfinished(t.host) by { SamePlace(s.host, t.host); }
    case Sync => assert HostUnfinished(t.host) by { SamePlace(s.host, t.host); }
    case WriteSome(_) =>
    case DoLaunch(_) => assert HostUnfinished(t.host) by { SamePlace(s.host, t.host); }
    case _ =>
      if Preparing(step) {
        EarlyMovesUnfinished(c, s, t.host, step);
      } else {
        LateMovesUnfinished(c, s, t.host, step);
      }
  }

  lemma SamePlace(host: Host, after: Host)
    requires host.Running? && after.Running? && HostUnfinished(host) && after.rec == host.rec
    requires after.pc in {SyncBackup, RecordBackup, Verify}
    ensures HostUnfinished(after)
  {}

  lemma SaveUnfinished(s: State, t: State)
    requires s.host.Running? && s.host.pc.Saving? && Unfinished(s) && s.present && t == At(Saved(s), s.host.pc.next)
    ensures Unfinished(t)
  {}

  lemma FailsUnfinished(s: State, t: State, step: Step)
    requires s.host.Running? && Unfinished(s) && Fails(s, t, step)
    ensures Unfinished(t)
  {
    hide DropsFlag;
  }

  lemma UnguardedNeverFinishes(c: Setup, s: State, t: State, step: Step)
    requires c.operation == Upgrade && !c.guarded && Unfinished(s) && NextBy(c, s, t, step)
    ensures Unfinished(t)
  {
    hide Works, Fails, Unfinished;
    match step
    case Crash(_) => LeavesUnfinished(s, t);
    case Recover => RecoversUnfinished(c, s, t);
    case Prune => LeavesUnfinished(s, t);
    case _ =>
      if Works(c, s, t, step) {
        WorksUnfinished(c, s, t, step);
      } else {
        FailsUnfinished(s, t, step);
      }
  }

  lemma LeavesUnfinished(s: State, t: State)
    requires Unfinished(s) && t.completed == s.completed && t.durable == s.durable
    requires t.host == Idle || t.host == s.host
    ensures Unfinished(t)
  {}

  lemma RecoversUnfinished(c: Setup, s: State, t: State)
    requires Unfinished(s) && Recovers(c, s, t)
    ensures Unfinished(t)
  {
    hide PendingMigration;
  }

  lemma NotCompleteYet(c: Setup, s: State)
    requires Inv(c, s) && s.host == Idle && !s.completed && s.present
    ensures Unfinished(s)
  {
    hide EraseExtent, ImageInFlash, BackupGood;
  }

  /** Nobody works on it, and nothing admits a recovery. */
  predicate Stuck(s: State) {
    s.host == Idle && !s.completed && !Resumable(s)
  }

  lemma StuckForEver(c: Setup, s: State, t: State, step: Step)
    requires Inv(c, s) && Stuck(s) && NextBy(c, s, t, step)
    ensures Stuck(t)
  {
    hide Works, Fails;
  }

  lemma {:induction false} NeverCompleted(c: Setup, states: seq<State>, longer: seq<State>, i: nat)
    requires SetupOk(c) && Run(c, longer) && states != [] && states <= longer && |states| <= i + 1 <= |longer|
    requires Stuck(Last(states)) || (c.operation == Upgrade && !c.guarded && Unfinished(Last(states)))
    ensures !longer[i].completed
    ensures Stuck(longer[i]) || (c.operation == Upgrade && !c.guarded && Unfinished(longer[i]))
    decreases i
  {
    hide Inv, NextBy, Resumable;
    if |states| == i + 1 {
      assert longer[i] == Last(states);
    } else {
      NeverCompleted(c, states, longer, i - 1);
      RunKeepsInv(c, longer, i - 1);
      assert Next(c, longer[i - 1], longer[i]);
      var step :| NextBy(c, longer[i - 1], longer[i], step);
      if Stuck(longer[i - 1]) {
        StuckForEver(c, longer[i - 1], longer[i], step);
      } else {
        UnguardedNeverFinishes(c, longer[i - 1], longer[i], step);
      }
    }
  }

  ghost predicate CanComplete(c: Setup, states: seq<State>) {
    exists longer :: Run(c, longer) && states <= longer && Last(longer).completed
  }

  /** However a run was interrupted, it can still be completed exactly when its record was
      authorised or waits for the operator's reset, and the image is guarded or newly
      installed; and then so that the image is in flash and the preserved region unchanged. */
  lemma InterruptedCompletesExactly(c: Setup, states: seq<State>)
    requires SetupOk(c) && Run(c, states) && Last(states).host == Idle && !Last(states).completed
    ensures CanComplete(c, states) <==> Resumable(Last(states)) && (c.guarded || c.operation == Install)
    ensures CanComplete(c, states) ==>
              exists longer :: Run(c, longer) && states <= longer && Completed(Last(longer))
                && ImageInFlash(c, Last(longer).flash) && UpperKept(c, Last(states).flash, Last(longer).flash)
  {
    hide Run, Inv, ImageInFlash, UpperKept;
    RunKeepsInv(c, states, |states| - 1);
    if Resumable(Last(states)) && (c.guarded || c.operation == Install) {
      var longer := RecoveryOn(c, states);
      var there := Last(longer).flash;
      longer := OnToCompletion(c, longer);
      KeptJoins(c, Last(states).flash, there, Last(longer).flash);
    } else if longer :| Run(c, longer) && states <= longer && Last(longer).completed {
      if Last(states).present { NotCompleteYet(c, Last(states)); }
      NeverCompleted(c, states, longer, |longer| - 1);
    }
  }

  /** The first state of a transaction on the given flash. */
  function Fresh(flash: seq<byte>): State {
    State(true, FIRST, None, false, flash, Running(Transaction, Preflight, FIRST, []), false, false, false)
  }

  /** A new transaction comes to its authorised record. */
  lemma FreshOn(c: Setup, flash: seq<byte>) returns (states: seq<State>)
    requires |flash| == FLASH_SIZE
    ensures Run(c, states) && states[0] == Fresh(flash) && Stands(Last(states), Program)
    ensures Last(states).flash == Last(states).host.before == flash && Keeps(Fresh(flash), Last(states))
  {
    hide Run, WritesImage, ImageInFlash, UpperKept, Receipt;
    var s := Fresh(flash);
    FreshRuns(c, flash);
    if c.operation == Install {
      states := Work(c, [s], At(s, ReadBackup), Prepare(false));
    } else {
      var entering := FIRST.(stage := EnteringBootsel, recoveryRequired := true);
      states := MoveAndSave(c, [s], entering, EnterBootsel, Prepare(false));
      states := Work(c, states, At(Last(states), ReadBackup), Enter);
    }
    states := OnToProgram(c, states);
  }

  /** The upgrade of a legacy application comes to where it waits for the operator's reset. */
  lemma LegacyOn(c: Setup, flash: seq<byte>) returns (states: seq<State>)
    requires |flash| == FLASH_SIZE && c.operation == Upgrade
    ensures Run(c, states) && states[0] == Fresh(flash)
    ensures Last(states).flash == flash && Last(states).host == Idle && Resumable(Last(states))
  {
    hide Run, WritesImage, ImageInFlash, UpperKept, Receipt;
    var s := Fresh(flash);
    FreshRuns(c, flash);
    var waiting := FIRST.(stage := AwaitingBootsel, recoveryRequired := true, manualBootsel := true);
    states := MoveAndSave(c, [s], waiting, Return, Prepare(true));
    states := Work(c, states, Last(states).(host := Idle), Leave);
  }

  lemma FreshRuns(c: Setup, flash: seq<byte>)
    requires |flash| == FLASH_SIZE
    ensures Run(c, [Fresh(flash)])
  {}

  /** Every new transaction can be completed: an installation, and an upgrade to a guarded
      image from a guarded or a legacy application. */
  lemma FreshCompletes(c: Setup, flash: seq<byte>, legacy: bool) returns (states: seq<State>)
    requires SetupOk(c) && |flash| == FLASH_SIZE && (c.guarded || c.operation == Install)
    ensures Run(c, states) && states[0] == Fresh(flash) && Completed(Last(states))
    ensures ImageInFlash(c, Last(states).flash) && UpperKept(c, flash, Last(states).flash)
  {
    hide Run, Stands, ImageInFlash, UpperKept, Completed, SetupOk;
    KeepsItself(c, flash);
    if c.operation == Upgrade && legacy {
      states := LegacyOn(c, flash);
      states := RecoveryOn(c, states);
    } else {
      states := FreshOn(c, flash);
    }
    var there := Last(states).flash;
    states := OnToCompletion(c, states);
    KeptJoins(c, flash, there, Last(states).flash);
  }

  // ---------- The flag can be dropped ----------

  /** A first installation whose final save fails once, with the handler's save succeeding,
      leaves a written, authorised, never completed record that does not ask for recovery;
      the installer still admits its recovery, but its pruning may take the record first. */
  lemma FlagCanDrop(c: Setup, flash: seq<byte>) returns (states: seq<State>)
    requires SetupOk(c) && c.operation == Install && |flash| == FLASH_SIZE
    ensures Run(c, states)
    ensures var s := Last(states);
            s.written && s.present && !s.completed && s.dropped && s.durable.authorized && !s.durable.recoveryRequired
  {
    hide Run, WritesImage, ImageInFlash, UpperKept, Receipt;
    states := RunToFinish(c, flash);
    var s0 := Last(states);
    var completed := s0.host.rec.(stage := Complete, recoveryRequired := false, preserved := true);
    states := Work(c, states, SaveThen(s0, completed, Return), Conclude);
    var s1 := Last(states);
    var t := s1.(host := s1.host.(rec := FailedRecord(Transaction, s1.host.rec), pc := Handling));
    FailIsNext(c, s1, t, SaveRaises(false));
    states := Extend(c, states, t, SaveRaises(false));
    var u := Saved(t).(host := Idle, dropped := true);
    FailIsNext(c, t, u, HandlerSave(true));
    states := Extend(c, states, u, HandlerSave(true));
  }

  lemma RunToFinish(c: Setup, flash: seq<byte>) returns (states: seq<State>)
    requires SetupOk(c) && c.operation == Install && |flash| == FLASH_SIZE
    ensures Run(c, states) && Stands(Last(states), Finish) && Last(states).written
    ensures Keeps(Fresh(flash), Last(states))
  {
    hide Run, Stands, ImageInFlash, UpperKept;
    KeepsItself(c, flash);
    states := FreshOn(c, flash);
    states := OnToWritten(c, states);
    states := OnToLaunch(c, states);
    states := OnToVerify(c, states);
    states := OnToFinish(c, states);
  }

  lemma FailIsNext(c: Setup, s: State, t: State, step: Step)
    requires s.host.Running? && Fails(s, t, step)
    ensures NextBy(c, s, t, step)
  {}
}
