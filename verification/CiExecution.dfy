/**
 The CI command runner against cancellation: every interleaving of SIGINT and SIGTERM
 with installing the handlers, spawning, waiting, cleaning up, qualifying, persisting the
 receipt and restoring the handlers.
 */
module CiExecution {
  // ---------- The machine ----------

  /** For SIGINT and for SIGTERM, whether something holds of its handler. */
  datatype Handlers = Handlers(interrupt: bool, terminate: bool) {
    predicate Any() { interrupt || terminate }

    predicate Within(other: Handlers) { (interrupt ==> other.interrupt) && (terminate ==> other.terminate) }
  }

  /** What the program is about to do. */
  datatype Pc =
    | InstallInterrupt | RecordInterrupt           // signal.signal, then the dictionary entry
    | InstallTerminate | RecordTerminate
    | Prepare                                      // earlier evidence and the context are checked
    | OpenLog
    | MarkSpawning | Spawn | UnmarkSpawning | AfterSpawn
    | Wait                                         // exit, descendants and exit status
    | Caught                                       // the inner handler takes the error up
    | Cleanup                                      // kill and reap
    | CloseInner                                   // the inner finally marks closing
    | Flush                                        // flush and close the log
    | AfterLog | ReadLog | Qualify | BeforeAppend
    | FirstWrite | Recheck | SecondWrite | Finish
    | CloseOuter                                   // execute's finally marks closing
    | RestoreInterrupt | RestoreTerminate | Decide
    | Returned | Raised

  datatype Receipt = Absent | Passed | Failed

  /** `installed` are our handlers in place, `recorded` those execute knows to restore;
      `primary` is the error _execute carries to its end, `failure` the one execute saw;
      `receipt` is the outcome this run saved. The last two fields are history: the
      cancellation came after the recheck, and the rewriting of the receipt failed. */
  datatype State = State(
    pc: Pc, spawning: bool, closing: bool, interrupted: bool,
    installed: Handlers, recorded: Handlers,
    primary: bool, failure: bool, exitedZero: bool, qualified: bool, receipt: Receipt,
    restoreFailed: bool, late: bool, rewriteFailed: bool)

  /** Handlers are installed only when execute runs on the main thread. */
  function Start(mainThread: bool): State {
    State(if mainThread then InstallInterrupt else Prepare, false, false, false,
          Handlers(false, false), Handlers(false, false),
          false, false, false, false, Absent, false, false, false)
  }

  predicate Ended(s: State) { s.pc == Returned || s.pc == Raised }

  /** Where an exception raised at this point goes. One raised as execute's finally
      begins leaves at once, past the restoration. */
  function Unwound(s: State): State {
    match s.pc
    case MarkSpawning => s.(pc := Caught)
    case Spawn => s.(pc := Caught, spawning := false)
    case UnmarkSpawning => s.(pc := Caught, spawning := false)
    case AfterSpawn => s.(pc := Caught)
    case Wait => s.(pc := Caught)
    case Caught => s.(pc := CloseOuter, failure := true, closing := true)
    case CloseOuter => s.(pc := Raised, failure := true)
    case _ => s.(pc := CloseOuter, failure := true)
  }

  /** Only a recorded handler is put back; failing to is noted and the others still are. */
  function HandedBack(s: State, next: Pc, recorded: bool, left: Handlers, ok: bool): State {
    State(next, s.spawning, s.closing, s.interrupted, if recorded && ok then left else s.installed, s.recorded,
          s.primary, s.failure, s.exitedZero, s.qualified, s.receipt,
          s.restoreFailed || (recorded && !ok), s.late, s.rewriteFailed)
  }

  // The stretches of the program.

  predicate AtSetup(pc: Pc) {
    || pc == InstallInterrupt || pc == RecordInterrupt || pc == InstallTerminate || pc == RecordTerminate
    || pc == Prepare || pc == OpenLog || pc == MarkSpawning
  }

  predicate AtRun(pc: Pc) { pc == Spawn || pc == UnmarkSpawning || pc == AfterSpawn || pc == Wait || pc == Caught }

  predicate AtLog(pc: Pc) { pc == Cleanup || pc == CloseInner || pc == Flush || pc == AfterLog || pc == ReadLog }

  predicate AtReceipt(pc: Pc) { pc == Qualify || pc == BeforeAppend || pc == FirstWrite }

  predicate AtRecheck(pc: Pc) { pc == Recheck || pc == SecondWrite || pc == Finish }

  predicate AtEnd(pc: Pc) {
    || pc == CloseOuter || pc == RestoreInterrupt || pc == RestoreTerminate || pc == Decide
    || pc == Returned || pc == Raised
  }

  /** The handlers, then the checks before the child. */
  function SetUp(s: State, ok: bool): State {
    match s.pc
    case InstallInterrupt =>
      if ok then s.(installed := s.installed.(interrupt := true), pc := RecordInterrupt) else Unwound(s)
    case RecordInterrupt => s.(recorded := s.recorded.(interrupt := true), pc := InstallTerminate)
    case InstallTerminate =>
      if ok then s.(installed := s.installed.(terminate := true), pc := RecordTerminate) else Unwound(s)
    case RecordTerminate => s.(recorded := s.recorded.(terminate := true), pc := Prepare)
    case Prepare => if ok then s.(pc := OpenLog) else Unwound(s)
    case OpenLog => if ok then s.(pc := MarkSpawning) else Unwound(s)
    case MarkSpawning => s.(spawning := true, pc := Spawn)
    case _ => s
  }

  /** The child, and what takes up an error of it. */
  function RunChild(s: State, ok: bool): State {
    match s.pc
    case Spawn => if ok then s.(pc := UnmarkSpawning) else Unwound(s)
    case UnmarkSpawning => s.(spawning := false, pc := AfterSpawn)
    case AfterSpawn => if s.interrupted then Unwound(s) else s.(pc := Wait)
    case Wait => if ok then s.(exitedZero := true, pc := CloseInner) else Unwound(s)
    case Caught => s.(primary := true, closing := true, pc := Cleanup)
    case _ => s
  }

  /** Clean-up and the end of the log. */
  function CloseLog(s: State, ok: bool): State {
    match s.pc
    case Cleanup => s.(pc := CloseInner) // what fails here joins the primary error
    case CloseInner => s.(closing := true, pc := Flush)
    case Flush => if ok then s.(pc := AfterLog) else Unwound(s)
    case AfterLog => s.(primary := s.primary || s.interrupted, pc := ReadLog)
    case ReadLog => if ok then s.(pc := Qualify) else Unwound(s)
    case _ => s
  }

  /** Qualification and the first saving of the receipt. */
  function SaveReceipt(s: State, ok: bool): State {
    match s.pc
    case Qualify =>
      if s.primary then s.(pc := BeforeAppend)
      else if ok then s.(qualified := true, pc := BeforeAppend)
      else s.(primary := true, pc := BeforeAppend)
    case BeforeAppend => s.(primary := s.primary || s.interrupted, pc := FirstWrite)
    case FirstWrite => if ok then s.(receipt := if s.primary then Failed else Passed, pc := Recheck) else Unwound(s)
    case _ => s
  }

  /** A second look at the cancellation, and the error carried to the end. */
  function RecheckReceipt(s: State, ok: bool): State {
    match s.pc
    case Recheck => if !s.primary && s.interrupted then s.(primary := true, pc := SecondWrite) else s.(pc := Finish)
    case SecondWrite => if ok then s.(receipt := Failed, pc := Finish) else Unwound(s.(rewriteFailed := true))
    case Finish => if s.primary then Unwound(s) else s.(pc := CloseOuter)
    case _ => s
  }

  /** The finally of execute: the handlers go back. */
  function Conclude(s: State, ok: bool): State {
    match s.pc
    case CloseOuter => s.(closing := true, pc := RestoreInterrupt)
    case RestoreInterrupt =>
      HandedBack(s, RestoreTerminate, s.recorded.interrupt, s.installed.(interrupt := false), ok)
    case RestoreTerminate =>
      HandedBack(s, Decide, s.recorded.terminate, s.installed.(terminate := false), ok)
    case Decide => s.(pc := if s.failure || s.restoreFailed || s.interrupted then Raised else Returned)
    case _ => s
  }

  /** One step of the program; `ok` is whether the operation it performs succeeds. A run
      that has ended stays as it is. */
  function Ran(s: State, ok: bool): State {
    match s.pc
    case InstallInterrupt | RecordInterrupt | InstallTerminate | RecordTerminate |
         Prepare | OpenLog | MarkSpawning => SetUp(s, ok)
    case Spawn | UnmarkSpawning | AfterSpawn | Wait | Caught => RunChild(s, ok)
    case Cleanup | CloseInner | Flush | AfterLog | ReadLog => CloseLog(s, ok)
    case Qualify | BeforeAppend | FirstWrite => SaveReceipt(s, ok)
    case Recheck | SecondWrite | Finish => RecheckReceipt(s, ok)
    case CloseOuter | RestoreInterrupt | RestoreTerminate | Decide | Returned | Raised => Conclude(s, ok)
  }

  predicate Rechecked(pc: Pc) {
    match pc
    case SecondWrite => true
    case Finish => true
    case CloseOuter => true
    case RestoreInterrupt => true
    case RestoreTerminate => true
    case Decide => true
    case _ => false
  }

  /** What a signal notes about itself. */
  function Noted(s: State): State {
    s.(interrupted := true, late := s.receipt != Absent && Rechecked(s.pc))
  }

  /** A signal. With one of our handlers in place the first is remembered, and raises at
      once unless the child is being spawned or the run is closing. */
  function Signalled(s: State): State {
    if !s.installed.Any() || Ended(s) || s.interrupted then s
    else if s.spawning || s.closing then Noted(s)
    else Unwound(Noted(s))
  }

  datatype Step = Run(ok: bool) | Signal

  function After(s: State, step: Step): State {
    match step
    case Run(ok) => Ran(s, ok)
    case Signal => Signalled(s)
  }

  /** The state after these steps: every list of steps is one interleaving. */
  function Play(s: State, steps: seq<Step>): State
    decreases |steps|
  {
    if steps == [] then s else Play(After(s, steps[0]), steps[1..])
  }

  // ---------- The invariant ----------

  /** Nothing decided yet: no error carried, nothing closing, saved or given up. */
  predicate Undecided(s: State) {
    && !s.closing && !s.primary && !s.failure && s.receipt == Absent
    && !s.restoreFailed && !s.late && !s.rewriteFailed
  }

  /** From the inner clean-up to the end of _execute: nothing raises any more, and
      without an error the child has exited with status 0. */
  predicate Settled(s: State) {
    && s.closing && !s.spawning && !s.failure && s.installed == s.recorded
    && !s.restoreFailed && !s.rewriteFailed && (s.primary || s.exitedZero)
  }

  predicate Unsaved(s: State) {
    Settled(s) && s.receipt == Absent && !s.late
  }

  predicate Saved(s: State) {
    Settled(s) && (s.primary || s.qualified) && s.receipt == if s.primary then Failed else Passed
  }

  /** How _execute can have left things: without an error the receipt says passed and any
      cancellation came after the recheck; with one a receipt that still says passed is
      one that could not be rewritten. */
  predicate Outcome(s: State) {
    && !s.spawning
    && (s.receipt == Passed ==> s.exitedZero && s.qualified)
    && (!s.failure ==> s.receipt == Passed && !s.rewriteFailed && (s.interrupted ==> s.late))
    && (s.failure && s.receipt == Passed ==> s.rewriteFailed)
    && (s.rewriteFailed ==> s.receipt == Passed && s.interrupted && !s.late)
    && (s.late ==> s.interrupted && s.receipt != Absent)
  }

  /** A handler can escape the restoration only if a signal raised before it was recorded. */
  predicate Escaped(s: State) {
    !s.installed.Within(s.recorded) ==> s.failure && s.interrupted && s.receipt == Absent
  }

  /** _execute is left and no handler put back yet. */
  predicate Left(s: State) {
    && Outcome(s) && Escaped(s) && (s.closing || (s.failure && s.receipt == Absent)) && !s.restoreFailed
    && s.recorded.Within(s.installed)
  }

  /** The first handler is back unless that failed, the second not yet. */
  predicate HalfRestored(s: State) {
    && s.closing && (s.installed.interrupt && s.recorded.interrupt ==> s.restoreFailed)
    && (s.recorded.terminate ==> s.installed.terminate)
  }

  predicate Inv(s: State) {
    match s.pc
    case InstallInterrupt => Fresh(s, Handlers(false, false), Handlers(false, false))
    case RecordInterrupt => Fresh(s, Handlers(true, false), Handlers(false, false))
    case InstallTerminate => Fresh(s, Handlers(true, false), Handlers(true, false))
    case RecordTerminate => Fresh(s, Handlers(true, true), Handlers(true, false))
    case Prepare => Fresh(s, s.recorded, s.installed)
    case OpenLog => Fresh(s, s.recorded, s.installed)
    case MarkSpawning => Fresh(s, s.recorded, s.installed)
    case Spawn => Undecided(s) && s.spawning && s.installed == s.recorded
    case UnmarkSpawning => Undecided(s) && s.spawning && s.installed == s.recorded
    case AfterSpawn => Undecided(s) && !s.spawning && s.installed == s.recorded
    case Wait => Fresh(s, s.recorded, s.installed)
    case Caught => Undecided(s) && !s.spawning && s.installed == s.recorded
    case Cleanup => Unsaved(s) && s.primary
    case CloseInner =>
      if s.closing then Unsaved(s) && s.primary
      else Fresh(s, s.recorded, s.installed) && s.exitedZero
    case Flush => Unsaved(s)
    case AfterLog => Unsaved(s)
    case ReadLog => Unsaved(s)
    case Qualify => Unsaved(s)
    case BeforeAppend => Unsaved(s) && (s.primary || s.qualified)
    case FirstWrite => Unsaved(s) && (s.primary || s.qualified)
    case Recheck => Saved(s) && !s.late
    case SecondWrite =>
      Settled(s) && s.primary && s.exitedZero && s.qualified && s.interrupted && s.receipt == Passed && !s.late
    case Finish => Saved(s) && (s.late ==> s.interrupted) && (s.interrupted && !s.primary ==> s.late)
    case CloseOuter => Left(s)
    case RestoreInterrupt => Left(s) && s.closing
    case RestoreTerminate => Outcome(s) && Escaped(s) && HalfRestored(s)
    case Decide => Outcome(s) && Escaped(s) && s.closing && Restored(s)
    case Returned =>
      Outcome(s) && Escaped(s) && s.closing && Restored(s) && !s.interrupted && !s.failure && !s.restoreFailed
    case Raised =>
      && Outcome(s) && Escaped(s) && (s.interrupted || s.failure || s.restoreFailed)
      && if s.closing then Restored(s) else s.failure && s.interrupted && s.receipt == Absent
  }

  /** Before the child: nothing decided, no signal taken, and these handlers. */
  predicate Fresh(s: State, installed: Handlers, recorded: Handlers) {
    Undecided(s) && !s.spawning && !s.interrupted && s.installed == installed && s.recorded == recorded
  }

  /** Every recorded handler is back unless putting it back failed. */
  predicate Restored(s: State) {
    || s.restoreFailed
    || (!(s.installed.interrupt && s.recorded.interrupt) && !(s.installed.terminate && s.recorded.terminate))
  }

  // ---------- What a step keeps ----------

  /** The order of the points of the program. */
  function Rank(pc: Pc): nat {
    match pc
    case InstallInterrupt => 0
    case RecordInterrupt => 1
    case InstallTerminate => 2
    case RecordTerminate => 3
    case Prepare => 4
    case OpenLog => 5
    case MarkSpawning => 6
    case Spawn => 7
    case UnmarkSpawning => 8
    case AfterSpawn => 9
    case Wait => 10
    case Caught => 11
    case Cleanup => 12
    case CloseInner => 13
    case Flush => 14
    case AfterLog => 15
    case ReadLog => 16
    case Qualify => 17
    case BeforeAppend => 18
    case FirstWrite => 19
    case Recheck => 20
    case SecondWrite => 21
    case Finish => 22
    case CloseOuter => 23
    case RestoreInterrupt => 24
    case RestoreTerminate => 25
    case Decide => 26
    case Returned => 27
    case Raised => 27
  }

  /** A cancellation is never forgotten and is dated once; a saved receipt stays saved. */
  predicate Remembers(s: State, t: State) {
    && (s.interrupted ==> t.interrupted && t.late == s.late)
    && (s.receipt != Absent ==> t.receipt != Absent)
  }

  predicate Proceeds(s: State, t: State) {
    Remembers(s, t) && if Ended(s) then t == s else Rank(t.pc) > Rank(s.pc)
  }

  lemma PcIsSomewhere(pc: Pc)
    ensures AtSetup(pc) || AtRun(pc) || AtLog(pc) || AtReceipt(pc) || AtRecheck(pc) || AtEnd(pc)
  {}

  lemma RanIs(s: State, ok: bool)
    ensures AtSetup(s.pc) ==> Ran(s, ok) == SetUp(s, ok)
    ensures AtRun(s.pc) ==> Ran(s, ok) == RunChild(s, ok)
    ensures AtLog(s.pc) ==> Ran(s, ok) == CloseLog(s, ok)
    ensures AtReceipt(s.pc) ==> Ran(s, ok) == SaveReceipt(s, ok)
    ensures AtRecheck(s.pc) ==> Ran(s, ok) == RecheckReceipt(s, ok)
    ensures AtEnd(s.pc) ==> Ran(s, ok) == Conclude(s, ok)
  {
    hide SetUp, RunChild, CloseLog, SaveReceipt, RecheckReceipt, Conclude;
  }

  lemma StartInv(mainThread: bool)
    ensures Inv(Start(mainThread))
  {}

  lemma UndecidedLeaves(s: State)
    requires Undecided(s) && !s.spawning && s.installed == s.recorded
    ensures Left(s.(pc := CloseOuter, failure := true))
  {}

  lemma DeferredKeepsInv(s: State)
    requires Inv(s) && !s.interrupted && !Ended(s) && (s.spawning || s.closing)
    ensures Inv(Noted(s))
  {}

  predicate AtChild(pc: Pc) { pc == MarkSpawning || pc == AfterSpawn || pc == Wait }

  predicate AtEdge(pc: Pc) {
    || pc == InstallInterrupt || pc == InstallTerminate || pc == Prepare || pc == OpenLog || pc == CloseInner
  }

  predicate AtGap(pc: Pc) { pc == RecordInterrupt || pc == RecordTerminate || pc == Caught || pc == CloseOuter }

  /** A signal can raise at these points only. */
  lemma RaisesOnlyThere(s: State)
    requires Inv(s) && !Ended(s) && !s.spawning && !s.closing
    ensures AtChild(s.pc) || AtEdge(s.pc) || AtGap(s.pc)
  {}

  lemma RaisedAtChildKeepsInv(s: State)
    requires Inv(s) && !s.interrupted && !s.spawning && !s.closing && AtChild(s.pc)
    ensures Inv(Unwound(Noted(s)))
  {
    hide Outcome, Escaped, Restored, Left, Settled, Saved;
  }

  lemma RaisedAtEdgeKeepsInv(s: State)
    requires Inv(s) && !s.interrupted && !s.spawning && !s.closing && AtEdge(s.pc)
    ensures Inv(Unwound(Noted(s)))
  {
    hide Outcome, Escaped, Restored, Left, Settled, Saved;
    UndecidedLeaves(Noted(s));
    var t := Noted(s).(pc := CloseOuter, failure := true);
    assert Left(t) && Inv(t);
    assert Unwound(Noted(s)) == t;
  }

  lemma RaisedUnrecordedKeepsInv(s: State)
    requires Inv(s) && !s.interrupted && !s.spawning && !s.closing
    requires s.pc == RecordInterrupt || s.pc == RecordTerminate
    ensures Inv(Unwound(Noted(s)))
  {
    hide Settled, Saved, Restored;
  }

  lemma RaisedLeavingKeepsInv(s: State)
    requires Inv(s) && !s.interrupted && !s.spawning && !s.closing && (s.pc == Caught || s.pc == CloseOuter)
    ensures Inv(Unwound(Noted(s)))
  {
    hide Settled, Saved, Restored;
  }

  lemma RaisedAtGapKeepsInv(s: State)
    requires Inv(s) && !s.interrupted && !s.spawning && !s.closing && AtGap(s.pc)
    ensures Inv(Unwound(Noted(s)))
  {
    hide Inv, Unwound;
    if s.pc == Caught || s.pc == CloseOuter { RaisedLeavingKeepsInv(s); } else { RaisedUnrecordedKeepsInv(s); }
  }

  lemma SignalKeepsInv(s: State)
    requires Inv(s)
    ensures Inv(Signalled(s))
  {
    hide Inv, Unwound, Rechecked, AtChild, AtEdge, AtGap;
    if s.installed.Any() && !Ended(s) && !s.interrupted {
      if s.spawning || s.closing {
        DeferredKeepsInv(s);
      } else {
        RaisesOnlyThere(s);
        if AtChild(s.pc) {
          RaisedAtChildKeepsInv(s);
        } else if AtEdge(s.pc) {
          RaisedAtEdgeKeepsInv(s);
        } else {
          RaisedAtGapKeepsInv(s);
        }
      }
    }
  }

  lemma SignalKeepsPlace(s: State)
    requires Inv(s)
    ensures Remembers(s, Signalled(s)) && Rank(Signalled(s).pc) >= Rank(s.pc)
  {}

  lemma UnsavedLeaves(s: State)
    requires Unsaved(s)
    ensures Left(s.(pc := CloseOuter, failure := true))
  {}

  /** Leaving with a receipt: as saved, or as the failed rewriting left it. */
  lemma SavedLeaves(s: State, failure: bool, rewriteFailed: bool)
    requires Inv(s)
    requires
      || (s.pc == Finish && failure == s.primary && !rewriteFailed)
      || (s.pc == SecondWrite && failure && rewriteFailed)
    ensures Left(s.(pc := CloseOuter, failure := failure, rewriteFailed := rewriteFailed))
  {}

  lemma InstallKeepsInv(s: State, ok: bool)
    requires Inv(s) && (s.pc == InstallInterrupt || s.pc == RecordInterrupt || s.pc == InstallTerminate)
    ensures Inv(SetUp(s, ok)) && Proceeds(s, SetUp(s, ok))
  {
    hide Outcome, Escaped, Restored, Left;
    if s.installed == s.recorded { UndecidedLeaves(s); }
  }

  lemma PrepareKeepsInv(s: State, ok: bool)
    requires Inv(s) && (s.pc == RecordTerminate || s.pc == Prepare || s.pc == OpenLog || s.pc == MarkSpawning)
    ensures Inv(SetUp(s, ok)) && Proceeds(s, SetUp(s, ok))
  {
    hide Outcome, Escaped, Restored, Left;
    if s.installed == s.recorded { UndecidedLeaves(s); }
  }

  lemma SpawnKeepsInv(s: State, ok: bool)
    requires Inv(s) && (s.pc == Spawn || s.pc == UnmarkSpawning)
    ensures Inv(RunChild(s, ok)) && Proceeds(s, RunChild(s, ok))
  {
    hide Outcome, Escaped, Restored, Left;
  }

  lemma WaitKeepsInv(s: State, ok: bool)
    requires Inv(s) && (s.pc == AfterSpawn || s.pc == Wait || s.pc == Caught)
    ensures Inv(RunChild(s, ok)) && Proceeds(s, RunChild(s, ok))
  {
    hide Outcome, Escaped, Restored, Left;
  }

  lemma CleanupKeepsInv(s: State, ok: bool)
    requires Inv(s) && (s.pc == Cleanup || s.pc == CloseInner)
    ensures Inv(CloseLog(s, ok)) && Proceeds(s, CloseLog(s, ok))
  {
    hide Outcome, Escaped, Restored, Left;
  }

  lemma LogKeepsInv(s: State, ok: bool)
    requires Inv(s) && (s.pc == Flush || s.pc == AfterLog || s.pc == ReadLog)
    ensures Inv(CloseLog(s, ok)) && Proceeds(s, CloseLog(s, ok))
  {
    hide Outcome, Escaped, Restored, Left;
    if Unsaved(s) { UnsavedLeaves(s); }
  }

  lemma QualifyKeepsInv(s: State, ok: bool)
    requires Inv(s) && (s.pc == Qualify || s.pc == BeforeAppend)
    ensures Inv(SaveReceipt(s, ok)) && Proceeds(s, SaveReceipt(s, ok))
  {
    hide Outcome, Escaped, Restored, Left;
  }

  lemma FirstWriteKeepsInv(s: State, ok: bool)
    requires Inv(s) && s.pc == FirstWrite
    ensures Inv(SaveReceipt(s, ok)) && Proceeds(s, SaveReceipt(s, ok))
  {
    hide Outcome, Escaped, Restored, Left;
    if Unsaved(s) { UnsavedLeaves(s); }
  }

  lemma RecheckKeepsInv(s: State, ok: bool)
    requires Inv(s) && s.pc == Recheck
    ensures Inv(RecheckReceipt(s, ok)) && Proceeds(s, RecheckReceipt(s, ok))
  {
    hide Outcome, Escaped, Restored, Left;
  }

  lemma RewriteKeepsInv(s: State, ok: bool)
    requires Inv(s) && s.pc == SecondWrite
    ensures Inv(RecheckReceipt(s, ok)) && Proceeds(s, RecheckReceipt(s, ok))
  {
    hide Outcome, Escaped, Restored, Left;
    SavedLeaves(s, true, true);
  }

  lemma NotYetFailed(s: State)
    requires Inv(s) && s.pc == Finish
    ensures !s.failure && !s.rewriteFailed
  {}

  lemma FinishKeepsInv(s: State, ok: bool)
    requires Inv(s) && s.pc == Finish
    ensures Inv(RecheckReceipt(s, ok)) && Proceeds(s, RecheckReceipt(s, ok))
  {
    hide Outcome, Escaped, Restored, Left, Fresh, Undecided, Settled;
    SavedLeaves(s, s.primary, false);
    var t := s.(pc := CloseOuter, failure := s.primary, rewriteFailed := false);
    assert Left(t) && Inv(t) && Proceeds(s, t);
    assert RecheckReceipt(s, ok) == t by { NotYetFailed(s); }
  }

  lemma CloseOuterKeepsInv(s: State, ok: bool)
    requires Inv(s) && s.pc == CloseOuter
    ensures Inv(Conclude(s, ok)) && Proceeds(s, Conclude(s, ok))
  {
    hide Unwound;
  }

  lemma DecideKeepsInv(s: State, ok: bool)
    requires Inv(s) && (s.pc == Decide || Ended(s))
    ensures Inv(Conclude(s, ok)) && Proceeds(s, Conclude(s, ok))
  {
    hide Unwound;
  }

  /** What restoring the handlers changes has no part in the outcome. */
  lemma RestoringKeepsOutcome(s: State, t: State)
    requires t == s.(pc := t.pc, installed := t.installed, restoreFailed := t.restoreFailed)
    ensures Outcome(t) == Outcome(s) && Remembers(s, t)
    ensures t.installed.Within(s.installed) && Escaped(s) ==> Escaped(t)
  {}

  lemma FirstHandsBack(s: State, ok: bool)
    requires s.pc == RestoreInterrupt && s.closing && s.recorded.Within(s.installed)
    ensures
      var t := Conclude(s, ok);
      && t == s.(pc := RestoreTerminate, installed := t.installed, restoreFailed := t.restoreFailed)
      && t.installed.Within(s.installed) && HalfRestored(t)
  {}

  lemma LastHandsBack(s: State, ok: bool)
    requires s.pc == RestoreTerminate && HalfRestored(s)
    ensures
      var t := Conclude(s, ok);
      && t == s.(pc := Decide, installed := t.installed, restoreFailed := t.restoreFailed)
      && t.installed.Within(s.installed) && t.closing && Restored(t)
  {}

  lemma FirstRestoringKeepsInv(s: State, ok: bool)
    requires Inv(s) && s.pc == RestoreInterrupt
    ensures Inv(Conclude(s, ok)) && Proceeds(s, Conclude(s, ok))
  {
    hide Conclude, Outcome, Escaped, Restored, HalfRestored, Remembers, Settled, Fresh, Undecided;
    FirstHandsBack(s, ok);
    RestoringKeepsOutcome(s, Conclude(s, ok));
  }

  lemma LastRestoringKeepsInv(s: State, ok: bool)
    requires Inv(s) && s.pc == RestoreTerminate
    ensures Inv(Conclude(s, ok)) && Proceeds(s, Conclude(s, ok))
  {
    hide Conclude, Outcome, Escaped, Restored, HalfRestored, Remembers, Settled, Fresh, Undecided;
    LastHandsBack(s, ok);
    RestoringKeepsOutcome(s, Conclude(s, ok));
  }

  lemma SetUpKeepsInv(s: State, ok: bool)
    requires Inv(s) && AtSetup(s.pc)
    ensures Inv(SetUp(s, ok)) && Proceeds(s, SetUp(s, ok))
  {
    hide Inv, SetUp, Proceeds;
    if s.pc == InstallInterrupt || s.pc == RecordInterrupt || s.pc == InstallTerminate {
      InstallKeepsInv(s, ok);
    } else {
      PrepareKeepsInv(s, ok);
    }
  }

  lemma RunChildKeepsInv(s: State, ok: bool)
    requires Inv(s) && AtRun(s.pc)
    ensures Inv(RunChild(s, ok)) && Proceeds(s, RunChild(s, ok))
  {
    hide Inv, RunChild, Proceeds;
    if s.pc == Spawn || s.pc == UnmarkSpawning {
      SpawnKeepsInv(s, ok);
    } else {
      WaitKeepsInv(s, ok);
    }
  }

  lemma CloseLogKeepsInv(s: State, ok: bool)
    requires Inv(s) && AtLog(s.pc)
    ensures Inv(CloseLog(s, ok)) && Proceeds(s, CloseLog(s, ok))
  {
    hide Inv, CloseLog, Proceeds;
    if s.pc == Cleanup || s.pc == CloseInner {
      CleanupKeepsInv(s, ok);
    } else {
      LogKeepsInv(s, ok);
    }
  }

  lemma SaveReceiptKeepsInv(s: State, ok: bool)
    requires Inv(s) && AtReceipt(s.pc)
    ensures Inv(SaveReceipt(s, ok)) && Proceeds(s, SaveReceipt(s, ok))
  {
    hide Inv, SaveReceipt, Proceeds;
    if s.pc == FirstWrite {
      FirstWriteKeepsInv(s, ok);
    } else {
      QualifyKeepsInv(s, ok);
    }
  }

  lemma RecheckReceiptKeepsInv(s: State, ok: bool)
    requires Inv(s) && AtRecheck(s.pc)
    ensures Inv(RecheckReceipt(s, ok)) && Proceeds(s, RecheckReceipt(s, ok))
  {
    hide Inv, RecheckReceipt, Proceeds;
    if s.pc == Recheck {
      RecheckKeepsInv(s, ok);
    } else if s.pc == SecondWrite {
      RewriteKeepsInv(s, ok);
    } else {
      FinishKeepsInv(s, ok);
    }
  }

  lemma ConcludeKeepsInv(s: State, ok: bool)
    requires Inv(s) && AtEnd(s.pc)
    ensures Inv(Conclude(s, ok)) && Proceeds(s, Conclude(s, ok))
  {
    hide Inv, Conclude, Proceeds;
    if s.pc == CloseOuter {
      CloseOuterKeepsInv(s, ok);
    } else if s.pc == RestoreInterrupt {
      FirstRestoringKeepsInv(s, ok);
    } else if s.pc == RestoreTerminate {
      LastRestoringKeepsInv(s, ok);
    } else {
      DecideKeepsInv(s, ok);
    }
  }

  lemma RanKeepsInv(s: State, ok: bool)
    requires Inv(s)
    ensures Inv(Ran(s, ok)) && Proceeds(s, Ran(s, ok))
  {
    RanIs(s, ok);
    PcIsSomewhere(s.pc);
    hide *;
    if AtSetup(s.pc) {
      SetUpKeepsInv(s, ok);
    } else if AtRun(s.pc) {
      RunChildKeepsInv(s, ok);
    } else if AtLog(s.pc) {
      CloseLogKeepsInv(s, ok);
    } else if AtReceipt(s.pc) {
      SaveReceiptKeepsInv(s, ok);
    } else if AtRecheck(s.pc) {
      RecheckReceiptKeepsInv(s, ok);
    } else {
      ConcludeKeepsInv(s, ok);
    }
  }

  lemma AfterKeepsInv(s: State, step: Step)
    requires Inv(s)
    ensures Inv(After(s, step))
    ensures if step.Run? then Proceeds(s, After(s, step)) else Remembers(s, After(s, step))
    ensures Rank(After(s, step).pc) >= Rank(s.pc)
  {
    hide Inv, Ran, Signalled, Rank;
    match step
    case Signal =>
      SignalKeepsInv(s);
      SignalKeepsPlace(s);
    case Run(ok) =>
      RanKeepsInv(s, ok);
  }

  /** The invariant holds after every list of steps from a state that meets it. */
  lemma {:induction false} PlayKeepsInv(s: State, steps: seq<Step>)
    requires Inv(s)
    ensures Inv(Play(s, steps))
    decreases |steps|
  {
    hide Inv, After;
    if steps == [] {
    } else {
      AfterKeepsInv(s, steps[0]);
      PlayKeepsInv(After(s, steps[0]), steps[1..]);
    }
  }

  lemma RunKeepsInv(mainThread: bool, steps: seq<Step>)
    ensures Inv(Play(Start(mainThread), steps))
  {
    StartInv(mainThread);
    PlayKeepsInv(Start(mainThread), steps);
  }

  lemma {:induction false} PlayConcat(s: State, a: seq<Step>, b: seq<Step>)
    ensures Play(s, a + b) == Play(Play(s, a), b)
    decreases |a|
  {
    hide After;
    if a == [] {
      assert a + b == b;
    } else {
      assert (a + b)[0] == a[0] && (a + b)[1..] == a[1..] + b;
      PlayConcat(After(s, a[0]), a[1..], b);
    }
  }

  lemma {:induction false} PlayRemembers(s: State, steps: seq<Step>)
    requires Inv(s)
    ensures Remembers(s, Play(s, steps))
    decreases |steps|
  {
    hide Inv, After;
    if steps == [] {
    } else {
      AfterKeepsInv(s, steps[0]);
      PlayRemembers(After(s, steps[0]), steps[1..]);
    }
  }

  // ---------- What every run promises ----------

  /** A run in which our handlers took a cancellation, at any point, never returns
      normally. */
  lemma CancelledNeverReturns(mainThread: bool, before: seq<Step>, after: seq<Step>)
    requires Play(Start(mainThread), before).interrupted
    ensures Play(Start(mainThread), before + after).pc != Returned
  {
    hide Play, Start;
    PlayConcat(Start(mainThread), before, after);
    RunKeepsInv(mainThread, before);
    PlayRemembers(Play(Start(mainThread), before), after);
    RunKeepsInv(mainThread, before + after);
  }

  /** A normal return means the child exited with 0, its evidence qualified, the receipt
      says passed and both handlers are back. */
  lemma ReturnedMeansPassed(mainThread: bool, steps: seq<Step>)
    requires Play(Start(mainThread), steps).pc == Returned
    ensures
      var t := Play(Start(mainThread), steps);
      !t.interrupted && t.exitedZero && t.qualified && t.receipt == Passed && !t.installed.Any()
  {
    hide Play, Start;
    RunKeepsInv(mainThread, steps);
  }

  /** The receipt of a cancelled run says passed exactly when it could not be rewritten or
      the cancellation came after the recheck of a run that had otherwise succeeded. */
  lemma CancelledReceipt(mainThread: bool, steps: seq<Step>)
    requires Ended(Play(Start(mainThread), steps)) && Play(Start(mainThread), steps).interrupted
    ensures
      var t := Play(Start(mainThread), steps);
      t.receipt == Passed <==> t.rewriteFailed || (t.late && !t.failure)
  {
    hide Play, Start;
    RunKeepsInv(mainThread, steps);
  }

  /** A cancellation noted by the time the saved receipt is rechecked: the receipt ends as
      failed unless that second write fails. */
  lemma RewrittenAsFailed(mainThread: bool, before: seq<Step>, after: seq<Step>)
    requires Play(Start(mainThread), before).pc == Recheck && Play(Start(mainThread), before).interrupted
    requires Ended(Play(Start(mainThread), before + after))
    ensures
      var t := Play(Start(mainThread), before + after);
      t.pc == Raised && t.receipt == if t.rewriteFailed then Passed else Failed
  {
    hide Play, Start;
    PlayConcat(Start(mainThread), before, after);
    RunKeepsInv(mainThread, before);
    PlayRemembers(Play(Start(mainThread), before), after);
    RunKeepsInv(mainThread, before + after);
  }

  // ---------- Which handlers stay ----------

  /** A signal that one of our handlers takes and that raises at once. */
  predicate RaisesAt(s: State) {
    s.installed.Any() && !Ended(s) && !s.interrupted && !s.spawning && !s.closing
  }

  /** The steps that lose a handler: a signal that raises between its installation and its
      record, or as execute's finally begins; and a restoration that fails. */
  predicate Loses(s: State, step: Step) {
    match step
    case Signal => RaisesAt(s) && (s.pc == RecordInterrupt || s.pc == RecordTerminate || s.pc == CloseOuter)
    case Run(ok) =>
      || (!ok && s.pc == RestoreInterrupt && s.recorded.interrupt)
      || (!ok && s.pc == RestoreTerminate && s.recorded.terminate)
  }

  predicate LosesSome(s: State, steps: seq<Step>)
    decreases |steps|
  {
    steps != [] && (Loses(s, steps[0]) || LosesSome(After(s, steps[0]), steps[1..]))
  }

  /** A handler that no further step puts back. */
  predicate Lost(s: State) {
    match s.pc
    case CloseOuter => !s.installed.Within(s.recorded)
    case RestoreInterrupt => !s.installed.Within(s.recorded)
    case RestoreTerminate => !s.installed.Within(s.recorded) || (s.installed.interrupt && s.recorded.interrupt)
    case Decide => s.installed.Any()
    case Returned => s.installed.Any()
    case Raised => s.installed.Any()
    case _ => false
  }

  lemma SetUpLosesNone(s: State, ok: bool)
    requires Inv(s) && AtSetup(s.pc)
    ensures !Lost(s) && !Lost(SetUp(s, ok)) && !Loses(s, Run(ok))
  {
    hide Outcome, Escaped, Restored;
  }

  lemma RunChildLosesNone(s: State, ok: bool)
    requires Inv(s) && AtRun(s.pc)
    ensures !Lost(s) && !Lost(RunChild(s, ok)) && !Loses(s, Run(ok))
  {
    hide Outcome, Escaped, Restored;
  }

  lemma CloseLogLosesNone(s: State, ok: bool)
    requires Inv(s) && AtLog(s.pc)
    ensures !Lost(s) && !Lost(CloseLog(s, ok)) && !Loses(s, Run(ok))
  {
    hide Outcome, Escaped, Restored;
  }

  lemma SaveReceiptLosesNone(s: State, ok: bool)
    requires Inv(s) && AtReceipt(s.pc)
    ensures !Lost(s) && !Lost(SaveReceipt(s, ok)) && !Loses(s, Run(ok))
  {
    hide Outcome, Escaped, Restored;
  }

  lemma RecheckReceiptLosesNone(s: State, ok: bool)
    requires Inv(s) && AtRecheck(s.pc)
    ensures !Lost(s) && !Lost(RecheckReceipt(s, ok)) && !Loses(s, Run(ok))
  {
    hide Outcome, Escaped, Restored;
  }

  lemma CloseOuterLoses(s: State, ok: bool)
    requires Inv(s) && (s.pc == CloseOuter || s.pc == Decide || Ended(s))
    ensures Lost(Conclude(s, ok)) <==> Lost(s) || Loses(s, Run(ok))
  {
    hide Outcome, Escaped, Unwound;
  }

  lemma FirstRestoringLoses(s: State, ok: bool)
    requires Inv(s) && s.pc == RestoreInterrupt
    ensures Lost(Conclude(s, ok)) <==> Lost(s) || Loses(s, Run(ok))
  {
    hide Outcome, Escaped, Unwound;
  }

  lemma LastRestoringLoses(s: State, ok: bool)
    requires Inv(s) && s.pc == RestoreTerminate
    ensures Lost(Conclude(s, ok)) <==> Lost(s) || Loses(s, Run(ok))
  {
    hide Outcome, Escaped, Unwound;
  }

  lemma ConcludeLoses(s: State, ok: bool)
    requires Inv(s) && AtEnd(s.pc)
    ensures Lost(Conclude(s, ok)) <==> Lost(s) || Loses(s, Run(ok))
  {
    hide Inv, Conclude, Lost, Loses;
    if s.pc == RestoreInterrupt {
      FirstRestoringLoses(s, ok);
    } else if s.pc == RestoreTerminate {
      LastRestoringLoses(s, ok);
    } else {
      CloseOuterLoses(s, ok);
    }
  }

  /** Where a signal raises, what it loses shows at once. */
  lemma RaisingAtGapLoses(s: State)
    requires Inv(s) && RaisesAt(s) && AtGap(s.pc)
    ensures Lost(Unwound(Noted(s))) <==> Lost(s) || Loses(s, Signal)
  {
    hide Outcome, Escaped, Restored, Saved, Settled;
  }

  lemma RaisingElsewhereLosesNone(s: State)
    requires Inv(s) && RaisesAt(s) && (AtChild(s.pc) || AtEdge(s.pc))
    ensures !Lost(Unwound(Noted(s))) && !Lost(s) && !Loses(s, Signal)
  {
    hide Outcome, Escaped, Restored, Saved, Settled;
  }

  lemma SignalLoses(s: State)
    requires Inv(s)
    ensures Lost(Signalled(s)) <==> Lost(s) || Loses(s, Signal)
  {
    hide Inv, Unwound, Rechecked;
    if RaisesAt(s) {
      RaisesOnlyThere(s);
      if AtGap(s.pc) { RaisingAtGapLoses(s); } else { RaisingElsewhereLosesNone(s); }
    }
  }

  lemma RanLoses(s: State, ok: bool)
    requires Inv(s)
    ensures Lost(Ran(s, ok)) <==> Lost(s) || Loses(s, Run(ok))
  {
    RanIs(s, ok);
    PcIsSomewhere(s.pc);
    hide *;
    if AtSetup(s.pc) {
      SetUpLosesNone(s, ok);
    } else if AtRun(s.pc) {
      RunChildLosesNone(s, ok);
    } else if AtLog(s.pc) {
      CloseLogLosesNone(s, ok);
    } else if AtReceipt(s.pc) {
      SaveReceiptLosesNone(s, ok);
    } else if AtRecheck(s.pc) {
      RecheckReceiptLosesNone(s, ok);
    } else {
      ConcludeLoses(s, ok);
    }
  }

  /** A step loses a handler for good exactly when it is one of those steps. */
  lemma AfterLoses(s: State, step: Step)
    requires Inv(s)
    ensures Lost(After(s, step)) <==> Lost(s) || Loses(s, step)
  {
    hide Inv, Ran, Signalled, Lost, Loses;
    match step
    case Signal => SignalLoses(s);
    case Run(ok) => RanLoses(s, ok);
  }

  lemma {:induction false} PlayLoses(s: State, steps: seq<Step>)
    requires Inv(s)
    ensures Lost(Play(s, steps)) <==> Lost(s) || LosesSome(s, steps)
    decreases |steps|
  {
    hide Inv, After, Lost, Loses;
    if steps == [] {
    } else {
      AfterLoses(s, steps[0]);
      AfterKeepsInv(s, steps[0]);
      PlayLoses(After(s, steps[0]), steps[1..]);
    }
  }

  /** A handler of ours outlives the run exactly when some step of the interleaving lost
      it. Then the run raises, and it has saved no receipt unless a restoration failed. */
  lemma HandlersPutBack(mainThread: bool, steps: seq<Step>)
    requires Ended(Play(Start(mainThread), steps))
    ensures
      var t := Play(Start(mainThread), steps);
      && (t.installed.Any() <==> LosesSome(Start(mainThread), steps))
      && (t.installed.Any() ==> t.pc == Raised && (t.restoreFailed || (t.interrupted && t.receipt == Absent)))
  {
    hide Play, LosesSome;
    StartInv(mainThread);
    PlayLoses(Start(mainThread), steps);
    RunKeepsInv(mainThread, steps);
  }

  // ---------- Exactly which runs return, and which receipts say passed ----------

  /** The operation performed here can fail; a handler that is not recorded is not put back. */
  predicate Fallible(s: State) {
    || Essential(s.pc) || s.pc == SecondWrite
    || (s.pc == RestoreInterrupt && s.recorded.interrupt) || (s.pc == RestoreTerminate && s.recorded.terminate)
  }

  /** The operations that a run cannot do without. */
  predicate Essential(pc: Pc) {
    match pc
    case InstallInterrupt | InstallTerminate | Prepare | OpenLog | Spawn | Wait
      | Flush | ReadLog | Qualify | FirstWrite => true
    case _ => false
  }

  /** A signal that one of our handlers takes, or an operation that fails. */
  predicate Disturbs(s: State, step: Step) {
    match step
    case Signal => s.installed.Any() && !Ended(s)
    case Run(ok) => !ok && Fallible(s)
  }

  predicate Disturbed(s: State, steps: seq<Step>)
    decreases |steps|
  {
    steps != [] && (Disturbs(s, steps[0]) || Disturbed(After(s, steps[0]), steps[1..]))
  }

  /** What keeps the receipt from saying passed: a disturbance before the receipt is written,
      failing to write it, and rewriting it. A signal as it is written does not. */
  predicate Unpasses(s: State, step: Step) {
    match step
    case Signal => Disturbs(s, step) && Rank(s.pc) < Rank(FirstWrite)
    case Run(ok) => if s.pc == SecondWrite then ok else Disturbs(s, step) && Rank(s.pc) <= Rank(FirstWrite)
  }

  predicate UnpassesSome(s: State, steps: seq<Step>)
    decreases |steps|
  {
    steps != [] && (Unpasses(s, steps[0]) || UnpassesSome(After(s, steps[0]), steps[1..]))
  }

  /** The run will raise. */
  predicate Spoiled(s: State) {
    s.interrupted || s.failure || s.restoreFailed || s.pc == Caught || (s.primary && !AtEnd(s.pc))
  }

  /** The receipt will not say passed. */
  predicate Unpassing(s: State) {
    match s.pc
    case FirstWrite => s.primary
    case SecondWrite => false
    case Recheck | Finish | CloseOuter | RestoreInterrupt | RestoreTerminate | Decide | Returned | Raised =>
      s.receipt != Passed
    case _ => Spoiled(s)
  }

  /** Step by step, exactly the disturbances spoil the run. */
  predicate Tells(s: State, t: State, step: Step) {
    && (Spoiled(t) <==> Spoiled(s) || Disturbs(s, step))
    && (Unpassing(t) <==> Unpassing(s) || Unpasses(s, step))
    && (!Unpassing(t) ==> PassesOnlyBy(s, t, step))
  }

  /** No essential operation is passed over without being performed. */
  predicate PassesOnlyBy(s: State, t: State, step: Step) {
    forall pc: Pc :: Essential(pc) && Rank(s.pc) <= Rank(pc) < Rank(t.pc) ==> s.pc == pc && step == Run(true)
  }

  lemma InstallTells(s: State, ok: bool)
    requires Inv(s) && (s.pc == InstallInterrupt || s.pc == RecordInterrupt || s.pc == InstallTerminate)
    ensures Tells(s, SetUp(s, ok), Run(ok))
  {
    hide Outcome, Escaped, Restored, Left;
  }

  lemma PrepareTells(s: State, ok: bool)
    requires Inv(s) && (s.pc == Prepare || s.pc == OpenLog)
    ensures Tells(s, SetUp(s, ok), Run(ok))
  {
    hide Outcome, Escaped, Restored, Left;
  }

  lemma MarkTells(s: State, ok: bool)
    requires Inv(s) && (s.pc == RecordTerminate || s.pc == MarkSpawning)
    ensures Tells(s, SetUp(s, ok), Run(ok))
  {
    hide Outcome, Escaped, Restored, Left;
  }

  lemma SetUpTells(s: State, ok: bool)
    requires Inv(s) && AtSetup(s.pc)
    ensures Tells(s, SetUp(s, ok), Run(ok))
  {
    hide Inv, SetUp, Tells;
    if s.pc == InstallInterrupt || s.pc == RecordInterrupt || s.pc == InstallTerminate {
      InstallTells(s, ok);
    } else if s.pc == RecordTerminate || s.pc == MarkSpawning {
      MarkTells(s, ok);
    } else {
      PrepareTells(s, ok);
    }
  }

  lemma SpawnTells(s: State, ok: bool)
    requires Inv(s) && (s.pc == Spawn || s.pc == UnmarkSpawning)
    ensures Tells(s, RunChild(s, ok), Run(ok))
  {
    hide Outcome, Escaped, Restored, Left;
  }

  lemma WaitTells(s: State, ok: bool)
    requires Inv(s) && (s.pc == AfterSpawn || s.pc == Wait || s.pc == Caught)
    ensures Tells(s, RunChild(s, ok), Run(ok))
  {
    hide Outcome, Escaped, Restored, Left;
  }

  lemma RunChildTells(s: State, ok: bool)
    requires Inv(s) && AtRun(s.pc)
    ensures Tells(s, RunChild(s, ok), Run(ok))
  {
    hide Inv, RunChild, Tells;
    if s.pc == Spawn || s.pc == UnmarkSpawning {
      SpawnTells(s, ok);
    } else {
      WaitTells(s, ok);
    }
  }

  lemma CleanupTells(s: State, ok: bool)
    requires Inv(s) && (s.pc == Cleanup || s.pc == CloseInner)
    ensures Tells(s, CloseLog(s, ok), Run(ok))
  {
    hide Outcome, Escaped, Restored, Left;
  }

  lemma LogTells(s: State, ok: bool)
    requires Inv(s) && (s.pc == Flush || s.pc == AfterLog || s.pc == ReadLog)
    ensures Tells(s, CloseLog(s, ok), Run(ok))
  {
    hide Outcome, Escaped, Restored, Left;
  }

  lemma CloseLogTells(s: State, ok: bool)
    requires Inv(s) && AtLog(s.pc)
    ensures Tells(s, CloseLog(s, ok), Run(ok))
  {
    hide Inv, CloseLog, Tells;
    if s.pc == Cleanup || s.pc == CloseInner {
      CleanupTells(s, ok);
    } else {
      LogTells(s, ok);
    }
  }

  lemma SaveReceiptTells(s: State, ok: bool)
    requires Inv(s) && AtReceipt(s.pc)
    ensures Tells(s, SaveReceipt(s, ok), Run(ok))
  {
    hide Outcome, Escaped, Restored, Left;
  }

  lemma RecheckReceiptTells(s: State, ok: bool)
    requires Inv(s) && AtRecheck(s.pc)
    ensures Tells(s, RecheckReceipt(s, ok), Run(ok))
  {
    hide Outcome, Escaped, Restored, Left;
  }

  lemma RestoringTells(s: State, ok: bool, next: Pc, recorded: bool, left: Handlers)
    requires
      || (s.pc == RestoreInterrupt && next == RestoreTerminate && recorded == s.recorded.interrupt)
      || (s.pc == RestoreTerminate && next == Decide && recorded == s.recorded.terminate)
    ensures Tells(s, HandedBack(s, next, recorded, left, ok), Run(ok))
  {
    LatePassesNothing(s, HandedBack(s, next, recorded, left, ok), Run(ok));
    hide PassesOnlyBy, Rank;
  }

  /** All essential operations come before the recheck. */
  lemma LatePassesNothing(s: State, t: State, step: Step)
    requires Rank(s.pc) > Rank(FirstWrite)
    ensures PassesOnlyBy(s, t, step)
  {
    forall pc: Pc | Essential(pc) && Rank(s.pc) <= Rank(pc) < Rank(t.pc) ensures false { EssentialIsEarly(pc); }
  }

  lemma EssentialIsEarly(pc: Pc)
    ensures Essential(pc) ==> Rank(pc) <= Rank(FirstWrite)
  {}

  lemma ClosingTells(s: State, t: State, ok: bool)
    requires s.pc == CloseOuter && t == s.(closing := true, pc := RestoreInterrupt)
    ensures Tells(s, t, Run(ok))
  {
    LatePassesNothing(s, t, Run(ok));
    hide PassesOnlyBy, Rank;
  }

  lemma DecideTells(s: State, t: State, ok: bool)
    requires s.pc == Decide && (t == s.(pc := Raised) || t == s.(pc := Returned))
    ensures Tells(s, t, Run(ok))
  {
    LatePassesNothing(s, t, Run(ok));
    hide PassesOnlyBy, Rank;
  }

  lemma ConcludeTells(s: State, ok: bool)
    requires AtEnd(s.pc)
    ensures Tells(s, Conclude(s, ok), Run(ok))
  {
    hide Tells, HandedBack;
    match s.pc
    case CloseOuter => ClosingTells(s, s.(closing := true, pc := RestoreInterrupt), ok);
    case RestoreInterrupt =>
      RestoringTells(s, ok, RestoreTerminate, s.recorded.interrupt, s.installed.(interrupt := false));
    case RestoreTerminate =>
      RestoringTells(s, ok, Decide, s.recorded.terminate, s.installed.(terminate := false));
    case Decide =>
      DecideTells(s, s.(pc := if s.failure || s.restoreFailed || s.interrupted then Raised else Returned), ok);
    case Returned => EndedTells(s, ok);
    case Raised => EndedTells(s, ok);
  }

  lemma EndedTells(s: State, ok: bool)
    requires Ended(s)
    ensures Tells(s, s, Run(ok))
  {
    LatePassesNothing(s, s, Run(ok));
    hide PassesOnlyBy, Rank;
  }

  lemma RanTells(s: State, ok: bool)
    requires Inv(s)
    ensures Tells(s, Ran(s, ok), Run(ok))
  {
    RanIs(s, ok);
    PcIsSomewhere(s.pc);
    hide *;
    if AtSetup(s.pc) {
      SetUpTells(s, ok);
    } else if AtRun(s.pc) {
      RunChildTells(s, ok);
    } else if AtLog(s.pc) {
      CloseLogTells(s, ok);
    } else if AtReceipt(s.pc) {
      SaveReceiptTells(s, ok);
    } else if AtRecheck(s.pc) {
      RecheckReceiptTells(s, ok);
    } else {
      ConcludeTells(s, ok);
    }
  }

  lemma DeferredTells(s: State)
    requires s.installed.Any() && !Ended(s) && !s.interrupted
    ensures Tells(s, Noted(s), Signal)
  {
    hide Rechecked;
  }

  lemma RepeatedTells(s: State)
    requires Inv(s) && s.interrupted
    ensures Tells(s, s, Signal)
  {
    hide Outcome, Escaped, Restored;
  }

  lemma RaisedTells(s: State)
    requires Inv(s) && RaisesAt(s) && (AtChild(s.pc) || AtEdge(s.pc))
    ensures Tells(s, Unwound(Noted(s)), Signal)
  {
    hide Escaped, Restored, Saved, PassesOnlyBy;
  }

  lemma RaisedAtGapTells(s: State)
    requires Inv(s) && RaisesAt(s) && AtGap(s.pc)
    ensures Tells(s, Unwound(Noted(s)), Signal)
  {
    hide Escaped, Restored, Saved, PassesOnlyBy;
  }

  lemma UntakenTells(s: State)
    requires !s.installed.Any() || Ended(s)
    ensures Tells(s, s, Signal)
  {}

  lemma SignalTells(s: State)
    requires Inv(s)
    ensures Tells(s, Signalled(s), Signal)
  {
    hide Inv, Tells, Unwound, Noted, AtChild, AtEdge, AtGap;
    if !s.installed.Any() || Ended(s) {
      UntakenTells(s);
    } else if RaisesAt(s) {
      RaisesOnlyThere(s);
      if AtGap(s.pc) { RaisedAtGapTells(s); } else { RaisedTells(s); }
    } else if s.interrupted {
      RepeatedTells(s);
    } else {
      DeferredTells(s);
    }
  }

  lemma AfterTells(s: State, step: Step)
    requires Inv(s)
    ensures Tells(s, After(s, step), step)
  {
    hide Inv, Ran, Signalled, Tells;
    match step
    case Signal => SignalTells(s);
    case Run(ok) => RanTells(s, ok);
  }

  lemma {:induction false} PlayTells(s: State, steps: seq<Step>)
    requires Inv(s)
    ensures Spoiled(Play(s, steps)) <==> Spoiled(s) || Disturbed(s, steps)
    ensures Unpassing(Play(s, steps)) <==> Unpassing(s) || UnpassesSome(s, steps)
    decreases |steps|
  {
    hide Inv, After, Spoiled, Unpassing, Disturbs, Unpasses, PassesOnlyBy;
    if steps == [] {
    } else {
      AfterTells(s, steps[0]);
      AfterKeepsInv(s, steps[0]);
      PlayTells(After(s, steps[0]), steps[1..]);
    }
  }

  /** A run returns normally exactly when no handler of ours took a signal and no operation
      of it failed. */
  lemma ReturnsExactly(mainThread: bool, steps: seq<Step>)
    requires Ended(Play(Start(mainThread), steps))
    ensures Play(Start(mainThread), steps).pc == Returned <==> !Disturbed(Start(mainThread), steps)
  {
    hide Play, Disturbed;
    StartInv(mainThread);
    PlayTells(Start(mainThread), steps);
    RunKeepsInv(mainThread, steps);
  }

  /** The receipt of an ended run says passed exactly when nothing disturbed the run before it
      was written, it was written, and it was not rewritten. */
  lemma PassedExactly(mainThread: bool, steps: seq<Step>)
    requires Ended(Play(Start(mainThread), steps))
    ensures Play(Start(mainThread), steps).receipt == Passed <==> !UnpassesSome(Start(mainThread), steps)
  {
    hide Play, UnpassesSome;
    StartInv(mainThread);
    PlayTells(Start(mainThread), steps);
  }

  /** The interleaving performs the operation at this point, and it succeeds. */
  predicate Performs(s: State, steps: seq<Step>, pc: Pc)
    decreases |steps|
  {
    steps != [] && ((s.pc == pc && steps[0] == Run(true)) || Performs(After(s, steps[0]), steps[1..], pc))
  }

  lemma {:induction false} PlayPerforms(s: State, steps: seq<Step>, pc: Pc)
    requires Inv(s) && Essential(pc) && Rank(s.pc) <= Rank(pc) < Rank(Play(s, steps).pc) && !Unpassing(Play(s, steps))
    ensures Performs(s, steps, pc)
    decreases |steps|
  {
    hide Inv, After, Unpassing, Essential, Rank, Unpasses, Disturbs, Spoiled;
    if steps == [] {
    } else {
      var t := After(s, steps[0]);
      AfterTells(s, steps[0]);
      AfterKeepsInv(s, steps[0]);
      PlayTells(t, steps[1..]);
      if Rank(t.pc) <= Rank(pc) { PlayPerforms(t, steps[1..], pc); }
    }
  }

  /** Behind a receipt that says passed, and so behind every normal return, every essential
      operation was performed and succeeded: among them waiting for the child's exit status
      and qualifying its evidence, and on the main thread installing both handlers. */
  lemma PassedMeansPerformed(mainThread: bool, steps: seq<Step>, pc: Pc)
    requires var t := Play(Start(mainThread), steps); Ended(t) && (t.receipt == Passed || t.pc == Returned)
    requires Essential(pc) && (mainThread || (pc != InstallInterrupt && pc != InstallTerminate))
    ensures Performs(Start(mainThread), steps, pc)
  {
    hide Play, Performs;
    StartInv(mainThread);
    RunKeepsInv(mainThread, steps);
    assert !Unpassing(Play(Start(mainThread), steps));
    assert Rank(Start(mainThread).pc) <= Rank(pc) < 27;
    PlayPerforms(Start(mainThread), steps, pc);
  }

  // ---------- Every run ends ----------

  function RunsIn(steps: seq<Step>): nat {
    if steps == [] then 0 else (if steps[0].Run? then 1 else 0) + RunsIn(steps[1..])
  }

  lemma RankOfEnd(pc: Pc)
    ensures Rank(pc) <= 27 && (Rank(pc) == 27 <==> pc == Returned || pc == Raised)
  {}

  /** No signals, however many, keep the program from ending after 27 steps of its own. */
  lemma {:induction false} AlwaysEnds(s: State, steps: seq<Step>)
    requires Inv(s) && Rank(s.pc) + RunsIn(steps) >= 27
    ensures Ended(Play(s, steps))
    decreases |steps|
  {
    hide Inv, After, Rank;
    RankOfEnd(s.pc);
    if steps == [] {
    } else {
      AfterKeepsInv(s, steps[0]);
      AlwaysEnds(After(s, steps[0]), steps[1..]);
    }
  }

  // ---------- Two runs that show the limits ----------

  lemma Onward(s: State, steps: seq<Step>, step: Step)
    ensures Play(s, steps + [step]) == After(Play(s, steps), step)
  {
    hide After;
    PlayConcat(s, steps, [step]);
    assert [step][1..] == [];
    assert Play(Play(s, steps), [step]) == After(Play(s, steps), step);
  }

  /** This many steps of the program that all succeed. */
  function Clear(n: nat): (steps: seq<Step>)
    ensures |steps| == n && forall i :: 0 <= i < n ==> steps[i] == Run(true)
  {
    if n == 0 then [] else [Run(true)] + Clear(n - 1)
  }

  lemma ClearNothing(s: State)
    ensures Play(s, Clear(0)) == s
  {}

  lemma ClearStep(s: State, t: State, n: nat)
    requires n > 0 && Ran(s, true) == t
    ensures Play(s, Clear(n)) == Play(t, Clear(n - 1))
  {
    hide Ran;
    assert Clear(n)[1..] == Clear(n - 1);
  }

  /** A run on the main thread without errors or signals so far. */
  function Undisturbed(pc: Pc, spawning: bool, closing: bool, exitedZero: bool, qualified: bool,
      receipt: Receipt): State
  {
    State(pc, spawning, closing, false, Handlers(true, true), Handlers(true, true),
          false, false, exitedZero, qualified, receipt, false, false, false)
  }

  /** The same run after a cancellation that came once its receipt had been rechecked. */
  function Late(pc: Pc, installed: Handlers): State {
    State(pc, false, true, true, installed, Handlers(true, true),
          false, false, true, true, Passed, false, true, false)
  }

  lemma ClearSetup(n: nat)
    ensures Play(Start(true), Clear(n + 4))
            == Play(Undisturbed(Prepare, false, false, false, false, Absent), Clear(n))
  {
    hide Play, Clear, Unwound;
    var s1 := Start(true).(pc := RecordInterrupt, installed := Handlers(true, false));
    ClearStep(Start(true), s1, n + 4);
    var s2 := s1.(pc := InstallTerminate, recorded := Handlers(true, false));
    ClearStep(s1, s2, n + 3);
    var s3 := s2.(pc := RecordTerminate, installed := Handlers(true, true));
    ClearStep(s2, s3, n + 2);
    ClearStep(s3, Undisturbed(Prepare, false, false, false, false, Absent), n + 1);
  }

  lemma ClearSpawn(n: nat)
    ensures Play(Undisturbed(Prepare, false, false, false, false, Absent), Clear(n + 4))
            == Play(Undisturbed(UnmarkSpawning, true, false, false, false, Absent), Clear(n))
  {
    hide Play, Clear, Unwound;
    ClearStep(Undisturbed(Prepare, false, false, false, false, Absent),
              Undisturbed(OpenLog, false, false, false, false, Absent), n + 4);
    ClearStep(Undisturbed(OpenLog, false, false, false, false, Absent),
              Undisturbed(MarkSpawning, false, false, false, false, Absent), n + 3);
    ClearStep(Undisturbed(MarkSpawning, false, false, false, false, Absent),
              Undisturbed(Spawn, true, false, false, false, Absent), n + 2);
    ClearStep(Undisturbed(Spawn, true, false, false, false, Absent),
              Undisturbed(UnmarkSpawning, true, false, false, false, Absent), n + 1);
  }

  lemma ClearChild(n: nat)
    ensures Play(Undisturbed(UnmarkSpawning, true, false, false, false, Absent), Clear(n + 3))
            == Play(Undisturbed(CloseInner, false, false, true, false, Absent), Clear(n))
  {
    hide Play, Clear, Unwound;
    ClearStep(Undisturbed(UnmarkSpawning, true, false, false, false, Absent),
              Undisturbed(AfterSpawn, false, false, false, false, Absent), n + 3);
    ClearStep(Undisturbed(AfterSpawn, false, false, false, false, Absent),
              Undisturbed(Wait, false, false, false, false, Absent), n + 2);
    ClearStep(Undisturbed(Wait, false, false, false, false, Absent),
              Undisturbed(CloseInner, false, false, true, false, Absent), n + 1);
  }

  lemma ClearClosing(n: nat)
    ensures Play(Undisturbed(CloseInner, false, false, true, false, Absent), Clear(n + 2))
            == Play(Undisturbed(AfterLog, false, true, true, false, Absent), Clear(n))
  {
    hide Play, Clear, Unwound;
    ClearStep(Undisturbed(CloseInner, false, false, true, false, Absent),
              Undisturbed(Flush, false, true, true, false, Absent), n + 2);
    ClearStep(Undisturbed(Flush, false, true, true, false, Absent),
              Undisturbed(AfterLog, false, true, true, false, Absent), n + 1);
  }

  lemma ClearLog(n: nat)
    ensures Play(Undisturbed(AfterLog, false, true, true, false, Absent), Clear(n + 2))
            == Play(Undisturbed(Qualify, false, true, true, false, Absent), Clear(n))
  {
    hide Play, Clear, Unwound;
    ClearStep(Undisturbed(AfterLog, false, true, true, false, Absent),
              Undisturbed(ReadLog, false, true, true, false, Absent), n + 2);
    ClearStep(Undisturbed(ReadLog, false, true, true, false, Absent),
              Undisturbed(Qualify, false, true, true, false, Absent), n + 1);
  }

  lemma ClearEvidence(n: nat)
    ensures Play(Undisturbed(Qualify, false, true, true, false, Absent), Clear(n + 2))
            == Play(Undisturbed(FirstWrite, false, true, true, true, Absent), Clear(n))
  {
    hide Play, Clear, Unwound;
    var qualified := Undisturbed(BeforeAppend, false, true, true, true, Absent);
    ClearStep(Undisturbed(Qualify, false, true, true, false, Absent), qualified, n + 2);
    ClearStep(qualified, Undisturbed(FirstWrite, false, true, true, true, Absent), n + 1);
  }

  lemma ClearReceipt(n: nat)
    ensures Play(Undisturbed(FirstWrite, false, true, true, true, Absent), Clear(n + 2))
            == Play(Undisturbed(Finish, false, true, true, true, Passed), Clear(n))
  {
    hide Play, Clear, Unwound;
    var saved := Undisturbed(Recheck, false, true, true, true, Passed);
    ClearStep(Undisturbed(FirstWrite, false, true, true, true, Absent), saved, n + 2);
    ClearStep(saved, Undisturbed(Finish, false, true, true, true, Passed), n + 1);
  }

  lemma ClearExit(n: nat)
    ensures Play(Late(Finish, Handlers(true, true)), Clear(n + 2))
            == Play(Late(RestoreInterrupt, Handlers(true, true)), Clear(n))
  {
    hide Play, Clear, Unwound;
    ClearStep(Late(Finish, Handlers(true, true)), Late(CloseOuter, Handlers(true, true)), n + 2);
    ClearStep(Late(CloseOuter, Handlers(true, true)), Late(RestoreInterrupt, Handlers(true, true)), n + 1);
  }

  lemma ClearRestoring(n: nat)
    ensures Play(Late(RestoreInterrupt, Handlers(true, true)), Clear(n + 1))
            == Play(Late(RestoreTerminate, Handlers(false, true)), Clear(n))
  {
    hide Play, Clear, Unwound;
    ClearStep(Late(RestoreInterrupt, Handlers(true, true)), Late(RestoreTerminate, Handlers(false, true)), n + 1);
  }

  lemma ClearEnd(n: nat)
    ensures Play(Late(RestoreTerminate, Handlers(false, true)), Clear(n + 2))
            == Play(Late(Raised, Handlers(false, false)), Clear(n))
  {
    hide Play, Clear, Unwound;
    ClearStep(Late(RestoreTerminate, Handlers(false, true)), Late(Decide, Handlers(false, false)), n + 2);
    ClearStep(Late(Decide, Handlers(false, false)), Late(Raised, Handlers(false, false)), n + 1);
  }

  /** A cancellation after the recheck: the run raises and its saved receipt says passed. */
  lemma LatePassedReceiptStays() returns (steps: seq<Step>)
    ensures
      var t := Play(Start(true), steps);
      t.pc == Raised && t.interrupted && t.receipt == Passed && !t.rewriteFailed
  {
    hide Play, Clear, Unwound, Ran;
    ClearSetup(15);
    ClearSpawn(11);
    ClearChild(8);
    ClearClosing(6);
    ClearLog(4);
    ClearEvidence(2);
    ClearReceipt(0);
    var saved := Undisturbed(Finish, false, true, true, true, Passed);
    ClearNothing(saved);
    assert After(saved, Signal) == Late(Finish, Handlers(true, true));
    ClearExit(3);
    ClearRestoring(2);
    ClearEnd(0);
    ClearNothing(Late(Raised, Handlers(false, false)));
    steps := Clear(19) + [Signal] + Clear(5);
    Onward(Start(true), Clear(19), Signal);
    PlayConcat(Start(true), Clear(19) + [Signal], Clear(5));
  }

  /** A run interrupted between installing its first handler and recording it. */
  function Unrecorded(pc: Pc, closing: bool): State {
    State(pc, false, closing, true, Handlers(true, false), Handlers(false, false),
          false, true, false, false, Absent, false, false, false)
  }

  lemma NothingFirst(n: nat)
    ensures Play(Unrecorded(CloseOuter, false), Clear(n + 2))
            == Play(Unrecorded(RestoreTerminate, true), Clear(n))
  {
    hide Play, Clear, Unwound;
    ClearStep(Unrecorded(CloseOuter, false), Unrecorded(RestoreInterrupt, true), n + 2);
    ClearStep(Unrecorded(RestoreInterrupt, true), Unrecorded(RestoreTerminate, true), n + 1);
  }

  lemma NothingLast(n: nat)
    ensures Play(Unrecorded(RestoreTerminate, true), Clear(n + 2))
            == Play(Unrecorded(Raised, true), Clear(n))
  {
    hide Play, Clear, Unwound;
    ClearStep(Unrecorded(RestoreTerminate, true), Unrecorded(Decide, true), n + 2);
    ClearStep(Unrecorded(Decide, true), Unrecorded(Raised, true), n + 1);
  }

  /** A signal between installing a handler and recording it: the run raises and the
      handler stays. */
  lemma HandlerCanStay() returns (steps: seq<Step>)
    ensures
      var t := Play(Start(true), steps);
      t.pc == Raised && t.installed.Any() && !t.restoreFailed
  {
    hide Play, Clear;
    var s := Start(true).(pc := RecordInterrupt, installed := Handlers(true, false));
    steps := Clear(1) + [Signal] + Clear(4);
    ClearStep(Start(true), s, 1);
    ClearNothing(s);
    Onward(Start(true), Clear(1), Signal);
    assert After(s, Signal) == Unrecorded(CloseOuter, false);
    PlayConcat(Start(true), Clear(1) + [Signal], Clear(4));
    NothingFirst(2);
    NothingLast(0);
    ClearNothing(Unrecorded(Raised, true));
  }
}
