/** Unit states, exit statuses and their translation into Nomad's terms (pkg/systemd/unit.go). */
module Systemd {
  import opened Options

  // ActiveState as systemd spells it; a spelling this package does not know is kept in Other.
  datatype UnitState =
    | Activating | Deactivating | Active | Inactive | Failed | Reloading | Maintenance
    | Other(name: string)
  {
    predicate IsFailed() { Failed? }

    predicate IsTerminal() { Inactive? || Failed? }

    function Spelling(): string {
      match this
      case Activating => "activating"
      case Deactivating => "deactivating"
      case Active => "active"
      case Inactive => "inactive"
      case Failed => "failed"
      case Reloading => "reloading"
      case Maintenance => "maintenance"
      case Other(name) => name
    }
  }

  datatype TaskState = TaskUnknown | TaskRunning | TaskExited

  // ExecMainCode and ExecMainStatus. A zero code means the main process never exited.
  datatype ExitStatus = ExitStatus(code: int, status: int)

  const CLD_EXITED := 1
  const CLD_KILLED := 2
  const CLD_DUMPED := 3

  datatype ExitError = UnitFailed | ExitedWith(code: int) | KilledBy(signal: int)

  datatype ExitResult = ExitResult(exitCode: int, signal: int, err: Option<ExitError>)

  function ParseUnitState(s: string): (st: UnitState)
    ensures st.Spelling() == s
  {
    if s == "activating" then Activating
    else if s == "deactivating" then Deactivating
    else if s == "active" then Active
    else if s == "inactive" then Inactive
    else if s == "failed" then Failed
    else if s == "reloading" then Reloading
    else if s == "maintenance" then Maintenance
    else Other(s)
  }

  function ToTaskState(st: UnitState): (t: TaskState)
    ensures t == TaskExited <==> st.IsTerminal()
    ensures t == TaskRunning <==> st == Active
  {
    match st
    case Active => TaskRunning
    case Failed => TaskExited
    case Inactive => TaskExited
    case _ => TaskUnknown
  }

  function ExitResultFromStatus(status: ExitStatus): Option<ExitResult> {
    if status.code == CLD_EXITED then
      Some(ExitResult(status.status, 0, if status.status != 0 then Some(ExitedWith(status.status)) else None))
    else if status.code == CLD_KILLED || status.code == CLD_DUMPED then
      Some(ExitResult(-1, status.status, Some(KilledBy(status.status))))
    else
      None
  }

  /** What Nomad is to be told of a unit seen in state seen whose main process ended with status, by the numbers
      that waitid(2) gives code: 1 for an exit with a code, 2 and 3 for a signal, without and with a core dump. */
  predicate ResultFits(r: ExitResult, seen: UnitState, status: Option<ExitStatus>) {
    if status.Some? && status.value.code == 1 then
      && r.exitCode == status.value.status && r.signal == 0
      && (if status.value.status == 0 then r.err == None else r.err == Some(ExitedWith(status.value.status)))
    else if status.Some? && 2 <= status.value.code <= 3 then
      r.exitCode == -1 && r.signal == status.value.status && r.err == Some(KilledBy(status.value.status))
    else if seen == Failed then
      r.exitCode == 1 && r.signal == 0 && r.err == Some(UnitFailed)
    else
      r.exitCode == 0 && r.signal == 0 && r.err == None
  }

  // The result of a unit seen in state seen; status is None when the lookup failed.
  function BuildExitResult(seen: UnitState, status: Option<ExitStatus>): (r: ExitResult)
    ensures ResultFits(r, seen, status)
  {
    var known := if status.Some? then ExitResultFromStatus(status.value) else None;
    if known.Some? then known.value
    else if seen.IsFailed() then ExitResult(1, 0, Some(UnitFailed))
    else ExitResult(0, 0, None)
  }

  // When a process is known to have terminated: its code says how it ended.
  predicate Terminated(status: Option<ExitStatus>) {
    status.Some? && status.value.code in {CLD_EXITED, CLD_KILLED, CLD_DUMPED}
  }

  /** The spellings that end a task and the one that makes it running; any other leaves it unknown. */
  lemma SpellingsDecideTheTask(s: string)
    ensures ToTaskState(ParseUnitState(s)) == TaskExited <==> s == "inactive" || s == "failed"
    ensures ToTaskState(ParseUnitState(s)) == TaskRunning <==> s == "active"
    ensures ParseUnitState(s).IsTerminal() <==> s == "inactive" || s == "failed"
    ensures ParseUnitState(s).IsFailed() <==> s == "failed"
  {
  }

  /** Nomad reads an ExitResult as a success when it has no error, no signal and code 0. These
      agree, and they hold exactly for a clean process exit, or, when systemd cannot tell how the
      process ended, for a unit that is not failed. */
  lemma SuccessMeansCleanExit(seen: UnitState, status: Option<ExitStatus>)
    ensures var r := BuildExitResult(seen, status);
            var clean := if Terminated(status) then status.value == ExitStatus(CLD_EXITED, 0) else seen != Failed;
            && (r.err.None? <==> clean)
            && (r.err.None? <==> r.exitCode == 0)
            && (r.signal != 0 ==> r.exitCode == -1 && r.err == Some(KilledBy(r.signal)))
  {
  }
}
