/** The domain types of `internal/core/types.go`, as far as the model uses them. */
module Core {

  datatype Option<+T> = None | Some(value: T)

  datatype Result<+T, +E> = Ok(value: T) | Err(error: E)

  datatype Outcome = Pass | Fail | Error | Skip | OtherOutcome(text: string)

  predicate Failing(o: Outcome)
  {
    o == Fail || o == Error
  }

  datatype RunStatus = Unset | Running | Complete | Partial | Failed | Abandoned | OtherStatus(text: string)

  datatype RunHealth = Healthy | Degraded | Unhealthy

  datatype ExecutionState = Queued | InProgress | Completed | Aborted

  datatype RunExecution = RunExecution(
    tr: string, variant: string, scenario: string, state: ExecutionState, outcome: Outcome, reason: string)

  datatype RunPart = RunPart(partId: string, kind: string, status: RunStatus, reason: string, endedAt: string)

  datatype Incident = Incident(
    id: string, kind: string, tr: string, message: string, severity: string, blocksCertification: bool)

  datatype Verdict = Verdict(
    tr: string, variant: string, level: int, scenario: string, item: string,
    outcome: Outcome, duration: real, reason: string)

  datatype Measurement = Measurement(
    tr: string, variant: string, level: int, scenario: string, name: string,
    percentile: string, value: real, unit: string)

  datatype Metric = Metric(name: string, value: real, unit: string, percentile: string)

  datatype StorageSelection = StorageSelection(
    tr: string, variant: string, scenario: string, storageClass: string, snapshotClass: string)

  datatype LevelRollup = LevelRollup(level: int, outcome: Outcome)

  datatype Summary = Summary(total: nat, pass: nat, fail: nat, error: nat, skip: nat, certifiedLevel: int)

  /** A parameter value: `text` is what `fmt.Sprint` prints for it, `value` what `toFloat` yields for a number. */
  datatype Param = Number(value: real, text: string) | Text(text: string)

  /** A catalog descriptor (metric, percentile, measuredBy) or a thresholds bar (when, operator, value). */
  datatype Sla = Sla(
    metric: string, percentile: string, unit: string, measuredBy: Option<seq<string>>,
    when: map<string, Param>, operator: string, value: Option<real>, condition: string)

  datatype Check = Check(id: string, kind: string, status: string)

  datatype Requirement = Requirement(
    id: string, variant: string, automationTool: string, partnerLevel: int,
    slas: seq<Sla>, bars: seq<Sla>, checks: seq<Check>,
    required: set<string>, params: map<string, Param>)

  /** A check's kind, or a requirement's tool, that no automation handles. */
  const MANUAL := "manual"

  function ExecutionLabel(id: string, variant: string): string
  {
    if variant == "" then id else id + " [" + variant + "]"
  }

  function Label(tr: Requirement): string
  {
    ExecutionLabel(tr.id, tr.variant)
  }
}
