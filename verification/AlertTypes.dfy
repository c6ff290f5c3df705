/** Values shared by the alert engine, the alert tables and the HTTP API. */
module AlertTypes {

  type Id = string

  /** One clock, in milliseconds. */
  type Time = int

  datatype Option<+T> = None | Some(value: T)

  /** A comparison operator; any other text is kept, and never triggers. */
  datatype Operator = Gt | Gte | Lt | Lte | Unknown(text: string)

  /** A rule as the ingestion service loads it. */
  datatype Rule = Rule(id: Id, metric: string, operator: Operator, threshold: real, severity: string)

  /** A row of `alert_rules`, without its key. */
  datatype RuleRow = RuleRow(
    device: Id, metric: string, operator: Operator, threshold: real, severity: string, enabled: bool)

  /** What a rule asks for; "no action" is the absence of a decision. */
  datatype Decision = CreateAlert | AutoResolve

  datatype RuleDecision = RuleDecision(rule: Rule, decision: Decision, value: real)

  /** A rule's debounce streak. */
  datatype BreachState = BreachState(count: nat, breaching: bool)

  /** The streak of a rule that has never been evaluated (Go's zero value). */
  const NO_STREAK := BreachState(0, false)

  datatype Status = Open | Acknowledged | Resolved

  /** A row of `alerts`; its key is its position in the append-only table. */
  datatype Alert = Alert(
    rule: Id, device: Id, value: real, severity: string, status: Status, triggeredAt: Time,
    ackAt: Option<Time>, ackBy: Option<Id>, resolvedAt: Option<Time>, resolvedBy: Option<Id>)
  {
    predicate Active() { status != Resolved }
  }

  /** One telemetry message, once its topic and payload have been accepted. */
  datatype Message = Message(device: Id, readings: map<string, real>, at: Time)

  predicate DistinctIds(rules: seq<Rule>) {
    forall i, j :: 0 <= i < j < |rules| ==> rules[i].id != rules[j].id
  }

  /** Everything but the last element. */
  function Init<T>(s: seq<T>): (r: seq<T>)
    requires s != []
    ensures |r| == |s| - 1
    ensures s == r + [s[|s| - 1]]
  {
    s[..|s| - 1]
  }

  function Last<T>(s: seq<T>): T
    requires s != []
  {
    s[|s| - 1]
  }
}
