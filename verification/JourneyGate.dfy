/**
 The one gate every call goes through (`src/approvals.ts`, `src/gate-pipeline.ts`, `src/ledger.ts`,
 `src/brain.ts`): cards, the record of calls, and the facts that cite it, as values.
 */
module JourneyGate {
  import opened JourneyDescribe
  import opened Options
  import opened Texts

  // ----- cards -----

  datatype Status = Pending | Granted | Denied

  datatype Card = Card(id: string, origin: string, tool: string, describe: string, status: Status,
                       consumedAt: Option<nat>)

  /** The approval table, a `Map`: `order` is the order its cards were first set in. */
  datatype Table = Table(cards: map<string, Card>, order: seq<string>)

  function Set(t: Table, card: Card): Table {
    Table(t.cards[card.id := card], if card.id in t.cards then t.order else t.order + [card.id])
  }

  function Request(t: Table, id: string, origin: string, tool: string, params: seq<Field>): Table {
    Set(t, Card(id, origin, tool, Describe(origin, tool, params), Pending, None))
  }

  /** The person's answer; a card that does not exist is refused and nothing is written. */
  function Answer(t: Table, id: string, status: Status): Option<Table> {
    if id !in t.cards then None else Some(t.(cards := t.cards[id := t.cards[id].(status := status)]))
  }

  datatype Proof = Spent(table: Table, card: string) | NotProved(reason: string)

  /** Exists, answered, matches, unspent, and then the one spend. */
  function Prove(t: Table, cited: Option<string>, origin: string, tool: string, params: seq<Field>, now: nat): Proof {
    if cited.None? || cited.value == "" then NotProved("pending_approval")
    else if cited.value !in t.cards then NotProved("unknown_ref")
    else
      var card := t.cards[cited.value];
      if card.status == Pending then NotProved("pending_approval")
      else if card.status == Denied then NotProved("user_denied")
      else if card.describe != Describe(origin, tool, params) then NotProved("validator_failed")
      else if card.consumedAt.Some? then NotProved("approval_spent")
      else Spent(t.(cards := t.cards[cited.value := card.(consumedAt := Some(now))]), cited.value)
  }

  // ----- the record -----

  const REFUSAL_REASONS: seq<string> := [
    "user_denied", "expired", "pending_approval", "foreign_origin", "foreign_token", "unknown_ref",
    "validator_failed", "manifest_invalid", "approval_spent", "budget_exhausted", "engine_error", "timeout",
    "parse_error", "cancelled", "no_answer", "usage_limit", "outcome_unknown", "unknown"]

  datatype Outcome = Ok | Refused | Skipped

  datatype Row = Row(
    number: nat, app: string, tier: nat, tool: string, gated: bool, outcome: Outcome,
    reason: Option<string>, approval: Option<string>, target: Option<string>)

  predicate Recordable(reason: Option<string>) {
    reason.None? || reason.value in REFUSAL_REASONS
  }

  /** One more row, numbered by its place; a reason outside the closed set throws. */
  function Write(rows: seq<Row>, row: Row): Option<seq<Row>> {
    if Recordable(row.reason) then Some(rows + [row.(number := |rows| + 1)]) else None
  }

  datatype Fact = Fact(id: string, claim: string, cites: seq<nat>, learnedIn: string)

  function FactId(n: nat): string {
    "fct_" + Decimal(n)
  }

  /** No citation, no fact. */
  function Admit(facts: seq<Fact>, claim: string, cites: seq<nat>, learnedIn: string): Option<seq<Fact>> {
    if cites == [] then None else Some(facts + [Fact(FactId(|facts| + 1), claim, cites, learnedIn)])
  }

  // ----- the pipeline -----

  datatype Gate = Gate(table: Table, rows: seq<Row>, facts: seq<Fact>)

  /** One call, with the id of the card it cites. */
  datatype Call = Call(
    app: string, origin: string, tier: nat, name: string, gated: bool, params: seq<Field>,
    approval: Option<string>, target: Option<string>)

  /** What the call's surroundings say: the schema check, the allow-list, and the last admission. */
  datatype Verdicts = Verdicts(badArguments: bool, barred: bool, notAdmitted: Option<string>)

  datatype Stage = Validate | Approval | Egress | Admission | Transport

  function RefusalRow(call: Call, reason: string): Row {
    Row(0, call.app, call.tier, call.name, call.gated, Refused, Some(reason),
        if call.gated then call.approval else None, call.target)
  }

  function OkRow(call: Call, card: Option<string>): Row {
    Row(0, call.app, call.tier, call.name, call.gated, Ok, None, card, call.target)
  }

  /** Where a call stands after the part of the pipeline that runs before its transport is awaited. */
  datatype Entered =
    | Turned(gate: Gate, stage: Stage, reason: string)
    | Waiting(gate: Gate, card: Option<string>)

  /** A refusal writes its row first; a reason the record refuses leaves no row. */
  function Recorded(g: Gate, row: Row): Gate {
    match Write(g.rows, row)
    case Some(rows) => g.(rows := rows)
    case None => g
  }

  function Turn(g: Gate, call: Call, stage: Stage, reason: string): Entered {
    Turned(Recorded(g, RefusalRow(call, reason)), stage, reason)
  }

  function PastApproval(g: Gate, call: Call, card: Option<string>, v: Verdicts): Entered {
    if call.target.Some? && v.barred then Turn(g, call, Egress, "foreign_origin")
    else if v.notAdmitted.Some? then Turn(g, call, Admission, v.notAdmitted.value)
    else Waiting(g, card)
  }

  function Enter(g: Gate, call: Call, v: Verdicts, now: nat): Entered {
    if v.badArguments then Turn(g, call, Validate, "validator_failed")
    else if !call.gated then PastApproval(g, call, None, v)
    else
      match Prove(g.table, call.approval, call.origin, call.name, call.params, now)
      case NotProved(reason) => Turn(g, call, Approval, reason)
      case Spent(table, card) => PastApproval(g.(table := table), call, Some(card), v)
  }

  datatype TransportAnswer = Output(text: string) | Failed(reason: Option<string>) | Threw

  function EndReason(answer: TransportAnswer): Option<string> {
    match answer
    case Output(_) => None
    case Failed(reason) => if reason.Some? then reason else Some("unknown")
    case Threw => Some("unknown")
  }

  /** The transport's answer, recorded. */
  function Leave(g: Gate, call: Call, card: Option<string>, answer: TransportAnswer): Gate {
    match EndReason(answer)
    case None => Recorded(g, OkRow(call, card))
    case Some(reason) => Recorded(g, RefusalRow(call, reason))
  }

  // ----- one call at the gate -----

  /** A call that does not get past the approval leaves every card as it was, whatever it cited. */
  lemma RefusedCitationSpendsNothing(g: Gate, call: Call, v: Verdicts, now: nat)
    ensures var e := Enter(g, call, v, now);
            e.Turned? && (e.stage == Validate || e.stage == Approval) ==> e.gate.table == g.table
  {
  }

  /** A call gets past the approval exactly when it cites a granted, unspent card described as the call is. */
  lemma GatedNeedsItsCard(g: Gate, call: Call, v: Verdicts, now: nat)
    requires call.gated && !v.badArguments
    ensures var e := Enter(g, call, v, now);
            (e.Turned? && e.stage == Approval) <==>
            !(&& call.approval.Some? && call.approval.value != "" && call.approval.value in g.table.cards
              && var card := g.table.cards[call.approval.value];
                 && card.status == Granted && card.consumedAt.None?
                 && card.describe == Describe(call.origin, call.name, call.params))
  {
  }
}
