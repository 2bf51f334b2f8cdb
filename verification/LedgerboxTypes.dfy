/**
 The rows of the books (`lib/types.ts`, `lib/seed.ts`). Instants are milliseconds, except the day an
 invoice was issued, which only the period predicate reads, as text.
 */
module LedgerboxTypes {
  import opened Options

  type Instant = int

  datatype Status = Draft | Sent | Disputed | Void
  datatype Direction = In | Out
  datatype Tone = Gentle | Firm
  datatype Actor = User | Athena | System

  datatype Client = Client(name: string, contact: string, email: string, bankAlias: Option<string>)

  datatype Invoice = Invoice(
    id: string, number: string, client: string, issuedAt: string, dueAt: Instant, amount: int,
    category: string, status: Status)

  datatype BankLine = BankLine(
    id: string, postedAt: Instant, memo: string, amount: int, direction: Direction, sourceFile: string)

  datatype Payment = Payment(invoice: string, paidAt: Instant, amount: int, means: string, note: string)

  datatype MatchRow = MatchRow(matchedAt: Instant, actor: Actor, evidence: string)

  datatype Reminder = Reminder(
    invoice: string, tone: Tone, recipient: string, subject: string, body: string,
    createdAt: Instant, sentAt: Option<Instant>)

  /** The stored status, refined by what has been paid and by the calendar. */
  datatype State = DraftState | OpenState | Partial | Paid | Overdue | DisputedState | VoidState

  /** An invoice joined with its client and its payments' total. */
  datatype Row = Row(invoice: Invoice, client: Client, paid: int, balance: int, daysOverdue: int, state: State)

  const DAY_MS: int := 86_400_000

  /** Midnight of 1 September 2026, the fixed `now` of every date rule. */
  const TODAY: Instant := 1_788_220_800_000

  function DaysPast(due: Instant): int {
    (TODAY - due) / DAY_MS
  }

  function StateOf(status: Status, paid: int, balance: int, daysOverdue: int): State {
    match status
    case Void => VoidState
    case Draft => DraftState
    case Disputed => DisputedState
    case Sent =>
      if balance <= 0 then Paid
      else if paid > 0 then Partial
      else if daysOverdue > 0 then Overdue else OpenState
  }

  function ToRow(invoice: Invoice, client: Client, paid: int): Row {
    var balance := if invoice.status == Void then 0 else invoice.amount - paid;
    var days :=
      if invoice.status != Void && invoice.status != Draft && balance > 0
      then (if DaysPast(invoice.dueAt) > 0 then DaysPast(invoice.dueAt) else 0)
      else 0;
    Row(invoice, client, paid, balance, days, StateOf(invoice.status, paid, balance, days))
  }

  /** States that are neither billings nor debts. */
  predicate CountedOut(state: State) {
    state == VoidState || state == DraftState
  }

  /** Owed and billed, so that a credit could settle some of it. */
  predicate TakesCredit(row: Row) {
    row.balance > 0 && !CountedOut(row.state)
  }

  lemma WholeDays(span: int)
    requires span >= 86_400_000
    ensures span / DAY_MS * 86_400_000 <= span < (span / DAY_MS + 1) * 86_400_000 && span / DAY_MS >= 1
  {
  }

  /** What a row says of its invoice, by the stored status, what is owed and paid, and whole days past the due date. */
  lemma RowSays(invoice: Invoice, client: Client, paid: int)
    ensures var row, owed := ToRow(invoice, client, paid), invoice.amount - paid;
            var late := invoice.dueAt + 86_400_000 <= TODAY;
            && row.balance == (if invoice.status == Void then 0 else owed)
            && (row.state == VoidState <==> invoice.status == Void)
            && (row.state == DraftState <==> invoice.status == Draft)
            && (row.state == DisputedState <==> invoice.status == Disputed)
            && (row.state == Paid <==> invoice.status == Sent && owed <= 0)
            && (row.state == Partial <==> invoice.status == Sent && owed > 0 && paid > 0)
            && (row.state == Overdue <==> invoice.status == Sent && owed > 0 && paid <= 0 && late)
            && (row.daysOverdue > 0 <==>
                (invoice.status == Sent || invoice.status == Disputed) && owed > 0 && late)
            && (row.daysOverdue > 0 ==>
                  row.daysOverdue * 86_400_000 <= TODAY - invoice.dueAt < (row.daysOverdue + 1) * 86_400_000)
            && row.daysOverdue >= 0
  {
    if invoice.dueAt + 86_400_000 <= TODAY { WholeDays(TODAY - invoice.dueAt); }
  }
}
