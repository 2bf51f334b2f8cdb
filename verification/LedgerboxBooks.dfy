/**
 The books as tables, and what each server action and its undo does to them (`app/actions.ts`, the
 readers of `lib/db.ts`, and the kit's `undoActivity`). Each action is a function from the books to
 the books and an answer; a transaction that throws leaves the books as they were.
 */
module LedgerboxBooks {
  import opened LedgerboxChase
  import opened LedgerboxMatch
  import opened LedgerboxReconcile
  import opened LedgerboxReminder
  import opened LedgerboxTypes
  import opened Lists
  import opened Options
  import opened Tables
  import opened Texts

  /** The payload of a log row: enough to compute the tables before the act from those after it. */
  datatype Undo =
    | UndoCategorize(prior: seq<(string, string)>, to: string)
    | UndoMatch(invoice: string, line: string, payment: string)
    | UndoUnmatch(invoice: string, line: string, row: MatchRow, payment: string, lifted: Payment)
    | UndoReminder(id: string)

  /** One activity row; it is reversible when it carries an undo. Its id is its position, from 1. */
  datatype Entry = Entry(action: string, undo: Option<Undo>, undone: bool)

  /**
   The tables, keyed by their primary keys. `dueOrder` and `statement` are the orders the invoice and
   bank-line queries list their rows in; no action writes the columns they are sorted by.
   */
  datatype Books = Books(
    clients: map<string, Client>,
    invoices: map<string, Invoice>, dueOrder: seq<string>,
    lines: map<string, BankLine>, statement: seq<string>,
    matches: map<(string, string), MatchRow>,
    payments: map<string, Payment>,
    reminders: map<string, Reminder>,
    log: seq<Entry>)

  datatype Reason =
    | NoSuchInvoice | NotADebt | NotInPool | MoneyOut | MoreThanOwed | NotApplied | NoPayment
    | NotAboveZero | RepeatedPayment | AlreadyVoid | HoldsMoney | NothingSelected | NoneFound
    | Settled | InDispute | StatementHolds(credit: SettlingCredit) | NotTheLetter | NothingDrafted
    | NoActivity | NotReversible | AlreadyUndone
    | RefiledSince | NoLongerThere | AppliedElsewhere | AlreadySent | Replaced

  /** `Redrafted` refuses the send and hands back a new draft; `Aborted` is a transaction that threw. */
  datatype Answer = Done(undoId: Option<nat>) | Refused(why: Reason) | Redrafted(id: string) | Aborted

  datatype Step = Step(books: Books, answer: Answer)

  const MAX_IDS := 100
  const REPEAT_WINDOW_MS := 10_000
  const BY_HAND := "Recorded by hand."

  function PaymentIdFor(line: string): string { "pay_match_" + line }

  function ManualIdFor(invoice: string, now: nat): string { "pay_manual_" + invoice + "_" + Decimal(now) }

  function ReminderIdFor(invoice: string, now: nat): string { "rem_" + invoice + "_" + Decimal(now) }

  // ----- reading the tables -----

  function PaidOn(invoice: string): (string, Payment) -> int {
    (id: string, p: Payment) => if p.invoice == invoice then p.amount else 0
  }

  ghost function PaidCents(payments: map<string, Payment>, invoice: string): int {
    Total(payments, PaidOn(invoice))
  }

  /** Every referenced row exists, which the schema's foreign keys keep. */
  ghost predicate Keyed(s: Books) {
    && (forall i :: i in s.invoices ==> s.invoices[i].id == i && s.invoices[i].client in s.clients)
    && (forall l :: l in s.lines ==> s.lines[l].id == l)
    && (forall i, l :: (i, l) in s.matches ==> i in s.invoices && l in s.lines)
    && (forall p :: p in s.payments ==> s.payments[p].invoice in s.invoices)
    && (forall r :: r in s.reminders ==> s.reminders[r].invoice in s.invoices)
    && Distinct(s.dueOrder) && (forall i :: i in s.dueOrder <==> i in s.invoices)
    && Distinct(s.statement) && (forall l :: l in s.statement <==> l in s.lines)
  }

  ghost function RowOf(s: Books, i: string): Row
    requires Keyed(s) && i in s.invoices
  {
    ToRow(s.invoices[i], s.clients[s.invoices[i].client], PaidCents(s.payments, i))
  }

  ghost predicate Applied(s: Books, line: string) {
    exists i :: (i, line) in s.matches
  }

  /** The statement without the lines some match names. */
  ghost function PoolLines(s: Books, statement: seq<string>): seq<BankLine>
    requires forall l :: l in statement ==> l in s.lines
  {
    if statement == [] then []
    else
      var l := statement[|statement| - 1];
      PoolLines(s, statement[..|statement| - 1]) + if Applied(s, l) then [] else [s.lines[l]]
  }

  function ScoreInputOf(row: Row): ScoreInput {
    ScoreInput(row.invoice.number, row.invoice.amount, row.invoice.dueAt, row.client.name, row.balance,
               row.client.bankAlias)
  }

  /** The invoices that take a credit, as the reconciliation table scores them. */
  ghost function OpenInvoices(s: Books, order: seq<string>): seq<OpenInvoice>
    requires Keyed(s) && forall i :: i in order ==> i in s.invoices
  {
    if order == [] then []
    else
      var i := order[|order| - 1];
      OpenInvoices(s, order[..|order| - 1]) +
      if TakesCredit(RowOf(s, i)) then [OpenInvoice(i, ScoreInputOf(RowOf(s, i)))] else []
  }

  ghost function CreditsOf(s: Books): seq<Reading>
    requires Keyed(s)
  {
    Credits(OpenInvoices(s, s.dueOrder), PoolLines(s, s.statement))
  }

  /** The chase question, put to the table the present rows make. */
  ghost function StatementVerdict(s: Books, i: string): Verdict
    requires Keyed(s)
  {
    ChaseVerdict(i, ReadingsOf(CreditSide(CreditsOf(s)), InvoiceSide(CreditsOf(s), i)))
  }

  predicate IsFactPayment(p: Payment, invoice: string, day: Instant, cents: int) {
    p.invoice == invoice && p.paidAt == day && p.amount == cents
  }

  ghost function FactPayments(payments: map<string, Payment>, invoice: string, day: Instant, cents: int): set<string> {
    set p | p in payments && IsFactPayment(payments[p], invoice, day, cents)
  }

  /** Which payment an unmatch deletes: the one named after the line, else the first by id with the line's facts. */
  ghost function PaymentForMatch(s: Books, i: string, line: BankLine): Option<string> {
    var named := PaymentIdFor(line.id);
    if named in s.payments && s.payments[named].invoice == i then Some(named)
    else
      var rows := FactPayments(s.payments, i, line.postedAt, line.amount);
      if rows == {} then None else Some(First(rows))
  }

  // ----- writing the tables -----

  function Logged(s: Books, action: string, undo: Option<Undo>): Books {
    s.(log := s.log + [Entry(action, undo, false)])
  }

  function Apply(s: Books, i: string, line: string, row: MatchRow, payment: string, p: Payment): Books {
    s.(matches := s.matches[(i, line) := row], payments := s.payments[payment := p])
  }

  function Lift(s: Books, i: string, line: string, payment: string): Books {
    s.(matches := s.matches - {(i, line)}, payments := s.payments - {payment})
  }

  // ----- the actions -----

  ghost function MatchLine(s: Books, i: string, line: string, actor: Actor, evidence: string, now: nat): Step
    requires Keyed(s)
  {
    if i !in s.invoices then Step(s, Refused(NoSuchInvoice))
    else if CountedOut(RowOf(s, i).state) then Step(s, Refused(NotADebt))
    else if line !in s.lines || Applied(s, line) then Step(s, Refused(NotInPool))
    else if s.lines[line].direction != In then Step(s, Refused(MoneyOut))
    else if s.lines[line].amount > RowOf(s, i).balance then Step(s, Refused(MoreThanOwed))
    else if PaymentIdFor(line) in s.payments then Step(s, Aborted)
    else
      var b := s.lines[line];
      var p := Payment(i, b.postedAt, b.amount, "transfer", "Reconciled from " + b.sourceFile + ".");
      var applied := Apply(s, i, line, MatchRow(now, actor, evidence), PaymentIdFor(line), p);
      Step(Logged(applied, "match_bank_line", Some(UndoMatch(i, line, PaymentIdFor(line)))), Done(Some(|s.log| + 1)))
  }

  ghost function Unmatch(s: Books, i: string, line: string): Step
    requires Keyed(s)
  {
    if i !in s.invoices then Step(s, Refused(NoSuchInvoice))
    else if (i, line) !in s.matches then Step(s, Refused(NotApplied))
    else
      var payment := PaymentForMatch(s, i, s.lines[line]);
      if payment.None? then Step(s, Refused(NoPayment))
      else
        var lifted := s.payments[payment.value].(invoice := i, amount := s.lines[line].amount);
        var undo := UndoUnmatch(i, line, s.matches[(i, line)], payment.value, lifted);
        Step(Logged(Lift(s, i, line, payment.value), "unmatch", Some(undo)), Done(Some(|s.log| + 1)))
  }

  predicate IsRepeat(p: Payment, i: string, amount: int, since: Instant) {
    p.invoice == i && p.amount == amount && p.note == BY_HAND && p.paidAt >= since
  }

  ghost function MarkPaid(s: Books, i: string, amount: int, now: nat): Step
    requires Keyed(s)
  {
    if i !in s.invoices then Step(s, Refused(NoSuchInvoice))
    else if CountedOut(RowOf(s, i).state) then Step(s, Refused(NotADebt))
    else if amount <= 0 then Step(s, Refused(NotAboveZero))
    else if amount > RowOf(s, i).balance then Step(s, Refused(MoreThanOwed))
    else if exists p :: p in s.payments && IsRepeat(s.payments[p], i, amount, now - REPEAT_WINDOW_MS) then
      Step(s, Refused(RepeatedPayment))
    else if ManualIdFor(i, now) in s.payments then Step(s, Aborted)
    else
      var p := Payment(i, now, amount, "transfer", BY_HAND);
      Step(Logged(s.(payments := s.payments[ManualIdFor(i, now) := p]), "mark_paid", None), Done(None))
  }

  ghost function VoidInvoice(s: Books, i: string): Step
    requires Keyed(s)
  {
    if i !in s.invoices then Step(s, Refused(NoSuchInvoice))
    else if RowOf(s, i).state == VoidState then Step(s, Refused(AlreadyVoid))
    else if RowOf(s, i).paid > 0 then Step(s, Refused(HoldsMoney))
    else
      Step(Logged(s.(invoices := s.invoices[i := s.invoices[i].(status := Void)]), "void_invoice", None), Done(None))
  }

  /** The invoices refiled one after another, and the category each had when its turn came. */
  datatype Filing = Filing(invoices: map<string, Invoice>, prior: seq<(string, string)>)

  function File(invoices: map<string, Invoice>, targets: seq<string>, to: string): Filing {
    if targets == [] then Filing(invoices, [])
    else
      var before, id := File(invoices, targets[..|targets| - 1], to), targets[|targets| - 1];
      if id !in before.invoices then before
      else
        Filing(before.invoices[id := before.invoices[id].(category := to)],
               before.prior + [(id, before.invoices[id].category)])
  }

  function Targets(ids: seq<string>): seq<string> {
    if |ids| <= MAX_IDS then ids else ids[..MAX_IDS]
  }

  function Categorize(s: Books, ids: seq<string>, to: string): Step {
    var filing := File(s.invoices, Targets(ids), to);
    if ids == [] then Step(s, Refused(NothingSelected))
    else if filing.prior == [] then Step(s, Refused(NoneFound))
    else
      Step(Logged(s.(invoices := filing.invoices), "categorize", Some(UndoCategorize(filing.prior, to))),
           Done(Some(|s.log| + 1)))
  }

  /** The row's own reason against a reminder, before the statement is looked at. */
  function WhyNotChase(row: Row): Option<Reason> {
    if CountedOut(row.state) then Some(NotADebt)
    else if row.balance <= 0 then Some(Settled)
    else if row.state == DisputedState then Some(InDispute)
    else None
  }

  function DraftOf(i: string, tone: Tone, letter: Letter, now: nat): Reminder {
    Reminder(i, tone, letter.to, letter.subject, letter.body, now, None)
  }

  function PutDraft(s: Books, i: string, tone: Tone, letter: Letter, now: nat): Step {
    var id := ReminderIdFor(i, now);
    if id in s.reminders then Step(s, Aborted)
    else
      var drafted := s.(reminders := s.reminders[id := DraftOf(i, tone, letter, now)]);
      Step(Logged(drafted, "draft_reminder", Some(UndoReminder(id))), Done(Some(|s.log| + 1)))
  }

  /** Why no letter about this invoice may be written or sent now. */
  ghost function WhyNotWrite(s: Books, i: string): (w: Option<Reason>)
    requires Keyed(s)
    ensures w.None? ==> i in s.invoices
  {
    if i !in s.invoices then Some(NoSuchInvoice)
    else if WhyNotChase(RowOf(s, i)).Some? then WhyNotChase(RowOf(s, i))
    else if StatementVerdict(s, i).Blocked? then Some(StatementHolds(StatementVerdict(s, i).credit))
    else None
  }

  ghost function DraftReminder(s: Books, i: string, tone: Tone, now: nat): Step
    requires Keyed(s)
  {
    var why := WhyNotWrite(s, i);
    if why.Some? then Step(s, Refused(why.value))
    else PutDraft(s, i, tone, LetterFor(RowOf(s, i), tone), now)
  }

  predicate IsDraftOf(r: Reminder, i: string) {
    r.invoice == i && r.sentAt.None?
  }

  ghost function DraftIds(s: Books, i: string): set<string> {
    set r | r in s.reminders && IsDraftOf(s.reminders[r], i)
  }

  /** Row `x` is as old as `y` or older, ids settling a tie. */
  predicate NoNewer(reminders: map<string, Reminder>, x: string, y: string)
    requires x in reminders && y in reminders
  {
    || reminders[x].createdAt < reminders[y].createdAt
    || (reminders[x].createdAt == reminders[y].createdAt && AtMost(x, y))
  }

  lemma NoNewerTotal(reminders: map<string, Reminder>, x: string, y: string)
    requires x in reminders && y in reminders
    ensures NoNewer(reminders, x, y) || NoNewer(reminders, y, x)
  {
    AtMostTotal(x, y);
  }

  lemma NoNewerTransitive(reminders: map<string, Reminder>, x: string, y: string, z: string)
    requires x in reminders && y in reminders && z in reminders
    requires NoNewer(reminders, x, y) && NoNewer(reminders, y, z)
    ensures NoNewer(reminders, x, z)
  {
    if AtMost(x, y) && AtMost(y, z) {
      AtMostTransitive(x, y, z);
    }
  }

  /** `id` is one of `ids`, and none of them is newer. */
  ghost predicate IsNewest(s: Books, ids: set<string>, id: string)
    requires ids <= s.reminders.Keys
  {
    id in ids && forall other :: other in ids ==> NoNewer(s.reminders, other, id)
  }

  lemma {:induction false} NewestExists(s: Books, ids: set<string>)
    requires ids != {} && ids <= s.reminders.Keys
    ensures exists id :: IsNewest(s, ids, id)
  {
    var x :| x in ids;
    var rest := ids - {x};
    NoNewerTotal(s.reminders, x, x);
    if rest == {} {
      assert ids == {x};
      assert IsNewest(s, ids, x);
    } else {
      NewestExists(s, rest);
      var y :| IsNewest(s, rest, y);
      NoNewerTotal(s.reminders, x, y);
      if NoNewer(s.reminders, x, y) {
        assert IsNewest(s, ids, y);
      } else {
        forall other | other in rest ensures NoNewer(s.reminders, other, x) {
          NoNewerTransitive(s.reminders, other, y, x);
        }
        assert IsNewest(s, ids, x);
      }
    }
  }

  lemma NewestIsUnique(s: Books, ids: set<string>, x: string, y: string)
    requires ids <= s.reminders.Keys
    requires IsNewest(s, ids, x) && IsNewest(s, ids, y)
    ensures x == y
  {
    AtMostAntisymmetric(x, y);
  }

  ghost function NewestDraft(s: Books, i: string): (d: Option<string>)
    ensures d.Some? ==> IsNewest(s, DraftIds(s, i), d.value)
    ensures d.None? <==> DraftIds(s, i) == {}
  {
    if DraftIds(s, i) == {} then None
    else
      NewestExists(s, DraftIds(s, i));
      var id :| IsNewest(s, DraftIds(s, i), id);
      Some(id)
  }

  function WithoutDrafts(reminders: map<string, Reminder>, i: string): map<string, Reminder> {
    map r | r in reminders && !IsDraftOf(reminders[r], i) :: reminders[r]
  }

  function Redraft(s: Books, i: string, stale: string, letter: Letter, now: nat): Step
    requires stale in s.reminders
  {
    var id := ReminderIdFor(i, now) + "_r";
    var left := s.reminders - {stale};
    if id in left then Step(s, Aborted)
    else
      var redrafted := s.(reminders := left[id := DraftOf(i, s.reminders[stale].tone, letter, now)]);
      Step(Logged(redrafted, "draft_reminder", Some(UndoReminder(id))), Redrafted(id))
  }

  /** Stamp the draft sent and drop the invoice's other drafts. */
  function Dispatch(s: Books, i: string, draft: string, now: nat): Step
    requires draft in s.reminders
  {
    var sent := WithoutDrafts(s.reminders, i)[draft := s.reminders[draft].(sentAt := Some(now))];
    Step(Logged(s.(reminders := sent), "send_reminder", None), Done(None))
  }

  /** Send the draft while its figures are still the books'; else put today's letter in its place. */
  function SendOrRedraft(s: Books, i: string, draft: string, today: Letter, now: nat): Step
    requires draft in s.reminders
  {
    if today.subject != s.reminders[draft].subject || today.body != s.reminders[draft].body
    then Redraft(s, i, draft, today, now)
    else Dispatch(s, i, draft, now)
  }

  /** Why the draft is not the one to send: none, or another than the one the sender read. */
  ghost function WhyNotThisDraft(s: Books, i: string, named: Option<string>): (w: Option<Reason>)
    ensures w.None? ==> NewestDraft(s, i).Some? && (named.Some? ==> named == NewestDraft(s, i))
  {
    if named.Some? && named != NewestDraft(s, i) then Some(NotTheLetter)
    else if NewestDraft(s, i).None? then Some(NothingDrafted)
    else None
  }

  ghost function SendReminder(s: Books, i: string, named: Option<string>, now: nat): Step
    requires Keyed(s)
  {
    if i !in s.invoices then Step(s, Refused(NoSuchInvoice))
    else if WhyNotThisDraft(s, i, named).Some? then Step(s, Refused(WhyNotThisDraft(s, i, named).value))
    else if WhyNotWrite(s, i).Some? then Step(s, Refused(WhyNotWrite(s, i).value))
    else
      var draft := NewestDraft(s, i).value;
      SendOrRedraft(s, i, draft, LetterFor(RowOf(s, i), s.reminders[draft].tone), now)
  }

  // ----- undo -----

  datatype Verdicts = PutBack(books: Books) | RefusedUndo(why: Reason) | Threw

  function Restore(invoices: map<string, Invoice>, prior: seq<(string, string)>): map<string, Invoice> {
    if prior == [] then invoices
    else
      var before, last := Restore(invoices, prior[..|prior| - 1]), prior[|prior| - 1];
      if last.0 in before then before[last.0 := before[last.0].(category := last.1)] else before
  }

  ghost function ApplyUndo(s: Books, undo: Undo): Verdicts
    requires Keyed(s)
  {
    match undo
    case UndoCategorize(prior, to) =>
      if exists k :: 0 <= k < |prior| && prior[k].0 in s.invoices && s.invoices[prior[k].0].category != to then
        RefusedUndo(RefiledSince)
      else PutBack(s.(invoices := Restore(s.invoices, prior)))
    case UndoMatch(i, line, payment) =>
      if (i, line) !in s.matches || payment !in s.payments || s.payments[payment].invoice != i then
        RefusedUndo(NoLongerThere)
      else PutBack(Lift(s, i, line, payment))
    case UndoUnmatch(i, line, row, payment, lifted) =>
      if Applied(s, line) then RefusedUndo(AppliedElsewhere)
      else if i in s.invoices && lifted.amount > RowOf(s, i).balance then RefusedUndo(MoreThanOwed)
      else if payment in s.payments || i !in s.invoices || line !in s.lines then Threw
      else PutBack(Apply(s, i, line, row, payment, lifted))
    case UndoReminder(id) =>
      if id !in s.reminders then RefusedUndo(Replaced)
      else if s.reminders[id].sentAt.Some? then RefusedUndo(AlreadySent)
      else PutBack(s.(reminders := s.reminders - {id}))
  }

  /** The kit's half: the row must exist, be reversible and not yet undone; a refusal writes nothing. */
  ghost function UndoActivity(s: Books, n: nat): Step
    requires Keyed(s)
  {
    if n == 0 || n > |s.log| then Step(s, Refused(NoActivity))
    else if s.log[n - 1].undo.None? then Step(s, Refused(NotReversible))
    else if s.log[n - 1].undone then Step(s, Refused(AlreadyUndone))
    else
      match ApplyUndo(s, s.log[n - 1].undo.value)
      case Threw => Step(s, Aborted)
      case RefusedUndo(why) => Step(s, Refused(why))
      case PutBack(b) =>
        Step(Logged(b.(log := s.log[n - 1 := s.log[n - 1].(undone := true)]), "undo", None), Done(None))
  }

  // ----- runs -----

  datatype Act =
    | Match(invoice: string, line: string, actor: Actor, evidence: string)
    | Unapply(invoice: string, line: string)
    | Pay(invoice: string, amount: int)
    | WriteOff(invoice: string)
    | FileUnder(ids: seq<string>, category: string)
    | DraftLetter(invoice: string, tone: Tone)
    | SendLetter(invoice: string, named: Option<string>)
    | TakeBack(entry: nat)

  ghost function Perform(s: Books, act: Act, now: nat): Step
    requires Keyed(s)
  {
    match act
    case Match(i, l, actor, evidence) => MatchLine(s, i, l, actor, evidence, now)
    case Unapply(i, l) => Unmatch(s, i, l)
    case Pay(i, amount) => MarkPaid(s, i, amount, now)
    case WriteOff(i) => VoidInvoice(s, i)
    case FileUnder(ids, category) => Categorize(s, ids, category)
    case DraftLetter(i, tone) => DraftReminder(s, i, tone, now)
    case SendLetter(i, named) => SendReminder(s, i, named, now)
    case TakeBack(n) => UndoActivity(s, n)
  }
}
