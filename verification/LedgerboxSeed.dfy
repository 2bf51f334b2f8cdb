/**
 Where every run of the books starts (`lib/seed.ts`): the rows the seed draws, one after another, and what any
 draws leave true.
 */
module LedgerboxSeed {
  import opened LedgerboxBooks
  import opened LedgerboxInvariants
  import opened LedgerboxNaming
  import opened LedgerboxTypes
  import Lists
  import opened Options
  import opened Tables
  import opened Texts

  /**
   One drawn row, with the rows that come with it: a payment brings the bank line behind it, and perhaps their
   match. `place` is where the query that lists the row puts it.
   */
  datatype Draw =
    | DrawClient(id: string, client: Client)
    | DrawInvoice(bill: Invoice, place: nat)
    | DrawLine(line: BankLine, place: nat)
    | DrawPayment(payment: string, invoice: string, means: string, note: string,
                  line: BankLine, place: nat, matched: Option<MatchRow>)
    | DrawReminder(id: string, invoice: string, tone: Tone, subject: string, body: string,
                   createdAt: Instant, sentAt: Option<Instant>)

  const EMPTY := Books(map[], map[], [], map[], [], map[], map[], map[], [])

  /** The names the seed gives payments: `pay_` and a number, or an instalment's. */
  predicate SeedName(payment: string) {
    || (|payment| > 4 && payment[..4] == "pay_" && IsDigit(payment[4]))
    || LateName(payment)
  }

  predicate LateName(payment: string) {
    "pay_solstice_" <= payment
  }

  /** New keys, references that exist, money that is not negative, and no invoice paid past its amount. */
  ghost predicate Legal(s: Books, d: Draw) {
    match d
    case DrawClient(id, _) => id !in s.clients
    case DrawInvoice(invoice, place) =>
      invoice.id !in s.invoices && invoice.client in s.clients && invoice.amount >= 0 && place <= |s.dueOrder|
    case DrawLine(line, place) => line.id !in s.lines && line.amount >= 0 && place <= |s.statement|
    case DrawPayment(payment, i, _, _, line, place, _) =>
      && payment !in s.payments && SeedName(payment) && i in s.invoices && s.invoices[i].status != Void
      && line.id !in s.lines && place <= |s.statement|
      && 0 <= line.amount <= s.invoices[i].amount - PaidCents(s.payments, i)
    case DrawReminder(id, i, _, _, _, _, _) =>
      id !in s.reminders && i in s.invoices && s.invoices[i].client in s.clients
  }

  function PaymentOf(d: Draw): Payment
    requires d.DrawPayment?
  {
    Payment(d.invoice, d.line.postedAt, d.line.amount, d.means, d.note)
  }

  ghost function Draws(s: Books, d: Draw): Books
    requires Legal(s, d)
  {
    match d
    case DrawClient(id, client) => s.(clients := s.clients[id := client])
    case DrawInvoice(invoice, place) =>
      s.(invoices := s.invoices[invoice.id := invoice], dueOrder := Lists.PutAt(s.dueOrder, place, invoice.id))
    case DrawLine(line, place) =>
      s.(lines := s.lines[line.id := line], statement := Lists.PutAt(s.statement, place, line.id))
    case DrawPayment(payment, i, _, _, line, place, matched) =>
      s.(lines := s.lines[line.id := line], statement := Lists.PutAt(s.statement, place, line.id),
         payments := s.payments[payment := PaymentOf(d)],
         matches := if matched.Some? then s.matches[(i, line.id) := matched.value] else s.matches)
    case DrawReminder(id, i, tone, subject, body, createdAt, sentAt) =>
      var to := s.clients[s.invoices[i].client].email;
      s.(reminders := s.reminders[id := Reminder(i, tone, to, subject, body, createdAt, sentAt)])
  }

  ghost predicate AllLegal(draws: seq<Draw>)
    decreases |draws|, 0
  {
    draws == [] || (AllLegal(draws[..|draws| - 1]) && Legal(Drawn(draws[..|draws| - 1]), draws[|draws| - 1]))
  }

  ghost function Drawn(draws: seq<Draw>): Books
    requires AllLegal(draws)
    decreases |draws|, 1
  {
    if draws == [] then EMPTY else Draws(Drawn(draws[..|draws| - 1]), draws[|draws| - 1])
  }

  /** The seeded books: what was drawn, and the one line that logs it. */
  ghost function Seeded(draws: seq<Draw>): Books
    requires AllLegal(draws)
  {
    Logged(Drawn(draws), "import_statement", None)
  }

  // ----- what each draw keeps -----

  /** No two matches stand on one row. */
  ghost predicate StandsApart(matches: map<(string, string), MatchRow>, stands: map<(string, string), string>) {
    forall j, k :: j in matches && k in matches && j in stands && k in stands && stands[j] == stands[k] ==> j == k
  }

  /** Each match has a payment row of its own, with its facts: `stands` says which. */
  ghost predicate StandsFor(lines: map<string, BankLine>, matches: map<(string, string), MatchRow>,
                            payments: map<string, Payment>, stands: map<(string, string), string>)
  {
    && (forall key :: key in matches ==>
          && key in stands && stands[key] in payments && key.1 in lines
          && IsFactPayment(payments[stands[key]], key.0, lines[key.1].postedAt, lines[key.1].amount))
    && StandsApart(matches, stands)
  }

  ghost predicate SeedNames(payments: map<string, Payment>) {
    forall p :: p in payments ==> SeedName(p)
  }

  ghost predicate Sown(s: Books, stands: map<(string, string), string>) {
    && Keyed(s) && OneInvoicePerLine(s) && NoNegativeMoney(s) && WithinAmount(s) && Addressed(s)
    && StandsFor(s.lines, s.matches, s.payments, stands) && SeedNames(s.payments) && s.log == []
  }

  lemma ClientSown(s: Books, stands: map<(string, string), string>, d: Draw)
    requires Sown(s, stands) && d.DrawClient? && Legal(s, d)
    ensures Sown(Draws(s, d), stands)
  {
  }

  lemma InvoiceShaped(s: Books, d: Draw)
    requires Keyed(s) && OneInvoicePerLine(s) && NoNegativeMoney(s) && Addressed(s) && d.DrawInvoice? && Legal(s, d)
    ensures var t := Draws(s, d); Keyed(t) && OneInvoicePerLine(t) && NoNegativeMoney(t) && Addressed(t)
  {
    Lists.PutAtKeeps(s.dueOrder, d.place, d.bill.id);
  }

  lemma InvoiceWithin(s: Books, d: Draw)
    requires Keyed(s) && WithinAmount(s) && d.DrawInvoice? && Legal(s, d)
    ensures WithinAmount(Draws(s, d))
  {
    TotalZeroOn(s.payments, d.bill.id);
  }

  lemma InvoiceSown(s: Books, stands: map<(string, string), string>, d: Draw)
    requires Sown(s, stands) && d.DrawInvoice? && Legal(s, d)
    ensures Sown(Draws(s, d), stands)
  {
    InvoiceShaped(s, d);
    InvoiceWithin(s, d);
  }

  /** Nothing is paid on an invoice no payment names. */
  lemma {:induction false} TotalZeroOn(payments: map<string, Payment>, i: string)
    requires forall p :: p in payments ==> payments[p].invoice != i
    ensures PaidCents(payments, i) == 0
    decreases |payments|
  {
    if payments == map[] {
    } else {
      TotalZeroOn(payments - {AnyKey(payments)}, i);
    }
  }

  lemma LineShaped(s: Books, line: BankLine, place: nat)
    requires Keyed(s) && OneInvoicePerLine(s) && NoNegativeMoney(s) && Addressed(s)
    requires line.id !in s.lines && line.amount >= 0 && place <= |s.statement|
    ensures var t := s.(lines := s.lines[line.id := line], statement := Lists.PutAt(s.statement, place, line.id));
            Keyed(t) && OneInvoicePerLine(t) && NoNegativeMoney(t) && Addressed(t)
  {
    Lists.PutAtKeeps(s.statement, place, line.id);
  }

  lemma LineSown(s: Books, stands: map<(string, string), string>, d: Draw)
    requires Sown(s, stands) && d.DrawLine? && Legal(s, d)
    ensures Sown(Draws(s, d), stands)
  {
    LineShaped(s, d.line, d.place);
    MoreStand(s.lines, s.matches, s.payments, stands, d.line);
  }

  lemma MoreStand(lines: map<string, BankLine>, matches: map<(string, string), MatchRow>,
                  payments: map<string, Payment>, stands: map<(string, string), string>, line: BankLine)
    requires StandsFor(lines, matches, payments, stands) && line.id !in lines
    ensures StandsFor(lines[line.id := line], matches, payments, stands)
  {
  }

  lemma PaidStand(lines: map<string, BankLine>, matches: map<(string, string), MatchRow>,
                  payments: map<string, Payment>, stands: map<(string, string), string>, payment: string, p: Payment)
    requires StandsFor(lines, matches, payments, stands) && payment !in payments
    ensures StandsFor(lines, matches, payments[payment := p], stands)
  {
  }

  /** A new match of a line nobody had matched stands on a payment nothing stood on. */
  lemma MatchedStand(lines: map<string, BankLine>, matches: map<(string, string), MatchRow>,
                     payments: map<string, Payment>, stands: map<(string, string), string>,
                     i: string, l: string, row: MatchRow, payment: string)
    requires StandsFor(lines, matches, payments, stands) && (i, l) !in matches
    requires forall key :: key in matches && key in stands ==> stands[key] != payment
    requires payment in payments && l in lines
             && IsFactPayment(payments[payment], i, lines[l].postedAt, lines[l].amount)
    ensures StandsFor(lines, matches[(i, l) := row], payments, stands[(i, l) := payment])
  {
  }

  lemma ReminderSown(s: Books, stands: map<(string, string), string>, d: Draw)
    requires Sown(s, stands) && d.DrawReminder? && Legal(s, d)
    ensures Sown(Draws(s, d), stands)
  {
  }

  lemma PaymentWithin(s: Books, d: Draw)
    requires Keyed(s) && WithinAmount(s) && d.DrawPayment? && Legal(s, d)
    ensures WithinAmount(Draws(s, d))
  {
    var p := PaymentOf(d);
    forall j
      ensures PaidCents(s.payments[d.payment := p], j) ==
              PaidCents(s.payments, j) + if j == d.invoice then p.amount else 0
    {
      TotalInsert(s.payments, d.payment, p, PaidOn(j));
    }
  }

  lemma PaymentShaped(s: Books, d: Draw)
    requires Keyed(s) && OneInvoicePerLine(s) && NoNegativeMoney(s) && Addressed(s) && d.DrawPayment? && Legal(s, d)
    ensures var t := Draws(s, d); Keyed(t) && OneInvoicePerLine(t) && NoNegativeMoney(t) && Addressed(t)
  {
    LineShaped(s, d.line, d.place);
  }

  lemma PaymentStands(s: Books, stands: map<(string, string), string>, d: Draw)
    requires Keyed(s) && StandsFor(s.lines, s.matches, s.payments, stands) && d.DrawPayment? && Legal(s, d)
    ensures var t := Draws(s, d);
            StandsFor(t.lines, t.matches, t.payments,
                      if d.matched.Some? then stands[(d.invoice, d.line.id) := d.payment] else stands)
  {
    var t := Draws(s, d);
    MoreStand(s.lines, s.matches, s.payments, stands, d.line);
    PaidStand(t.lines, s.matches, s.payments, stands, d.payment, t.payments[d.payment]);
    if d.matched.Some? {
      MatchedStand(t.lines, s.matches, t.payments, stands, d.invoice, d.line.id, d.matched.value, d.payment);
    }
  }

  lemma DrawSown(s: Books, stands: map<(string, string), string>, d: Draw)
    returns (after: map<(string, string), string>)
    requires Sown(s, stands) && Legal(s, d)
    ensures Sown(Draws(s, d), after)
  {
    after := stands;
    match d
    case DrawClient(_, _) => ClientSown(s, stands, d);
    case DrawInvoice(_, _) => InvoiceSown(s, stands, d);
    case DrawLine(_, _) => LineSown(s, stands, d);
    case DrawReminder(_, _, _, _, _, _, _) => ReminderSown(s, stands, d);
    case DrawPayment(payment, i, _, _, line, _, matched) =>
      PaymentWithin(s, d);
      PaymentShaped(s, d);
      PaymentStands(s, stands, d);
      after := if matched.Some? then stands[(i, line.id) := payment] else stands;
  }

  lemma {:induction false} AllSown(draws: seq<Draw>) returns (stands: map<(string, string), string>)
    requires AllLegal(draws)
    ensures Sown(Drawn(draws), stands)
  {
    if draws == [] {
      stands := map[];
    } else {
      var before := AllSown(draws[..|draws| - 1]);
      stands := DrawSown(Drawn(draws[..|draws| - 1]), before, draws[|draws| - 1]);
    }
  }

  // ----- sown books are sound -----

  lemma OneFewerStands(lines: map<string, BankLine>, matches: map<(string, string), MatchRow>,
                       payments: map<string, Payment>, stands: map<(string, string), string>, key: (string, string))
    requires StandsFor(lines, matches, payments, stands) && key in matches
    ensures StandsFor(lines, matches - {key}, payments - {stands[key]}, stands)
  {
  }

  /** A match for each payment it stands for: counted by any fact, no more matches than payments. */
  lemma {:induction false} StandingCounts(lines: map<string, BankLine>, matches: map<(string, string), MatchRow>,
                                          payments: map<string, Payment>, stands: map<(string, string), string>,
                                          i: string, day: Instant, cents: int)
    requires StandsFor(lines, matches, payments, stands)
    ensures Total(matches, MatchesFact(lines, i, day, cents)) <= Total(payments, PaysFact(i, day, cents))
    decreases |matches|
  {
    if matches == map[] {
      TotalNonNegative(payments, PaysFact(i, day, cents));
    } else {
      var key: (string, string) :| key in matches;
      TotalRemove(matches, key, MatchesFact(lines, i, day, cents));
      TotalRemove(payments, stands[key], PaysFact(i, day, cents));
      OneFewerStands(lines, matches, payments, stands, key);
      StandingCounts(lines, matches - {key}, payments - {stands[key]}, stands, i, day, cents);
    }
  }

  lemma SeedNameIsUnnamed(payment: string)
    requires SeedName(payment)
    ensures !Named(payment)
  {
    assert MATCH_PREFIX[4] == 'm';
    if LateName(payment) { assert payment[4] == "pay_solstice_"[4] == 's'; }
  }

  lemma SownIsSound(s: Books, stands: map<(string, string), string>)
    requires Sown(s, stands)
    ensures Sound(Logged(s, "import_statement", None))
  {
    forall i, day, cents
      ensures Total(s.matches, MatchesFact(s.lines, i, day, cents)) <= Total(s.payments, PaysFact(i, day, cents))
    {
      StandingCounts(s.lines, s.matches, s.payments, stands, i, day, cents);
    }
    forall p, l | p in s.payments && l in s.lines ensures p != PaymentIdFor(l) {
      SeedNameIsUnnamed(p);
    }
    assert Sound(s);
    LoggedKeepsSound(s, "import_statement", None);
  }

  /**
   Whatever the seed draws, the books it leaves satisfy the invariant every run keeps, and nothing has happened to
   them yet: no row bears a line's name, and nothing can be taken back.
   */
  lemma SeededIsFresh(draws: seq<Draw>)
    requires AllLegal(draws)
    ensures Fresh(Seeded(draws))
  {
    var stands := AllSown(draws);
    SownIsSound(Drawn(draws), stands);
    forall p | p in Drawn(draws).payments ensures !Named(p) { SeedNameIsUnnamed(p); }
  }

  // ----- what a fate draws -----

  /** How an invoice's story ends; `Part` is the share paid, in hundredths. */
  datatype Fate = InFull | Awaiting | Part(hundredths: nat) | PastDue | Unpaid | Contested | Scrapped | Unsent

  function StatusFor(fate: Fate): Status {
    match fate
    case Contested => Disputed
    case Scrapped => Void
    case Unsent => Draft
    case _ => Sent
  }

  /** `Math.round` of a quotient. */
  function Round(n: int, d: int): int
    requires d > 0
  {
    (2 * n + d) / (2 * d)
  }

  /** What the payment of a fate comes to: a share rounded to the cent, and then to the whole unit. */
  function FateCents(total: int, fate: Fate): Option<int> {
    match fate
    case InFull => Some(100 * Round(total, 100))
    case Part(share) => Some(100 * Round(Round(total * share, 100), 100))
    case Contested => Some(100 * Round(Round(total * 40, 100), 100))
    case _ => None
  }

  /** A total made of whole units is never paid past itself, and a void invoice is not paid at all. */
  lemma FatePaysWithin(total: int, fate: Fate)
    requires total >= 0 && total % 100 == 0 && (fate.Part? ==> fate.hundredths <= 100)
    ensures FateCents(total, fate).Some? ==> 0 <= FateCents(total, fate).value <= total && StatusFor(fate) != Void
    ensures fate == InFull ==> FateCents(total, fate) == Some(total)
  {
    match fate
    case InFull => WholeUnitsRound(total, total);
    case Part(share) => ShareWithin(total, share);
    case Contested => ShareWithin(total, 40);
    case _ =>
  }

  /** What a line item comes to: a quantity of a price drawn in steps of twenty-five units. */
  function ItemCents(item: (nat, nat)): int {
    item.0 * (item.1 * 2500)
  }

  /** So an invoice's total, the sum of its items, is made of whole units. */
  lemma {:induction false} TotalIsWholeUnits(items: seq<(nat, nat)>)
    ensures Lists.Sum(items, ItemCents) >= 0 && Lists.Sum(items, ItemCents) % 100 == 0
  {
    if items == [] {
    } else {
      TotalIsWholeUnits(items[..|items| - 1]);
      ItemIsWholeUnits(items[|items| - 1].0, items[|items| - 1].1);
    }
  }

  lemma ItemIsWholeUnits(quantity: nat, step: nat)
    ensures quantity * (step * 2500) == 100 * (25 * (quantity * step)) && quantity * step >= 0
  {
  }

  lemma WholeUnitsRound(x: int, total: int)
    requires 0 <= x <= total && total % 100 == 0
    ensures 0 <= 100 * Round(x, 100) <= total && (x == total ==> 100 * Round(x, 100) == total)
  {
  }

  lemma RoundsToUnits(units: int)
    ensures Round(100 * units, 100) == units
  {
  }

  lemma ShareWithin(total: int, share: nat)
    requires total >= 0 && total % 100 == 0 && share <= 100
    ensures 0 <= 100 * Round(Round(total * share, 100), 100) <= total
  {
    var units := total / 100;
    Regroup(units, share);
    RoundsToUnits(units * share);
    ProductWithin(units, share);
    WholeUnitsRound(units * share, total);
  }

  lemma Regroup(units: int, share: int)
    ensures (100 * units) * share == 100 * (units * share)
  {
  }

  lemma ProductWithin(units: int, share: nat)
    requires units >= 0 && share <= 100
    ensures 0 <= units * share <= 100 * units
  {
  }

  /** The payment a fate draws on an invoice just drawn is legal: nothing is on the invoice yet. */
  lemma FateIsLegal(s: Books, stands: map<(string, string), string>, invoice: Invoice, fate: Fate, place: nat, d: Draw)
    requires Sown(s, stands) && Legal(s, DrawInvoice(invoice, place))
    requires invoice.amount % 100 == 0 && invoice.status == StatusFor(fate) && (fate.Part? ==> fate.hundredths <= 100)
    requires d.DrawPayment? && d.invoice == invoice.id && FateCents(invoice.amount, fate) == Some(d.line.amount)
    requires SeedName(d.payment) && d.payment !in s.payments && d.line.id !in s.lines && d.place <= |s.statement|
    ensures Legal(Draws(s, DrawInvoice(invoice, place)), d)
  {
    FatePaysWithin(invoice.amount, fate);
    TotalZeroOn(s.payments, invoice.id);
  }

  /** One of the two instalments, as a draw: its name, its amount, and a line of its own. */
  predicate IsInstalment(s: Books, d: Draw, bill: string, payment: string, cents: int) {
    && d.DrawPayment? && d.payment == payment && d.invoice == bill && d.line.amount == cents
    && payment !in s.payments && d.line.id !in s.lines && d.place <= |s.statement|
  }

  /** Both instalments are legal: together they come to four fifths of the retainer. */
  lemma InstalmentsAreLegal(s: Books, stands: map<(string, string), string>, bill: Invoice, place: nat, d: Draw,
                            e: Draw)
    requires Sown(s, stands) && Legal(s, DrawInvoice(bill, place)) && bill.amount == 1250000 && bill.status == Sent
    requires IsInstalment(s, d, bill.id, "pay_solstice_1", 625000)
    requires IsInstalment(s, e, bill.id, "pay_solstice_2", 375000) && e.line.id != d.line.id
    ensures Legal(Draws(s, DrawInvoice(bill, place)), d)
    ensures var t := Draws(Draws(s, DrawInvoice(bill, place)), d);
            Legal(t, e) && PaidCents(t.payments, bill.id) == 625000
            && PaidCents(Draws(t, e).payments, bill.id) == 1000000
  {
    var one := Draws(s, DrawInvoice(bill, place));
    TotalZeroOn(s.payments, bill.id);
    TotalInsert(one.payments, d.payment, PaymentOf(d), PaidOn(bill.id));
    assert "pay_solstice_1"[13] != "pay_solstice_2"[13];
    TotalInsert(Draws(one, d).payments, e.payment, PaymentOf(e), PaidOn(bill.id));
  }
}
