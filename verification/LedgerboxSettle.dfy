/**
 Where the chase and the books meet: the credit a refused chase names can be applied, and what is
 then owed is exactly the shortfall the refusal stated.
 */
module LedgerboxSettle {
  import opened LedgerboxBooks
  import opened LedgerboxChase
  import opened LedgerboxInvariants
  import opened LedgerboxMatch
  import opened LedgerboxNaming
  import opened LedgerboxReconcile
  import opened LedgerboxSeed
  import opened LedgerboxTypes
  import opened LedgerboxUndo
  import opened Options
  import opened Tables

  lemma {:induction false} OpenMember(s: Books, order: seq<string>, inv: OpenInvoice)
    requires Keyed(s) && forall i :: i in order ==> i in s.invoices
    requires inv in OpenInvoices(s, order)
    ensures inv.id in order && TakesCredit(RowOf(s, inv.id)) && inv.input == ScoreInputOf(RowOf(s, inv.id))
  {
    if inv in OpenInvoices(s, order[..|order| - 1]) {
      OpenMember(s, order[..|order| - 1], inv);
    }
  }

  lemma {:induction false} PoolMember(s: Books, statement: seq<string>, line: BankLine)
    requires Keyed(s) && forall l :: l in statement ==> l in s.lines
    requires line in PoolLines(s, statement)
    ensures line.id in s.lines && s.lines[line.id] == line && !Applied(s, line.id)
  {
    if line in PoolLines(s, statement[..|statement| - 1]) {
      PoolMember(s, statement[..|statement| - 1], line);
    }
  }

  lemma OpenBalance(s: Books, inv: OpenInvoice)
    requires Keyed(s) && inv in OpenInvoices(s, s.dueOrder)
    ensures inv.id in s.invoices && TakesCredit(RowOf(s, inv.id)) && inv.input.balance == RowOf(s, inv.id).balance > 0
  {
    OpenMember(s, s.dueOrder, inv);
  }

  lemma BlockedOn(s: Books, i: string, credit: SettlingCredit)
    returns (line: BankLine, inv: OpenInvoice)
    requires Keyed(s) && StatementVerdict(s, i) == Blocked(credit)
    ensures line in PoolLines(s, s.statement) && line.direction == In && line.id == credit.line
            && line.amount == credit.amount
    ensures inv in OpenInvoices(s, s.dueOrder) && inv.id == i
    ensures inv.input.balance > 0 ==> StatesShort(inv.input.balance, credit.amount, credit.shortBy)
  {
    var credits := CreditsOf(s);
    var table := Reconciliation(credits, CreditSide(credits), map[i := InvoiceSide(credits, i)]);
    line, inv := BlockStatesItsShort(OpenInvoices(s, s.dueOrder), PoolLines(s, s.statement), table, i, credit);
  }

  /** A block names an unapplied incoming credit that fits this invoice's balance as a strong score means it. */
  lemma BlockedCreditFits(s: Books, i: string, credit: SettlingCredit)
    requires Keyed(s) && StatementVerdict(s, i) == Blocked(credit)
    ensures i in s.invoices && TakesCredit(RowOf(s, i))
    ensures credit.line in s.lines && !Applied(s, credit.line) && s.lines[credit.line].direction == In
    ensures s.lines[credit.line].amount == credit.amount
    ensures StatesShort(RowOf(s, i).balance, credit.amount, credit.shortBy)
  {
    var line, inv := BlockedOn(s, i, credit);
    PoolMember(s, s.statement, line);
    OpenBalance(s, inv);
  }

  /** With no payment row of the match's own name there, the named credit goes through and leaves the shortfall. */
  lemma BlockedCreditGoesThrough(s: Books, i: string, credit: SettlingCredit, actor: Actor, evidence: string, now: nat)
    requires Sound(s) && StatementVerdict(s, i) == Blocked(credit) && PaymentIdFor(credit.line) !in s.payments
    ensures var matched := MatchLine(s, i, credit.line, actor, evidence, now);
            && matched.answer.Done? && Keyed(matched.books) && i in matched.books.invoices
            && RowOf(matched.books, i).balance == if credit.shortBy.Some? then credit.shortBy.value else 0
  {
    BlockedCreditFits(s, i, credit);
    MatchKeepsSound(s, i, credit.line, actor, evidence, now);
    var row, p := Matched(s, i, credit.line, actor, evidence, now);
    TotalInsert(s.payments, PaymentIdFor(credit.line), p, PaidOn(i));
  }

  /**
   After every run from fresh books without a snag, when a chase of an invoice is blocked, applying the credit the
   block names succeeds, and then exactly the stated shortfall is owed: nothing when none is stated.
   */
  lemma BlockedCreditApplies(start: Books, acts: seq<(Act, nat)>, i: string, credit: SettlingCredit, actor: Actor,
                             evidence: string, now: nat)
    requires Fresh(start) && SnagFree(start) && StatementVerdict(After(start, acts), i) == Blocked(credit)
    ensures var matched := MatchLine(After(start, acts), i, credit.line, actor, evidence, now);
            && matched.answer.Done? && Keyed(matched.books) && i in matched.books.invoices
            && RowOf(matched.books, i).balance == if credit.shortBy.Some? then credit.shortBy.value else 0
  {
    BlockedCreditFits(After(start, acts), i, credit);
    RunsNeverAbortAMatch(start, acts, i, credit.line, actor, evidence, now);
    BlockedCreditGoesThrough(After(start, acts), i, credit, actor, evidence, now);
  }

  /** And so it does after every run from whatever the seed draws, when that has no snag. */
  lemma SeededCreditApplies(draws: seq<Draw>, acts: seq<(Act, nat)>,
                            i: string, credit: SettlingCredit, actor: Actor, evidence: string, now: nat)
    requires AllLegal(draws) && SnagFree(Seeded(draws))
    ensures Sound(Seeded(draws))
    ensures StatementVerdict(After(Seeded(draws), acts), i) == Blocked(credit) ==>
              var matched := MatchLine(After(Seeded(draws), acts), i, credit.line, actor, evidence, now);
              && matched.answer.Done? && Keyed(matched.books) && i in matched.books.invoices
              && RowOf(matched.books, i).balance == if credit.shortBy.Some? then credit.shortBy.value else 0
  {
    SeededIsFresh(draws);
    if StatementVerdict(After(Seeded(draws), acts), i) == Blocked(credit) {
      BlockedCreditApplies(Seeded(draws), acts, i, credit, actor, evidence, now);
    }
  }
}
