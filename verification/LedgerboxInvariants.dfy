/**
 What every run of the books keeps: a bank line pays one invoice, an invoice is never paid past its
 amount, a void invoice holds no money, and every match has its money. Only the actions and the
 undos keep this; the schema does not.
 */
module LedgerboxInvariants {
  import opened LedgerboxBooks
  import opened LedgerboxTypes
  import opened LedgerboxReminder
  import opened Options
  import opened Tables
  import opened Texts

  // ----- the invariant -----

  ghost predicate OneInvoicePerLine(s: Books) {
    forall i, j, l :: (i, l) in s.matches && (j, l) in s.matches ==> i == j
  }

  ghost predicate NoNegativeMoney(s: Books) {
    && (forall l :: l in s.lines ==> s.lines[l].amount >= 0)
    && (forall p :: p in s.payments ==> s.payments[p].amount >= 0)
  }

  ghost predicate WithinAmount(s: Books) {
    forall i :: i in s.invoices ==>
      && 0 <= PaidCents(s.payments, i) <= (if s.invoices[i].status == Void then 0 else s.invoices[i].amount)
  }

  /** One fact is an invoice, a day and an amount: what a match and its payment have in common. */
  function PaysFact(i: string, day: Instant, cents: int): (string, Payment) -> int {
    (id: string, p: Payment) => if IsFactPayment(p, i, day, cents) then 1 else 0
  }

  function MatchesFact(lines: map<string, BankLine>, i: string, day: Instant, cents: int)
    : ((string, string), MatchRow) -> int
  {
    (key: (string, string), row: MatchRow) =>
      if key.0 == i && key.1 in lines && lines[key.1].postedAt == day && lines[key.1].amount == cents then 1 else 0
  }

  ghost predicate EveryMatchIsPaid(s: Books) {
    forall i, day, cents ::
      Total(s.matches, MatchesFact(s.lines, i, day, cents)) <= Total(s.payments, PaysFact(i, day, cents))
  }

  /** A payment named after a line carries that line's day and amount. */
  ghost predicate Honest(s: Books, payment: string, p: Payment) {
    forall l :: l in s.lines && payment == PaymentIdFor(l) ==>
      p.paidAt == s.lines[l].postedAt && p.amount == s.lines[l].amount
  }

  ghost predicate HonestNames(s: Books) {
    forall id :: id in s.payments ==> Honest(s, id, s.payments[id])
  }

  ghost predicate SoundUndo(s: Books, undo: Undo) {
    match undo
    case UndoMatch(i, l, payment) => i in s.invoices && l in s.lines && payment == PaymentIdFor(l)
    case UndoUnmatch(i, l, row, payment, p) =>
      && i in s.invoices && l in s.lines
      && IsFactPayment(p, i, s.lines[l].postedAt, s.lines[l].amount)
      && Honest(s, payment, p)
    case _ => true
  }

  ghost predicate SoundLog(s: Books) {
    forall k :: 0 <= k < |s.log| && s.log[k].undo.Some? ==> SoundUndo(s, s.log[k].undo.value)
  }

  /** Unsent drafts are addressed to the invoice's client. */
  ghost predicate Addressed(s: Books)
    requires Keyed(s)
  {
    forall r :: r in s.reminders && s.reminders[r].sentAt.None? ==>
      s.reminders[r].recipient == s.clients[s.invoices[s.reminders[r].invoice].client].email
  }

  ghost predicate Sound(s: Books) {
    && Keyed(s) && OneInvoicePerLine(s) && NoNegativeMoney(s) && WithinAmount(s)
    && EveryMatchIsPaid(s) && HonestNames(s) && SoundLog(s) && Addressed(s)
  }

  // ----- applying and lifting a credit -----

  lemma ApplyKeepsCounts(s: Books, i: string, l: string, row: MatchRow, payment: string, p: Payment, j: string,
                         day: Instant, cents: int)
    requires l in s.lines && (i, l) !in s.matches && payment !in s.payments
    requires IsFactPayment(p, i, s.lines[l].postedAt, s.lines[l].amount)
    requires Total(s.matches, MatchesFact(s.lines, j, day, cents)) <= Total(s.payments, PaysFact(j, day, cents))
    ensures var t := Apply(s, i, l, row, payment, p);
            Total(t.matches, MatchesFact(s.lines, j, day, cents)) <= Total(t.payments, PaysFact(j, day, cents))
  {
    TotalInsert(s.matches, (i, l), row, MatchesFact(s.lines, j, day, cents));
    TotalInsert(s.payments, payment, p, PaysFact(j, day, cents));
  }

  lemma ApplyKeepsWithin(s: Books, i: string, l: string, row: MatchRow, payment: string, p: Payment)
    requires Keyed(s) && WithinAmount(s) && i in s.invoices && payment !in s.payments
    requires p.invoice == i && 0 <= p.amount <= RowOf(s, i).balance
    ensures WithinAmount(Apply(s, i, l, row, payment, p))
    ensures PaidCents(s.payments[payment := p], i) == PaidCents(s.payments, i) + p.amount
  {
    forall j
      ensures PaidCents(s.payments[payment := p], j) == PaidCents(s.payments, j) + if j == i then p.amount else 0
    {
      TotalInsert(s.payments, payment, p, PaidOn(j));
    }
  }

  lemma ApplyKeepsPaid(s: Books, i: string, l: string, row: MatchRow, payment: string, p: Payment)
    requires EveryMatchIsPaid(s) && l in s.lines && (i, l) !in s.matches && payment !in s.payments
    requires IsFactPayment(p, i, s.lines[l].postedAt, s.lines[l].amount)
    ensures EveryMatchIsPaid(Apply(s, i, l, row, payment, p))
  {
    var t := Apply(s, i, l, row, payment, p);
    forall j, day, cents
      ensures Total(t.matches, MatchesFact(t.lines, j, day, cents)) <= Total(t.payments, PaysFact(j, day, cents))
    {
      ApplyKeepsCounts(s, i, l, row, payment, p, j, day, cents);
    }
  }

  /** The log is judged by the invoices and lines that exist, not by what is paid. */
  lemma LogFrame(s: Books, t: Books)
    requires SoundLog(s) && t.log == s.log && t.lines == s.lines && t.invoices.Keys == s.invoices.Keys
    ensures SoundLog(t)
  {
    forall k | 0 <= k < |t.log| && t.log[k].undo.Some? ensures SoundUndo(t, t.log[k].undo.value) {
      assert SoundUndo(s, s.log[k].undo.value);
    }
  }

  /** What holds of the money holds of any books with the same lines, invoices, matches and payments. */
  lemma MoneyFrame(s: Books, t: Books)
    requires OneInvoicePerLine(s) && NoNegativeMoney(s) && WithinAmount(s) && EveryMatchIsPaid(s) && HonestNames(s)
    requires t.lines == s.lines && t.invoices == s.invoices && t.matches == s.matches && t.payments == s.payments
    ensures OneInvoicePerLine(t) && NoNegativeMoney(t) && WithinAmount(t) && EveryMatchIsPaid(t) && HonestNames(t)
  {
    forall i, day, cents
      ensures Total(t.matches, MatchesFact(t.lines, i, day, cents)) <= Total(t.payments, PaysFact(i, day, cents))
    {
      assert Total(s.matches, MatchesFact(s.lines, i, day, cents)) <= Total(s.payments, PaysFact(i, day, cents));
    }
    forall id | id in t.payments ensures Honest(t, id, t.payments[id]) { assert Honest(s, id, s.payments[id]); }
  }

  lemma ApplyKeepsShape(s: Books, i: string, l: string, row: MatchRow, payment: string, p: Payment)
    requires Sound(s) && i in s.invoices && l in s.lines && !Applied(s, l)
    requires p.invoice == i && p.amount >= 0 && Honest(s, payment, p)
    ensures var t := Apply(s, i, l, row, payment, p);
            Keyed(t) && OneInvoicePerLine(t) && NoNegativeMoney(t) && HonestNames(t) && Addressed(t)
  {
  }

  lemma ApplyKeepsSound(s: Books, i: string, l: string, row: MatchRow, payment: string, p: Payment)
    requires Sound(s) && i in s.invoices && l in s.lines && !Applied(s, l) && payment !in s.payments
    requires IsFactPayment(p, i, s.lines[l].postedAt, s.lines[l].amount) && Honest(s, payment, p)
    requires p.amount <= RowOf(s, i).balance
    ensures Sound(Apply(s, i, l, row, payment, p))
    ensures PaidCents(s.payments[payment := p], i) == PaidCents(s.payments, i) + p.amount
  {
    ApplyKeepsShape(s, i, l, row, payment, p);
    ApplyKeepsWithin(s, i, l, row, payment, p);
    ApplyKeepsPaid(s, i, l, row, payment, p);
    LogFrame(s, Apply(s, i, l, row, payment, p));
  }

  lemma LiftKeepsCounts(s: Books, i: string, l: string, payment: string, j: string, day: Instant, cents: int)
    requires l in s.lines && (i, l) in s.matches && payment in s.payments
    requires IsFactPayment(s.payments[payment], i, s.lines[l].postedAt, s.lines[l].amount)
    requires Total(s.matches, MatchesFact(s.lines, j, day, cents)) <= Total(s.payments, PaysFact(j, day, cents))
    ensures var t := Lift(s, i, l, payment);
            Total(t.matches, MatchesFact(s.lines, j, day, cents)) <= Total(t.payments, PaysFact(j, day, cents))
  {
    TotalRemove(s.matches, (i, l), MatchesFact(s.lines, j, day, cents));
    TotalRemove(s.payments, payment, PaysFact(j, day, cents));
  }

  lemma LiftKeepsWithin(s: Books, i: string, l: string, payment: string)
    requires NoNegativeMoney(s) && WithinAmount(s) && payment in s.payments && s.payments[payment].invoice == i
    ensures WithinAmount(Lift(s, i, l, payment))
    ensures PaidCents(s.payments - {payment}, i) == PaidCents(s.payments, i) - s.payments[payment].amount
  {
    forall j
      ensures PaidCents(s.payments - {payment}, j) ==
              PaidCents(s.payments, j) - if j == i then s.payments[payment].amount else 0
      ensures PaidCents(s.payments - {payment}, j) >= 0
    {
      TotalRemove(s.payments, payment, PaidOn(j));
      TotalNonNegative(s.payments - {payment}, PaidOn(j));
    }
  }

  lemma LiftKeepsPaid(s: Books, i: string, l: string, payment: string)
    requires EveryMatchIsPaid(s) && l in s.lines && (i, l) in s.matches && payment in s.payments
    requires IsFactPayment(s.payments[payment], i, s.lines[l].postedAt, s.lines[l].amount)
    ensures EveryMatchIsPaid(Lift(s, i, l, payment))
  {
    var t := Lift(s, i, l, payment);
    forall j, day, cents
      ensures Total(t.matches, MatchesFact(t.lines, j, day, cents)) <= Total(t.payments, PaysFact(j, day, cents))
    {
      LiftKeepsCounts(s, i, l, payment, j, day, cents);
    }
  }

  lemma LiftKeepsShape(s: Books, i: string, l: string, payment: string)
    requires Sound(s)
    ensures var t := Lift(s, i, l, payment);
            Keyed(t) && OneInvoicePerLine(t) && NoNegativeMoney(t) && HonestNames(t) && Addressed(t)
  {
    var t := Lift(s, i, l, payment);
    forall id | id in t.payments ensures Honest(t, id, t.payments[id]) {
      assert Honest(s, id, s.payments[id]);
    }
  }

  lemma LiftKeepsSound(s: Books, i: string, l: string, payment: string)
    requires Sound(s) && (i, l) in s.matches && payment in s.payments
    requires IsFactPayment(s.payments[payment], i, s.lines[l].postedAt, s.lines[l].amount)
    ensures Sound(Lift(s, i, l, payment))
    ensures PaidCents(s.payments - {payment}, i) == PaidCents(s.payments, i) - s.payments[payment].amount
  {
    LiftKeepsShape(s, i, l, payment);
    LiftKeepsWithin(s, i, l, payment);
    LiftKeepsPaid(s, i, l, payment);
    LogFrame(s, Lift(s, i, l, payment));
  }

  // ----- each action -----

  lemma LoggedKeepsSound(s: Books, action: string, undo: Option<Undo>)
    requires Sound(s) && (undo.Some? ==> SoundUndo(s, undo.value))
    ensures Sound(Logged(s, action, undo))
  {
    var t := Logged(s, action, undo);
    MoneyFrame(s, t);
    forall k | 0 <= k < |t.log| && t.log[k].undo.Some? ensures SoundUndo(t, t.log[k].undo.value) {
      if k < |s.log| { assert SoundUndo(s, s.log[k].undo.value); }
    }
  }

  lemma NamesApart(l: string, m: string)
    requires PaymentIdFor(l) == PaymentIdFor(m)
    ensures l == m
  {
    assert PaymentIdFor(l)[|"pay_match_"|..] == l;
    assert PaymentIdFor(m)[|"pay_match_"|..] == m;
  }

  lemma MatchKeepsSound(s: Books, i: string, l: string, actor: Actor, evidence: string, now: nat)
    requires Sound(s)
    ensures Sound(MatchLine(s, i, l, actor, evidence, now).books)
  {
    if MatchLine(s, i, l, actor, evidence, now).answer.Done? {
      var b := s.lines[l];
      var p := Payment(i, b.postedAt, b.amount, "transfer", "Reconciled from " + b.sourceFile + ".");
      forall m | m in s.lines && PaymentIdFor(l) == PaymentIdFor(m) ensures m == l {
        NamesApart(l, m);
      }
      ApplyKeepsSound(s, i, l, MatchRow(now, actor, evidence), PaymentIdFor(l), p);
      LoggedKeepsSound(Apply(s, i, l, MatchRow(now, actor, evidence), PaymentIdFor(l), p), "match_bank_line",
                       Some(UndoMatch(i, l, PaymentIdFor(l))));
    }
  }

  /** In a sound state a match always has a payment with its facts, and unmatch finds one. */
  lemma MatchHasItsPayment(s: Books, i: string, l: string)
    requires Sound(s) && (i, l) in s.matches
    ensures PaymentForMatch(s, i, s.lines[l]).Some?
    ensures var payment := PaymentForMatch(s, i, s.lines[l]).value;
            payment in s.payments && IsFactPayment(s.payments[payment], i, s.lines[l].postedAt, s.lines[l].amount)
  {
    var b := s.lines[l];
    TotalBounds(s.matches, (i, l), MatchesFact(s.lines, i, b.postedAt, b.amount));
    var row := TotalWitness(s.payments, PaysFact(i, b.postedAt, b.amount));
    assert row in FactPayments(s.payments, i, b.postedAt, b.amount);
    var named := PaymentIdFor(b.id);
    if named in s.payments && s.payments[named].invoice == i {
      assert Honest(s, named, s.payments[named]);
    } else {
      var rows := FactPayments(s.payments, i, b.postedAt, b.amount);
      assert First(rows) in rows;
    }
  }

  lemma UnmatchKeepsSound(s: Books, i: string, l: string)
    requires Sound(s)
    ensures Sound(Unmatch(s, i, l).books)
    ensures Unmatch(s, i, l).answer != Refused(NoPayment)
  {
    if i in s.invoices && (i, l) in s.matches {
      MatchHasItsPayment(s, i, l);
      var payment := PaymentForMatch(s, i, s.lines[l]).value;
      LiftKeepsSound(s, i, l, payment);
      assert Honest(s, payment, s.payments[payment]);
      var undo := UndoUnmatch(i, l, s.matches[(i, l)], payment, s.payments[payment]);
      LoggedKeepsSound(Lift(s, i, l, payment), "unmatch", Some(undo));
    }
  }

  lemma ManualIsNotNamed(i: string, now: nat, l: string)
    ensures ManualIdFor(i, now) != PaymentIdFor(l)
  {
    assert ManualIdFor(i, now)[6] == 'n';
    assert PaymentIdFor(l)[6] == 't';
  }

  lemma PayingKeepsTotals(s: Books, i: string, id: string, p: Payment)
    requires Sound(s) && i in s.invoices && id !in s.payments
    requires p.invoice == i && 0 <= p.amount <= RowOf(s, i).balance
    ensures var t := s.(payments := s.payments[id := p]);
            WithinAmount(t) && EveryMatchIsPaid(t)
  {
    var t := s.(payments := s.payments[id := p]);
    forall j ensures PaidCents(t.payments, j) == PaidCents(s.payments, j) + if j == i then p.amount else 0 {
      TotalInsert(s.payments, id, p, PaidOn(j));
    }
    forall j, day, cents
      ensures Total(t.matches, MatchesFact(t.lines, j, day, cents)) <= Total(t.payments, PaysFact(j, day, cents))
    {
      TotalInsert(s.payments, id, p, PaysFact(j, day, cents));
    }
  }

  lemma PayingKeepsSound(s: Books, i: string, id: string, p: Payment)
    requires Sound(s) && i in s.invoices && id !in s.payments
    requires p.invoice == i && 0 <= p.amount <= RowOf(s, i).balance
    requires forall l :: l in s.lines ==> id != PaymentIdFor(l)
    ensures Sound(s.(payments := s.payments[id := p]))
  {
    PayingKeepsTotals(s, i, id, p);
    PayingKeepsShape(s, i, id, p);
    LogFrame(s, s.(payments := s.payments[id := p]));
  }

  lemma PayingKeepsShape(s: Books, i: string, id: string, p: Payment)
    requires Keyed(s) && OneInvoicePerLine(s) && NoNegativeMoney(s) && HonestNames(s) && Addressed(s)
    requires i in s.invoices && p.invoice == i && 0 <= p.amount && forall l :: l in s.lines ==> id != PaymentIdFor(l)
    ensures var t := s.(payments := s.payments[id := p]);
            Keyed(t) && OneInvoicePerLine(t) && NoNegativeMoney(t) && HonestNames(t) && Addressed(t)
  {
    var t := s.(payments := s.payments[id := p]);
    forall x | x in t.payments ensures Honest(t, x, t.payments[x]) {
      if x != id { assert Honest(s, x, s.payments[x]); }
    }
  }

  lemma MarkPaidCases(s: Books, i: string, amount: int, now: nat)
    requires Keyed(s)
    ensures var id, p := ManualIdFor(i, now), Payment(i, now, amount, "transfer", BY_HAND);
            || (MarkPaid(s, i, amount, now).books == s && !MarkPaid(s, i, amount, now).answer.Done?)
            || (id !in s.payments && amount > 0
                && MarkPaid(s, i, amount, now).books == Logged(s.(payments := s.payments[id := p]), "mark_paid", None))
  {
  }

  lemma MarkPaidKeepsSound(s: Books, i: string, amount: int, now: nat)
    requires Sound(s)
    ensures Sound(MarkPaid(s, i, amount, now).books)
  {
    if MarkPaid(s, i, amount, now).answer.Done? {
      var id, p := ManualIdFor(i, now), Payment(i, now, amount, "transfer", BY_HAND);
      forall l | l in s.lines ensures id != PaymentIdFor(l) {
        ManualIsNotNamed(i, now, l);
      }
      PayingKeepsSound(s, i, id, p);
      LoggedKeepsSound(s.(payments := s.payments[id := p]), "mark_paid", None);
    }
  }

  lemma VoidingKeepsShape(s: Books, i: string)
    requires Sound(s) && i in s.invoices
    ensures var t := s.(invoices := s.invoices[i := s.invoices[i].(status := Void)]);
            Keyed(t) && NoNegativeMoney(t) && HonestNames(t) && EveryMatchIsPaid(t) && Addressed(t)
  {
  }

  lemma VoidKeepsSound(s: Books, i: string)
    requires Sound(s)
    ensures Sound(VoidInvoice(s, i).books)
  {
    if VoidInvoice(s, i).answer.Done? {
      var t := s.(invoices := s.invoices[i := s.invoices[i].(status := Void)]);
      VoidingKeepsShape(s, i);
      LogFrame(s, t);
      LoggedKeepsSound(t, "void_invoice", None);
    }
  }

  lemma {:induction false} FileTouchesCategories(invoices: map<string, Invoice>, targets: seq<string>, to: string)
    ensures var filed := File(invoices, targets, to).invoices;
            && filed.Keys == invoices.Keys
            && forall i :: i in invoices ==>
                 filed[i] == if i in targets then invoices[i].(category := to) else invoices[i]
  {
    if targets == [] {
    } else {
      FileTouchesCategories(invoices, targets[..|targets| - 1], to);
      assert targets == targets[..|targets| - 1] + [targets[|targets| - 1]];
    }
  }

  lemma {:induction false} RestoreTouchesCategories(invoices: map<string, Invoice>, prior: seq<(string, string)>)
    ensures var restored := Restore(invoices, prior);
            && restored.Keys == invoices.Keys
            && forall i :: i in invoices ==> restored[i] == invoices[i].(category := restored[i].category)
  {
    if prior == [] {
    } else {
      RestoreTouchesCategories(invoices, prior[..|prior| - 1]);
    }
  }

  /** Changing categories alone changes nothing the invariant reads. */
  lemma RefilingKeepsSound(s: Books, refiled: map<string, Invoice>)
    requires Sound(s)
    requires refiled.Keys == s.invoices.Keys
    requires forall i :: i in s.invoices ==> refiled[i] == s.invoices[i].(category := refiled[i].category)
    ensures Sound(s.(invoices := refiled))
  {
    var t := s.(invoices := refiled);
    LogFrame(s, t);
    forall i | i in refiled
      ensures refiled[i].id == s.invoices[i].id && refiled[i].client == s.invoices[i].client
      ensures refiled[i].amount == s.invoices[i].amount && refiled[i].status == s.invoices[i].status
    {
    }
  }

  lemma CategorizeKeepsSound(s: Books, ids: seq<string>, to: string)
    requires Sound(s)
    ensures Sound(Categorize(s, ids, to).books)
  {
    var filing := File(s.invoices, Targets(ids), to);
    FileTouchesCategories(s.invoices, Targets(ids), to);
    RefilingKeepsSound(s, filing.invoices);
    LoggedKeepsSound(s.(invoices := filing.invoices), "categorize", Some(UndoCategorize(filing.prior, to)));
  }

  lemma RemindersKeepSound(s: Books, reminders: map<string, Reminder>)
    requires Sound(s)
    requires forall r :: r in reminders ==> reminders[r].invoice in s.invoices
    requires forall r :: r in reminders && reminders[r].sentAt.None? ==>
               reminders[r].recipient == s.clients[s.invoices[reminders[r].invoice].client].email
    ensures Sound(s.(reminders := reminders))
  {
    var t := s.(reminders := reminders);
    MoneyFrame(s, t);
    LogFrame(s, t);
  }

  lemma PutDraftKeepsSound(s: Books, i: string, tone: Tone, letter: Letter, now: nat)
    requires Sound(s) && i in s.invoices && letter.to == s.clients[s.invoices[i].client].email
    ensures Sound(PutDraft(s, i, tone, letter, now).books)
  {
    var id := ReminderIdFor(i, now);
    var reminders := s.reminders[id := DraftOf(i, tone, letter, now)];
    RemindersKeepSound(s, reminders);
    LoggedKeepsSound(s.(reminders := reminders), "draft_reminder", Some(UndoReminder(id)));
  }

  lemma LetterGoesToClient(s: Books, i: string, tone: Tone)
    requires Keyed(s) && i in s.invoices
    ensures LetterFor(RowOf(s, i), tone).to == s.clients[s.invoices[i].client].email
  {
  }

  lemma DraftCases(s: Books, i: string, tone: Tone, now: nat)
    requires Keyed(s)
    ensures || DraftReminder(s, i, tone, now).books == s
            || (i in s.invoices
                && DraftReminder(s, i, tone, now) == PutDraft(s, i, tone, LetterFor(RowOf(s, i), tone), now))
  {
  }

  lemma DraftKeepsSound(s: Books, i: string, tone: Tone, now: nat)
    requires Sound(s)
    ensures Sound(DraftReminder(s, i, tone, now).books)
  {
    var t := DraftReminder(s, i, tone, now).books;
    DraftCases(s, i, tone, now);
    if t != s {
      PutLetterKeepsSound(s, i, tone, now);
    }
  }

  lemma PutLetterKeepsSound(s: Books, i: string, tone: Tone, now: nat)
    requires Sound(s) && i in s.invoices
    ensures Sound(PutDraft(s, i, tone, LetterFor(RowOf(s, i), tone), now).books)
  {
    LetterGoesToClient(s, i, tone);
    PutDraftKeepsSound(s, i, tone, LetterFor(RowOf(s, i), tone), now);
  }

  lemma RedraftKeepsSound(s: Books, i: string, stale: string, letter: Letter, now: nat)
    requires Sound(s) && i in s.invoices && stale in s.reminders
    requires letter.to == s.clients[s.invoices[i].client].email
    ensures Sound(Redraft(s, i, stale, letter, now).books)
  {
    var id := ReminderIdFor(i, now) + "_r";
    var left := s.reminders - {stale};
    if id !in left {
      var reminders := left[id := DraftOf(i, s.reminders[stale].tone, letter, now)];
      RemindersKeepSound(s, reminders);
      LoggedKeepsSound(s.(reminders := reminders), "draft_reminder", Some(UndoReminder(id)));
    }
  }

  lemma DispatchKeepsSound(s: Books, i: string, draft: string, now: nat)
    requires Sound(s) && draft in s.reminders
    ensures Sound(Dispatch(s, i, draft, now).books)
  {
    var sent := WithoutDrafts(s.reminders, i)[draft := s.reminders[draft].(sentAt := Some(now))];
    RemindersKeepSound(s, sent);
    LoggedKeepsSound(s.(reminders := sent), "send_reminder", None);
  }

  lemma SendCases(s: Books, i: string, named: Option<string>, now: nat)
    requires Keyed(s)
    ensures || (SendReminder(s, i, named, now).books == s && SendReminder(s, i, named, now).answer.Refused?)
            || (i in s.invoices && NewestDraft(s, i).Some? && (named.Some? ==> named == NewestDraft(s, i))
                && SendReminder(s, i, named, now) ==
                   SendOrRedraft(s, i, NewestDraft(s, i).value,
                                 LetterFor(RowOf(s, i), s.reminders[NewestDraft(s, i).value].tone), now))
  {
  }

  lemma SendOrRedraftKeepsSound(s: Books, i: string, draft: string, today: Letter, now: nat)
    requires Sound(s) && i in s.invoices && draft in s.reminders
    requires today.to == s.clients[s.invoices[i].client].email
    ensures Sound(SendOrRedraft(s, i, draft, today, now).books)
  {
    RedraftKeepsSound(s, i, draft, today, now);
    DispatchKeepsSound(s, i, draft, now);
  }

  lemma SendKeepsSound(s: Books, i: string, named: Option<string>, now: nat)
    requires Sound(s)
    ensures Sound(SendReminder(s, i, named, now).books)
  {
    SendCases(s, i, named, now);
    if i in s.invoices && NewestDraft(s, i).Some? {
      var d := NewestDraft(s, i).value;
      var today := LetterFor(RowOf(s, i), s.reminders[d].tone);
      LetterGoesToClient(s, i, s.reminders[d].tone);
      SendOrRedraftKeepsSound(s, i, d, today, now);
    }
  }

  lemma ApplyUndoKeepsSound(s: Books, undo: Undo)
    requires Sound(s) && SoundUndo(s, undo)
    ensures ApplyUndo(s, undo).PutBack? ==> Sound(ApplyUndo(s, undo).books)
  {
    match undo
    case UndoCategorize(prior, to) =>
      RestoreTouchesCategories(s.invoices, prior);
      RefilingKeepsSound(s, Restore(s.invoices, prior));
    case UndoMatch(i, l, payment) =>
      if ApplyUndo(s, undo).PutBack? {
        assert Honest(s, payment, s.payments[payment]);
        LiftKeepsSound(s, i, l, payment);
      }
    case UndoUnmatch(i, l, row, payment, p) =>
      if ApplyUndo(s, undo).PutBack? {
        ApplyKeepsSound(s, i, l, row, payment, p);
      }
    case UndoReminder(id) =>
      RemindersKeepSound(s, s.reminders - {id});
  }

  /** Row `n` carries an undo not yet taken, and its reversal goes through. */
  ghost predicate Taken(s: Books, n: nat)
    requires Keyed(s)
  {
    && 0 < n <= |s.log| && s.log[n - 1].undo.Some? && !s.log[n - 1].undone
    && ApplyUndo(s, s.log[n - 1].undo.value).PutBack?
  }

  function MarkUndone(log: seq<Entry>, n: nat): seq<Entry>
    requires 0 < n <= |log|
  {
    log[n - 1 := log[n - 1].(undone := true)]
  }

  /** An undo that is not taken changes nothing; one that is writes its reversal, the mark and a line. */
  lemma UndoCases(s: Books, n: nat)
    requires Keyed(s)
    ensures UndoActivity(s, n).books ==
            if Taken(s, n)
            then Logged(ApplyUndo(s, s.log[n - 1].undo.value).books.(log := MarkUndone(s.log, n)), "undo", None)
            else s
  {
  }

  lemma ReversalKeepsLog(s: Books, undo: Undo)
    requires Keyed(s) && ApplyUndo(s, undo).PutBack?
    ensures ApplyUndo(s, undo).books.log == s.log
  {
  }

  lemma UndoKeepsSound(s: Books, n: nat)
    requires Sound(s)
    ensures Sound(UndoActivity(s, n).books)
  {
    UndoCases(s, n);
    if Taken(s, n) {
      assert SoundUndo(s, s.log[n - 1].undo.value);
      ReversalKeepsLog(s, s.log[n - 1].undo.value);
      ApplyUndoKeepsSound(s, s.log[n - 1].undo.value);
      MarkedKeepsSound(ApplyUndo(s, s.log[n - 1].undo.value).books, n);
    }
  }

  /** The row marked undone and the line added: neither is judged. */
  lemma MarkedKeepsSound(b: Books, n: nat)
    requires Sound(b) && 0 < n <= |b.log|
    ensures Sound(Logged(b.(log := MarkUndone(b.log, n)), "undo", None))
  {
    RelogKeepsSound(b, MarkUndone(b.log, n));
    LoggedKeepsSound(b.(log := MarkUndone(b.log, n)), "undo", None);
  }

  lemma RelogKeepsSound(s: Books, log: seq<Entry>)
    requires Sound(s) && |log| == |s.log| && forall k :: 0 <= k < |log| ==> log[k].undo == s.log[k].undo
    ensures Sound(s.(log := log))
  {
    var t := s.(log := log);
    MoneyFrame(s, t);
    forall k | 0 <= k < |log| && log[k].undo.Some? ensures SoundUndo(t, log[k].undo.value) {
      assert SoundUndo(s, s.log[k].undo.value);
    }
  }

  // ----- runs -----

  /** No action and no undo, at any time and whatever it answers, breaks the books. */
  lemma StepKeepsSound(s: Books, act: Act, now: nat)
    requires Sound(s)
    ensures Sound(Perform(s, act, now).books)
  {
    match act
    case Match(i, l, actor, evidence) => MatchKeepsSound(s, i, l, actor, evidence, now);
    case Unapply(i, l) => UnmatchKeepsSound(s, i, l);
    case Pay(i, amount) => MarkPaidKeepsSound(s, i, amount, now);
    case WriteOff(i) => VoidKeepsSound(s, i);
    case FileUnder(ids, category) => CategorizeKeepsSound(s, ids, category);
    case DraftLetter(i, tone) => DraftKeepsSound(s, i, tone, now);
    case SendLetter(i, named) => SendKeepsSound(s, i, named, now);
    case TakeBack(n) => UndoKeepsSound(s, n);
  }

  /** The books after a run of acts, each at its instant. */
  ghost function After(s: Books, acts: seq<(Act, nat)>): (t: Books)
    requires Sound(s)
    ensures Sound(t)
  {
    if acts == [] then s
    else
      var before, last := After(s, acts[..|acts| - 1]), acts[|acts| - 1];
      StepKeepsSound(before, last.0, last.1);
      Perform(before, last.0, last.1).books
  }

  /** The safety of every run, spelled out for one invoice and one line. */
  lemma RunsAreSafe(s: Books, acts: seq<(Act, nat)>, i: string, j: string, l: string)
    requires Sound(s)
    ensures var t := After(s, acts);
            && ((i, l) in t.matches && (j, l) in t.matches ==> i == j)
            && (i in t.invoices ==>
                  0 <= PaidCents(t.payments, i) <= (if t.invoices[i].status == Void then 0 else t.invoices[i].amount))
            && ((i, l) in t.matches ==> Unmatch(t, i, l).answer.Done?)
  {
    var t := After(s, acts);
    if (i, l) in t.matches {
      MatchHasItsPayment(t, i, l);
    }
  }
}
