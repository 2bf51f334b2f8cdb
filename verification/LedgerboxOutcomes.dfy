/**
 When each act on the books is done, and all that it does: told by the rows of the tables, both ways, with every row
 the act does not name left as it was.
 */
module LedgerboxOutcomes {
  import opened LedgerboxBooks
  import opened LedgerboxInvariants
  import opened LedgerboxReminder
  import opened LedgerboxTypes
  import opened LedgerboxUndo
  import opened LedgerboxVerdict
  import opened Options
  import opened Tables

  // ----- what an invoice owes -----

  /** Billed: neither a draft nor void. */
  predicate Billed(s: Books, i: string) {
    i in s.invoices && s.invoices[i].status != Draft && s.invoices[i].status != Void
  }

  /** The amount less every payment recorded on it. */
  ghost function Owed(s: Books, i: string): int
    requires i in s.invoices
  {
    s.invoices[i].amount - PaidCents(s.payments, i)
  }

  /** Every invoice but one reads as before. */
  ghost predicate OthersStand(s: Books, t: Books, i: string)
    requires Keyed(s) && Keyed(t)
  {
    t.invoices.Keys == s.invoices.Keys && forall j :: j in s.invoices && j != i ==> RowOf(t, j) == RowOf(s, j)
  }

  lemma RowStands(s: Books, t: Books, j: string)
    requires Keyed(s) && Keyed(t) && j in s.invoices && j in t.invoices
    requires t.invoices[j] == s.invoices[j] && t.clients == s.clients
    requires PaidCents(t.payments, j) == PaidCents(s.payments, j)
    ensures RowOf(t, j) == RowOf(s, j)
  {
  }

  /** One payment more takes its amount off its own invoice and touches no other. */
  lemma PaymentLands(s: Books, t: Books, i: string, id: string, p: Payment)
    requires Keyed(s) && Keyed(t) && i in s.invoices && id !in s.payments && p.invoice == i
    requires t.payments == s.payments[id := p] && t.invoices == s.invoices && t.clients == s.clients
    ensures Owed(t, i) == Owed(s, i) - p.amount && OthersStand(s, t, i)
  {
    TotalInsert(s.payments, id, p, PaidOn(i));
    forall j | j in s.invoices && j != i ensures RowOf(t, j) == RowOf(s, j) {
      TotalInsert(s.payments, id, p, PaidOn(j));
      RowStands(s, t, j);
    }
  }

  lemma PaymentLifts(s: Books, t: Books, i: string, id: string)
    requires Keyed(s) && Keyed(t) && i in s.invoices && id in s.payments && s.payments[id].invoice == i
    requires t.payments == s.payments - {id} && t.invoices == s.invoices && t.clients == s.clients
    ensures Owed(t, i) == Owed(s, i) + s.payments[id].amount && OthersStand(s, t, i)
  {
    TotalRemove(s.payments, id, PaidOn(i));
    forall j | j in s.invoices && j != i ensures RowOf(t, j) == RowOf(s, j) {
      TotalRemove(s.payments, id, PaidOn(j));
      RowStands(s, t, j);
    }
  }

  // ----- a payment by hand -----

  /** The same payment was recorded by hand in the last ten seconds. */
  ghost predicate JustRecorded(s: Books, i: string, amount: int, now: nat) {
    exists p :: && p in s.payments && s.payments[p].invoice == i && s.payments[p].amount == amount
                && s.payments[p].note == "Recorded by hand." && s.payments[p].paidAt >= now - 10_000
  }

  ghost predicate Payable(s: Books, i: string, amount: int, now: nat) {
    Billed(s, i) && 0 < amount <= Owed(s, i) && !JustRecorded(s, i, amount, now)
  }

  /** A payment by hand is recorded exactly when the invoice is billed and owes that much, and it is no retry. */
  lemma PaidExactly(s: Books, i: string, amount: int, now: nat)
    requires Keyed(s)
    ensures var paid := MarkPaid(s, i, amount, now);
            && (paid.answer.Done? <==> Payable(s, i, amount, now) && ManualIdFor(i, now) !in s.payments)
            && (paid.answer.Aborted? <==> Payable(s, i, amount, now) && ManualIdFor(i, now) in s.payments)
            && (!paid.answer.Done? ==> paid.books == s)
  {
    if p :| p in s.payments && IsRepeat(s.payments[p], i, amount, now - REPEAT_WINDOW_MS) {
      assert JustRecorded(s, i, amount, now);
    }
    if JustRecorded(s, i, amount, now) {
      var p :| && p in s.payments && s.payments[p].invoice == i && s.payments[p].amount == amount
               && s.payments[p].note == "Recorded by hand." && s.payments[p].paidAt >= now - 10_000;
      assert IsRepeat(s.payments[p], i, amount, now - REPEAT_WINDOW_MS);
    }
  }

  /** And then the balance falls by exactly the amount: one payment and one log row are new, and nothing else. */
  lemma PaidLands(s: Books, i: string, amount: int, now: nat)
    requires Keyed(s) && MarkPaid(s, i, amount, now).answer.Done?
    ensures var t := MarkPaid(s, i, amount, now).books;
            && i in s.invoices && Keyed(t)
            && Owed(t, i) == Owed(s, i) - amount && OthersStand(s, t, i)
            && ManualIdFor(i, now) !in s.payments
            && t.payments == s.payments[ManualIdFor(i, now) := Payment(i, now, amount, "transfer", "Recorded by hand.")]
            && t.log == s.log + [Entry("mark_paid", None, false)]
            && t.(payments := s.payments, log := s.log) == s
  {
    var t := MarkPaid(s, i, amount, now).books;
    PaymentLands(s, t, i, ManualIdFor(i, now), Payment(i, now, amount, "transfer", "Recorded by hand."));
  }

  // ----- a match and its lifting -----

  /** An unmatched credit the invoice still owes, be it the whole of it or the smallest part. */
  ghost predicate Appliable(s: Books, i: string, l: string) {
    && Billed(s, i) && l in s.lines && s.lines[l].direction == In
    && (forall j :: (j, l) !in s.matches) && s.lines[l].amount <= Owed(s, i)
  }

  /** The payment a credit is reconciled into: the line's own day and amount. */
  function MatchPayment(i: string, line: BankLine): Payment {
    Payment(i, line.postedAt, line.amount, "transfer", "Reconciled from " + line.sourceFile + ".")
  }

  /** A credit is applied exactly when it may be and its payment's id is free. */
  lemma MatchedExactly(s: Books, i: string, l: string, actor: Actor, evidence: string, now: nat)
    requires Keyed(s)
    ensures var matched := MatchLine(s, i, l, actor, evidence, now);
            && (matched.answer.Done? <==> Appliable(s, i, l) && "pay_match_" + l !in s.payments)
            && (matched.answer.Aborted? <==> Appliable(s, i, l) && "pay_match_" + l in s.payments)
            && (!matched.answer.Done? ==> matched.books == s)
  {
  }

  /** And then the line pays that invoice its own amount, and nothing else on the books moves. */
  lemma MatchLands(s: Books, i: string, l: string, actor: Actor, evidence: string, now: nat)
    requires Keyed(s) && MatchLine(s, i, l, actor, evidence, now).answer.Done?
    ensures var t := MatchLine(s, i, l, actor, evidence, now).books;
            && i in s.invoices && l in s.lines && Keyed(t)
            && Owed(t, i) == Owed(s, i) - s.lines[l].amount && OthersStand(s, t, i)
            && t.matches == s.matches[(i, l) := MatchRow(now, actor, evidence)]
            && t.payments == s.payments["pay_match_" + l := MatchPayment(i, s.lines[l])]
            && t.log == s.log + [Entry("match_bank_line", Some(UndoMatch(i, l, "pay_match_" + l)), false)]
            && t.(matches := s.matches, payments := s.payments, log := s.log) == s
  {
    var t := MatchLine(s, i, l, actor, evidence, now).books;
    PaymentLands(s, t, i, PaymentIdFor(l), MatchPayment(i, s.lines[l]));
  }

  /** In sound books a match is lifted exactly when it stands, and lifting it takes one payment with its facts. */
  lemma UnmatchedExactly(s: Books, i: string, l: string)
    requires Sound(s)
    ensures Unmatch(s, i, l).answer.Done? <==> (i, l) in s.matches
    ensures (i, l) !in s.matches ==> Unmatch(s, i, l).books == s
  {
    if (i, l) in s.matches { MatchHasItsPayment(s, i, l); }
  }

  /** And then the balance is owed again, and the line is back in the pool. */
  lemma UnmatchLifts(s: Books, i: string, l: string) returns (payment: string)
    requires Sound(s) && (i, l) in s.matches
    ensures var t := Unmatch(s, i, l).books;
            && Keyed(t) && Owed(t, i) == Owed(s, i) + s.lines[l].amount && OthersStand(s, t, i)
            && t.matches == s.matches - {(i, l)} && !Applied(t, l)
            && payment in s.payments && t.payments == s.payments - {payment}
            && IsFactPayment(s.payments[payment], i, s.lines[l].postedAt, s.lines[l].amount)
            && t.(matches := s.matches, payments := s.payments, log := s.log) == s
  {
    var undo;
    payment, undo := Unmatched(s, i, l);
    UnmatchKeepsSound(s, i, l);
    PaymentLifts(s, Unmatch(s, i, l).books, i, payment);
  }

  // ----- writing off -----

  /** An invoice is voided exactly when it is not void yet and holds no money. */
  lemma VoidedExactly(s: Books, i: string)
    requires Keyed(s)
    ensures var voided := VoidInvoice(s, i);
            && (voided.answer.Done? <==>
                i in s.invoices && s.invoices[i].status != Void && PaidCents(s.payments, i) <= 0)
            && (!voided.answer.Done? ==> voided.books == s)
  {
  }

  /** And then it is void and owes nothing, keeps the rest of its row, and no other row changes. */
  lemma VoidLands(s: Books, i: string)
    requires Keyed(s) && VoidInvoice(s, i).answer.Done?
    ensures var t := VoidInvoice(s, i).books;
            && i in s.invoices && Keyed(t) && OthersStand(s, t, i)
            && t.invoices[i] == s.invoices[i].(status := Void)
            && RowOf(t, i).balance == 0 && RowOf(t, i).state == VoidState
            && t.log == s.log + [Entry("void_invoice", None, false)]
            && t.(invoices := s.invoices, log := s.log) == s
  {
    var t := VoidInvoice(s, i).books;
    forall j | j in s.invoices && j != i ensures RowOf(t, j) == RowOf(s, j) { RowStands(s, t, j); }
  }

  // ----- filing -----

  lemma {:induction false} FilesEach(invoices: map<string, Invoice>, targets: seq<string>, to: string)
    ensures var filed := File(invoices, targets, to).invoices;
            && filed.Keys == invoices.Keys
            && (forall i :: i in invoices ==>
                  filed[i] == if i in targets then invoices[i].(category := to) else invoices[i])
    ensures File(invoices, targets, to).prior == [] <==> forall i :: i in targets ==> i !in invoices
  {
    if targets != [] {
      var init, last := targets[..|targets| - 1], targets[|targets| - 1];
      assert targets == init + [last];
      FilesEach(invoices, init, to);
    }
  }

  /** The first hundred references are filed, those that name an invoice, and a call that names none is refused. */
  lemma FiledExactly(s: Books, ids: seq<string>, to: string)
    ensures var filed, named := Categorize(s, ids, to), if |ids| <= 100 then ids else ids[..100];
            && (filed.answer.Done? <==> exists i :: i in named && i in s.invoices)
            && (!filed.answer.Done? ==> filed.books == s)
            && (filed.answer.Done? ==>
                  && filed.books.invoices.Keys == s.invoices.Keys
                  && (forall i :: i in s.invoices ==>
                        filed.books.invoices[i] ==
                        if i in named then s.invoices[i].(category := to) else s.invoices[i])
                  && filed.books.(invoices := s.invoices, log := s.log) == s)
  {
    FilesEach(s.invoices, Targets(ids), to);
  }

  // ----- letters -----

  /** Sent, still owed, in no dispute, and settled alone by no line of the statement. */
  ghost predicate Chaseable(s: Books, i: string)
    requires Keyed(s)
  {
    i in s.invoices && s.invoices[i].status == Sent && Owed(s, i) > 0 && !exists l :: SettlesAlone(s, i, l)
  }

  lemma WrittenExactly(s: Books, i: string)
    requires Keyed(s)
    ensures WhyNotWrite(s, i).None? <==> Chaseable(s, i)
  {
    BlockedExactly(s, i);
  }

  /** The reminder a letter is kept as, unsent. */
  function Unsent(i: string, tone: Tone, letter: Letter, now: nat): Reminder {
    Reminder(i, tone, letter.to, letter.subject, letter.body, now, None)
  }

  lemma PutsOneDraft(s: Books, i: string, tone: Tone, letter: Letter, now: nat)
    ensures var put, id := PutDraft(s, i, tone, letter, now), ReminderIdFor(i, now);
            && (put.answer.Done? <==> id !in s.reminders)
            && (!put.answer.Done? ==> put.books == s)
            && (put.answer.Done? ==>
                  && put.answer == Done(Some(|s.log| + 1))
                  && put.books.reminders == s.reminders[id := Unsent(i, tone, letter, now)]
                  && put.books.log == s.log + [Entry("draft_reminder", Some(UndoReminder(id)), false)]
                  && put.books.(reminders := s.reminders, log := s.log) == s)
  {
  }

  lemma DraftsWhenItMay(s: Books, i: string, tone: Tone, now: nat)
    requires Keyed(s)
    ensures if Chaseable(s, i)
            then DraftReminder(s, i, tone, now) == PutDraft(s, i, tone, LetterFor(RowOf(s, i), tone), now)
            else DraftReminder(s, i, tone, now).books == s && DraftReminder(s, i, tone, now).answer.Refused?
  {
    WrittenExactly(s, i);
  }

  /** A reminder is drafted exactly when the invoice may be chased; it holds today's letter, and that is all. */
  lemma DraftedExactly(s: Books, i: string, tone: Tone, now: nat)
    requires Keyed(s)
    ensures var drafted, id := DraftReminder(s, i, tone, now), ReminderIdFor(i, now);
            && (drafted.answer.Done? <==> Chaseable(s, i) && id !in s.reminders)
            && (!drafted.answer.Done? ==> drafted.books == s)
            && (drafted.answer.Done? ==>
                  && drafted.books.reminders == s.reminders[id := Unsent(i, tone, LetterFor(RowOf(s, i), tone), now)]
                  && drafted.books.log == s.log + [Entry("draft_reminder", Some(UndoReminder(id)), false)]
                  && drafted.books.(reminders := s.reminders, log := s.log) == s)
  {
    DraftsWhenItMay(s, i, tone, now);
    if Chaseable(s, i) { PutsOneDraft(s, i, tone, LetterFor(RowOf(s, i), tone), now); }
  }

  /** The newest draft on the invoice, and the one named when one is named. */
  ghost predicate IsTheLetter(s: Books, i: string, named: Option<string>, d: string) {
    IsNewest(s, DraftIds(s, i), d) && (named.Some? ==> named.value == d)
  }

  /** The draft still says what a letter written now would say. */
  ghost predicate StillReads(s: Books, i: string, d: string)
    requires Keyed(s) && i in s.invoices && d in s.reminders
  {
    var today := LetterFor(RowOf(s, i), s.reminders[d].tone);
    s.reminders[d].subject == today.subject && s.reminders[d].body == today.body
  }

  lemma TheLetterIsNewest(s: Books, i: string, named: Option<string>, d: string)
    requires IsTheLetter(s, i, named, d)
    ensures NewestDraft(s, i) == Some(d) && WhyNotThisDraft(s, i, named).None?
  {
    var x := NewestDraft(s, i).value;
    NewestIsUnique(s, DraftIds(s, i), x, d);
  }

  lemma SendsWhenItMay(s: Books, i: string, named: Option<string>, now: nat)
    requires Keyed(s)
    ensures if Chaseable(s, i) && WhyNotThisDraft(s, i, named).None? then
              var d := NewestDraft(s, i).value;
              SendReminder(s, i, named, now) ==
              SendOrRedraft(s, i, d, LetterFor(RowOf(s, i), s.reminders[d].tone), now)
            else SendReminder(s, i, named, now).books == s && SendReminder(s, i, named, now).answer.Refused?
  {
    WrittenExactly(s, i);
  }

  lemma ExchangeCases(s: Books, i: string, d: string, today: Letter, now: nat)
    requires d in s.reminders
    ensures var sent := SendOrRedraft(s, i, d, today, now);
            && (sent.answer.Done? <==> s.reminders[d].subject == today.subject && s.reminders[d].body == today.body)
            && (sent.answer.Redrafted? <==>
                !(s.reminders[d].subject == today.subject && s.reminders[d].body == today.body)
                && ReminderIdFor(i, now) + "_r" !in s.reminders - {d})
            && !sent.answer.Refused? && (sent.answer.Aborted? ==> sent.books == s)
            && sent.books.(reminders := s.reminders, log := s.log) == s
  {
  }

  /** A letter is sent exactly when it is the newest draft, may be sent now, and still says what is so. */
  lemma SentExactly(s: Books, i: string, named: Option<string>, now: nat)
    requires Keyed(s)
    ensures var sent := SendReminder(s, i, named, now);
            && (sent.answer.Done? <==>
                Chaseable(s, i) && exists d :: IsTheLetter(s, i, named, d) && StillReads(s, i, d))
            && (sent.answer.Redrafted? <==>
                Chaseable(s, i) && exists d :: IsTheLetter(s, i, named, d) && !StillReads(s, i, d)
                                               && ReminderIdFor(i, now) + "_r" !in s.reminders - {d})
            && (sent.answer.Refused? || sent.answer.Aborted? ==> sent.books == s)
            && sent.books.(reminders := s.reminders, log := s.log) == s
  {
    SendsWhenItMay(s, i, named, now);
    if Chaseable(s, i) && WhyNotThisDraft(s, i, named).None? {
      var d := NewestDraft(s, i).value;
      assert IsTheLetter(s, i, named, d);
      ExchangeCases(s, i, d, LetterFor(RowOf(s, i), s.reminders[d].tone), now);
    }
    if Chaseable(s, i) {
      forall d | IsTheLetter(s, i, named, d)
        ensures NewestDraft(s, i) == Some(d) && WhyNotThisDraft(s, i, named).None?
      {
        TheLetterIsNewest(s, i, named, d);
      }
    }
  }

  lemma OneReminderMore(s: Books, t: Books, id: string, r: Reminder)
    requires Keyed(s) && r.invoice in s.invoices
    requires t.reminders == s.reminders[id := r] && t.(reminders := s.reminders, log := s.log) == s
    ensures Keyed(t)
  {
  }

  lemma PutDraftThenUndo(s: Books, i: string, tone: Tone, letter: Letter, now: nat)
    requires Keyed(s) && i in s.invoices && PutDraft(s, i, tone, letter, now).answer.Done?
    ensures var put := PutDraft(s, i, tone, letter, now);
            && Keyed(put.books) && put.answer == Done(Some(|s.log| + 1))
            && UndoActivity(put.books, |s.log| + 1)
               == Step(WithTaken(s, "draft_reminder", UndoReminder(ReminderIdFor(i, now))), Done(None))
  {
    var id, undo := ReminderIdFor(i, now), UndoReminder(ReminderIdFor(i, now));
    var t := s.(reminders := s.reminders[id := DraftOf(i, tone, letter, now)]);
    var logged := Logged(t, "draft_reminder", Some(undo));
    OneReminderMore(s, logged, id, DraftOf(i, tone, letter, now));
    assert t.reminders - {id} == s.reminders;
    assert ApplyUndo(logged, undo) == PutBack(logged.(reminders := s.reminders));
    UndoOfLast(s, t, "draft_reminder", undo);
  }

  /** Taking back a draft at once leaves every table as it was before it. */
  lemma DraftThenUndo(s: Books, i: string, tone: Tone, now: nat)
    requires Keyed(s) && DraftReminder(s, i, tone, now).answer.Done?
    ensures var drafted := DraftReminder(s, i, tone, now);
            && Keyed(drafted.books) && drafted.answer == Done(Some(|s.log| + 1))
            && UndoActivity(drafted.books, |s.log| + 1)
               == Step(WithTaken(s, "draft_reminder", UndoReminder(ReminderIdFor(i, now))), Done(None))
  {
    DraftsWhenItMay(s, i, tone, now);
    PutDraftThenUndo(s, i, tone, LetterFor(RowOf(s, i), tone), now);
  }

  // ----- taking back later -----

  /** What an act wrote still stands, so that it can be taken back. */
  ghost predicate Stands(s: Books, undo: Undo)
    requires Keyed(s)
  {
    match undo
    case UndoMatch(i, l, payment) => (i, l) in s.matches && payment in s.payments && s.payments[payment].invoice == i
    case UndoUnmatch(i, l, _, payment, p) =>
      && i in s.invoices && l in s.lines && (forall j :: (j, l) !in s.matches)
      && payment !in s.payments && p.amount <= RowOf(s, i).balance
    case UndoCategorize(prior, to) =>
      forall k :: 0 <= k < |prior| && prior[k].0 in s.invoices ==> s.invoices[prior[k].0].category == to
    case UndoReminder(id) => id in s.reminders && s.reminders[id].sentAt.None?
  }

  /** A lifted payment would go back, but its id is taken or its invoice or line is gone: the insert throws. */
  ghost predicate Collides(s: Books, undo: Undo)
    requires Keyed(s)
  {
    match undo
    case UndoUnmatch(i, l, _, payment, p) =>
      && (forall j :: (j, l) !in s.matches) && (i in s.invoices ==> p.amount <= RowOf(s, i).balance)
      && (payment in s.payments || i !in s.invoices || l !in s.lines)
    case _ => false
  }

  /** Only the tables the act wrote are written back, and only the rows it wrote. */
  ghost predicate TakenBack(s: Books, t: Books, undo: Undo) {
    match undo
    case UndoMatch(i, l, payment) =>
      && t.matches == s.matches - {(i, l)} && t.payments == s.payments - {payment}
      && t.(matches := s.matches, payments := s.payments, log := s.log) == s
    case UndoUnmatch(i, l, row, payment, p) =>
      && t.matches == s.matches[(i, l) := row] && t.payments == s.payments[payment := p]
      && t.(matches := s.matches, payments := s.payments, log := s.log) == s
    case UndoCategorize(prior, _) =>
      && t.invoices.Keys == s.invoices.Keys && t.(invoices := s.invoices, log := s.log) == s
      && forall i :: i in s.invoices ==> t.invoices[i].(category := s.invoices[i].category) == s.invoices[i]
    case UndoReminder(id) =>
      t.reminders == s.reminders - {id} && t.(reminders := s.reminders, log := s.log) == s
  }

  lemma TakesBackWhatStands(s: Books, undo: Undo)
    requires Keyed(s)
    ensures if Stands(s, undo) then ApplyUndo(s, undo).PutBack? && TakenBack(s, ApplyUndo(s, undo).books, undo)
                                    && ApplyUndo(s, undo).books.log == s.log
            else !ApplyUndo(s, undo).PutBack? && (ApplyUndo(s, undo).Threw? <==> Collides(s, undo))
  {
    if undo.UndoCategorize? { RestoreTouchesCategories(s.invoices, undo.prior); }
  }

  /** A row of the log is taken back exactly once, while what it wrote stands, whatever happened in between. */
  lemma UndoneExactly(s: Books, n: nat)
    requires Keyed(s)
    ensures var undone := UndoActivity(s, n);
            && (undone.answer.Done? <==>
                0 < n <= |s.log| && s.log[n - 1].undo.Some? && !s.log[n - 1].undone
                && Stands(s, s.log[n - 1].undo.value))
            && (undone.answer.Aborted? <==>
                0 < n <= |s.log| && s.log[n - 1].undo.Some? && !s.log[n - 1].undone
                && Collides(s, s.log[n - 1].undo.value))
            && (!undone.answer.Done? ==> undone.books == s)
            && (undone.answer.Done? ==>
                  && TakenBack(s, undone.books, s.log[n - 1].undo.value)
                  && undone.books.log == s.log[n - 1 := s.log[n - 1].(undone := true)] + [Entry("undo", None, false)])
  {
    if 0 < n <= |s.log| && s.log[n - 1].undo.Some? { TakesBackWhatStands(s, s.log[n - 1].undo.value); }
  }
}
