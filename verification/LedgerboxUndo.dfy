/**
 Taking acts back: an undo that follows its act gives back the same rows, a later one never reverses
 twice, and no act or undo ever touches a letter that was sent.
 */
module LedgerboxUndo {
  import opened LedgerboxBooks
  import opened LedgerboxInvariants
  import opened LedgerboxReminder
  import opened LedgerboxTypes
  import opened Options

  /** The log after an act and its undo: the act's row, marked, and the undo's own line. */
  function WithTaken(s: Books, action: string, undo: Undo): Books {
    s.(log := s.log + [Entry(action, Some(undo), true), Entry("undo", None, false)])
  }

  lemma UndoOfLast(s: Books, t: Books, action: string, undo: Undo)
    requires Keyed(Logged(t, action, Some(undo))) && t.log == s.log
    requires ApplyUndo(Logged(t, action, Some(undo)), undo) ==
             PutBack(s.(log := t.log + [Entry(action, Some(undo), false)]))
    ensures UndoActivity(Logged(t, action, Some(undo)), |s.log| + 1) == Step(WithTaken(s, action, undo), Done(None))
  {
    var logged := Logged(t, action, Some(undo));
    var n := |s.log|;
    assert logged.log[n] == Entry(action, Some(undo), false);
    assert logged.log[n := Entry(action, Some(undo), true)] + [Entry("undo", None, false)]
        == s.log + [Entry(action, Some(undo), true), Entry("undo", None, false)];
  }

  lemma LiftTakesBackApply(s: Books, i: string, l: string, row: MatchRow, payment: string, p: Payment)
    requires (i, l) !in s.matches && payment !in s.payments
    ensures Lift(Apply(s, i, l, row, payment, p), i, l, payment) == s
  {
    var t := Apply(s, i, l, row, payment, p);
    assert t.matches - {(i, l)} == s.matches;
    assert t.payments - {payment} == s.payments;
  }

  lemma ApplyTakesBackLift(s: Books, i: string, l: string, payment: string)
    requires (i, l) in s.matches && payment in s.payments
    ensures Apply(Lift(s, i, l, payment), i, l, s.matches[(i, l)], payment, s.payments[payment]) == s
  {
    var t := Lift(s, i, l, payment);
    assert t.matches[(i, l) := s.matches[(i, l)]] == s.matches;
    assert t.payments[payment := s.payments[payment]] == s.payments;
  }

  lemma Matched(s: Books, i: string, l: string, actor: Actor, evidence: string, now: nat)
    returns (row: MatchRow, p: Payment)
    requires Keyed(s) && MatchLine(s, i, l, actor, evidence, now).answer.Done?
    ensures i in s.invoices && l in s.lines && !Applied(s, l) && PaymentIdFor(l) !in s.payments
    ensures row == MatchRow(now, actor, evidence) && IsFactPayment(p, i, s.lines[l].postedAt, s.lines[l].amount)
    ensures MatchLine(s, i, l, actor, evidence, now) ==
            Step(Logged(Apply(s, i, l, row, PaymentIdFor(l), p), "match_bank_line",
                        Some(UndoMatch(i, l, PaymentIdFor(l)))),
                 Done(Some(|s.log| + 1)))
  {
    var b := s.lines[l];
    row := MatchRow(now, actor, evidence);
    p := Payment(i, b.postedAt, b.amount, "transfer", "Reconciled from " + b.sourceFile + ".");
  }

  /** A match followed at once by its undo is never refused and gives back the same rows. */
  lemma MatchThenUndo(s: Books, i: string, l: string, actor: Actor, evidence: string, now: nat)
    requires Sound(s) && MatchLine(s, i, l, actor, evidence, now).answer.Done?
    ensures var matched := MatchLine(s, i, l, actor, evidence, now);
            && Keyed(matched.books) && matched.answer == Done(Some(|s.log| + 1))
            && UndoActivity(matched.books, |s.log| + 1)
               == Step(WithTaken(s, "match_bank_line", UndoMatch(i, l, PaymentIdFor(l))), Done(None))
  {
    MatchKeepsSound(s, i, l, actor, evidence, now);
    var row, p := Matched(s, i, l, actor, evidence, now);
    var undo := UndoMatch(i, l, PaymentIdFor(l));
    var t := Apply(s, i, l, row, PaymentIdFor(l), p);
    assert (i, l) !in s.matches;
    LiftTakesBackApply(s, i, l, row, PaymentIdFor(l), p);
    var logged := Logged(t, "match_bank_line", Some(undo));
    assert ApplyUndo(logged, undo) == PutBack(Lift(logged, i, l, PaymentIdFor(l)));
    UndoOfLast(s, t, "match_bank_line", undo);
  }

  lemma Unmatched(s: Books, i: string, l: string) returns (payment: string, undo: Undo)
    requires Sound(s) && (i, l) in s.matches
    ensures payment in s.payments && IsFactPayment(s.payments[payment], i, s.lines[l].postedAt, s.lines[l].amount)
    ensures undo == UndoUnmatch(i, l, s.matches[(i, l)], payment, s.payments[payment])
    ensures Unmatch(s, i, l) == Step(Logged(Lift(s, i, l, payment), "unmatch", Some(undo)), Done(Some(|s.log| + 1)))
  {
    MatchHasItsPayment(s, i, l);
    payment := PaymentForMatch(s, i, s.lines[l]).value;
    undo := UndoUnmatch(i, l, s.matches[(i, l)], payment, s.payments[payment]);
  }

  /** An unmatch followed at once by its undo is never refused and restores the very rows it deleted. */
  lemma UnmatchThenUndo(s: Books, i: string, l: string) returns (undo: Undo)
    requires Sound(s) && (i, l) in s.matches
    ensures var lifted := Unmatch(s, i, l);
            && lifted.answer == Done(Some(|s.log| + 1)) && Keyed(lifted.books)
            && UndoActivity(lifted.books, |s.log| + 1) == Step(WithTaken(s, "unmatch", undo), Done(None))
  {
    UnmatchKeepsSound(s, i, l);
    var payment;
    payment, undo := Unmatched(s, i, l);
    LiftIsTakenBack(s, i, l, payment);
    ApplyTakesBackLift(s, i, l, payment);
    UndoOfLast(s, Lift(s, i, l, payment), "unmatch", undo);
  }

  lemma LiftIsTakenBack(s: Books, i: string, l: string, payment: string)
    requires Sound(s) && (i, l) in s.matches && payment in s.payments
    requires IsFactPayment(s.payments[payment], i, s.lines[l].postedAt, s.lines[l].amount)
    ensures var undo := UndoUnmatch(i, l, s.matches[(i, l)], payment, s.payments[payment]);
            var logged := Logged(Lift(s, i, l, payment), "unmatch", Some(undo));
            && Keyed(logged)
            && ApplyUndo(logged, undo) == PutBack(Apply(logged, i, l, s.matches[(i, l)], payment, s.payments[payment]))
  {
    var undo := UndoUnmatch(i, l, s.matches[(i, l)], payment, s.payments[payment]);
    var logged := Logged(Lift(s, i, l, payment), "unmatch", Some(undo));
    LiftedLeavesRoom(s, i, l, payment, logged);
    Reapplied(logged, i, l, s.matches[(i, l)], payment, s.payments[payment]);
  }

  lemma LiftedLeavesRoom(s: Books, i: string, l: string, payment: string, t: Books)
    requires Keyed(s) && OneInvoicePerLine(s) && NoNegativeMoney(s) && WithinAmount(s)
    requires (i, l) in s.matches && payment in s.payments && s.payments[payment].invoice == i
    requires t == Lift(s, i, l, payment).(log := t.log)
    ensures Keyed(t) && !Applied(t, l) && s.payments[payment].amount <= RowOf(t, i).balance
  {
    LiftKeepsWithin(s, i, l, payment);
    assert PaidCents(t.payments, i) == PaidCents(s.payments, i) - s.payments[payment].amount;
    assert PaidCents(Lift(s, i, l, payment).payments, i) >= 0;
  }

  lemma Reapplied(t: Books, i: string, l: string, row: MatchRow, payment: string, p: Payment)
    requires Keyed(t) && i in t.invoices && l in t.lines && !Applied(t, l) && payment !in t.payments
    requires p.amount <= RowOf(t, i).balance
    ensures ApplyUndo(t, UndoUnmatch(i, l, row, payment, p)) == PutBack(Apply(t, i, l, row, payment, p))
  {
  }

  // ----- categorize -----

  ghost predicate Repeats(targets: seq<string>, id: string) {
    exists j, k :: 0 <= j < k < |targets| && targets[j] == id && targets[k] == id
  }

  lemma RepeatsSnoc(targets: seq<string>, last: string, id: string)
    ensures Repeats(targets + [last], id) <==> Repeats(targets, id) || (id == last && id in targets)
  {
    var all := targets + [last];
    if Repeats(targets, id) {
      var j, k :| 0 <= j < k < |targets| && targets[j] == id && targets[k] == id;
      assert all[j] == id && all[k] == id;
    }
    if id == last && id in targets {
      var j :| 0 <= j < |targets| && targets[j] == id;
      assert all[j] == id && all[|targets|] == id;
    }
    if Repeats(all, id) {
      var j, k :| 0 <= j < k < |all| && all[j] == id && all[k] == id;
      assert targets[j] == id;
      if k < |targets| {
        assert targets[k] == id;
      }
    }
  }

  /** What putting the prior list back leaves: the first category, unless the reference was repeated. */
  function RestoredCategory(original: string, to: string, named: bool, repeated: bool, now: string): string {
    if repeated then to else if named then original else now
  }

  lemma FileSnoc(invoices: map<string, Invoice>, init: seq<string>, last: string, to: string)
    ensures var before := File(invoices, init, to);
            && before.invoices.Keys == invoices.Keys
            && File(invoices, init + [last], to).prior ==
               before.prior + if last in invoices
                              then [(last, if last in init then to else invoices[last].category)] else []
  {
    assert (init + [last])[..|init|] == init;
    FileTouchesCategories(invoices, init, to);
  }

  lemma RestoreSnoc(now: map<string, Invoice>, prior: seq<(string, string)>, last: (string, string))
    ensures Restore(now, prior + [last]) ==
            var before := Restore(now, prior);
            if last.0 in before then before[last.0 := before[last.0].(category := last.1)] else before
  {
    assert (prior + [last])[..|prior|] == prior;
  }

  ghost predicate RestoresAs(invoices: map<string, Invoice>, targets: seq<string>, to: string,
                             now: map<string, Invoice>, id: string)
    requires id in invoices && id in now
  {
    var restored := Restore(now, File(invoices, targets, to).prior);
    && restored.Keys == now.Keys
    && restored[id] == now[id].(category :=
         RestoredCategory(invoices[id].category, to, id in targets, Repeats(targets, id), now[id].category))
  }

  lemma {:induction false} RestoreReads(invoices: map<string, Invoice>, targets: seq<string>, to: string,
                                        now: map<string, Invoice>, id: string)
    requires id in invoices && now.Keys == invoices.Keys
    ensures RestoresAs(invoices, targets, to, now, id)
  {
    if targets == [] {
    } else {
      var init, last := targets[..|targets| - 1], targets[|targets| - 1];
      RestoreReads(invoices, init, to, now, id);
      RestoreReadsSnoc(invoices, init, last, to, now, id);
      assert targets == init + [last];
    }
  }

  lemma RestoreReadsSnoc(invoices: map<string, Invoice>, init: seq<string>, last: string, to: string,
                         now: map<string, Invoice>, id: string)
    requires id in invoices && now.Keys == invoices.Keys && RestoresAs(invoices, init, to, now, id)
    ensures RestoresAs(invoices, init + [last], to, now, id)
  {
    FileSnoc(invoices, init, last, to);
    RepeatsSnoc(init, last, id);
    if last in invoices {
      RestoreSnoc(now, File(invoices, init, to).prior, (last, if last in init then to else invoices[last].category));
    }
  }

  /** The references a filing repeats all had the new category already. */
  ghost predicate RepeatsHarmless(invoices: map<string, Invoice>, targets: seq<string>, to: string) {
    forall id :: id in invoices && Repeats(targets, id) ==> invoices[id].category == to
  }

  lemma {:induction false} PriorNamesTargets(invoices: map<string, Invoice>, targets: seq<string>, to: string, k: nat)
    requires k < |File(invoices, targets, to).prior|
    ensures File(invoices, targets, to).prior[k].0 in targets
  {
    var init := targets[..|targets| - 1];
    if k < |File(invoices, init, to).prior| {
      PriorNamesTargets(invoices, init, to, k);
    }
  }

  lemma RestoreIsExact(invoices: map<string, Invoice>, targets: seq<string>, to: string)
    ensures var filing := File(invoices, targets, to);
            Restore(filing.invoices, filing.prior) == invoices <==> RepeatsHarmless(invoices, targets, to)
  {
    var filing := File(invoices, targets, to);
    FileTouchesCategories(invoices, targets, to);
    RestoreTouchesCategories(filing.invoices, filing.prior);
    forall id | id in invoices
      ensures Restore(filing.invoices, filing.prior)[id] ==
              invoices[id].(category := if Repeats(targets, id) then to else invoices[id].category)
    {
      RestoreReads(invoices, targets, to, filing.invoices, id);
    }
    if RepeatsHarmless(invoices, targets, to) {
      assert Restore(filing.invoices, filing.prior) == invoices;
    }
    if id :| id in invoices && Repeats(targets, id) && invoices[id].category != to {
      assert Restore(filing.invoices, filing.prior)[id].category == to;
    }
  }

  /**
   A filing followed at once by its undo is never refused. It gives back the same rows exactly when every
   invoice the list names twice had the new category to begin with: the second reference logs the category
   the first one wrote.
   */
  lemma CategorizeThenUndo(s: Books, ids: seq<string>, to: string)
    requires Sound(s) && Categorize(s, ids, to).answer.Done?
    ensures var filed := Categorize(s, ids, to);
            && Keyed(filed.books) && filed.answer == Done(Some(|s.log| + 1))
            && UndoActivity(filed.books, |s.log| + 1).answer == Done(None)
            && (UndoActivity(filed.books, |s.log| + 1).books.invoices == s.invoices
                <==> RepeatsHarmless(s.invoices, Targets(ids), to))
  {
    CategorizeKeepsSound(s, ids, to);
    var filed := Categorize(s, ids, to).books;
    var filing := File(s.invoices, Targets(ids), to);
    var undo := UndoCategorize(filing.prior, to);
    assert filed.log[|s.log|] == Entry("categorize", Some(undo), false);
    FileTouchesCategories(s.invoices, Targets(ids), to);
    forall k | 0 <= k < |filing.prior| && filing.prior[k].0 in filed.invoices
      ensures filed.invoices[filing.prior[k].0].category == to
    {
      PriorNamesTargets(s.invoices, Targets(ids), to, k);
    }
    RestoreIsExact(s.invoices, Targets(ids), to);
  }

  /** Naming one invoice twice, by id and by number, defeats its undo. */
  lemma RepeatedReferenceIsNotRestored(invoice: Invoice)
    requires invoice.id == "inv_0002" && invoice.category == "design"
    ensures var invoices := map["inv_0002" := invoice];
            var filing := File(invoices, ["inv_0002", "inv_0002"], "retainer");
            Restore(filing.invoices, filing.prior) != invoices
  {
    var invoices, targets := map["inv_0002" := invoice], ["inv_0002", "inv_0002"];
    assert targets[0] == "inv_0002" && targets[1] == "inv_0002";
    assert Repeats(targets, "inv_0002");
    RestoreIsExact(invoices, targets, "retainer");
  }

  // ----- at most once -----

  ghost predicate LogGrows(before: seq<Entry>, after: seq<Entry>) {
    && |before| <= |after|
    && forall k :: 0 <= k < |before| ==>
         && after[k].undo == before[k].undo && after[k].action == before[k].action
         && (before[k].undone ==> after[k].undone)
  }

  ghost predicate SentStays(before: map<string, Reminder>, after: map<string, Reminder>) {
    forall r :: r in before && before[r].sentAt.Some? ==> r in after && after[r] == before[r]
  }

  /** What no act does: shorten or rewrite the log, or touch a letter that was sent. */
  ghost predicate Preserves(s: Books, t: Books) {
    LogGrows(s.log, t.log) && SentStays(s.reminders, t.reminders)
  }

  lemma LoggedPreserves(s: Books, b: Books, action: string, undo: Option<Undo>)
    requires b.log == s.log && b.reminders == s.reminders
    ensures Preserves(s, Logged(b, action, undo))
  {
  }

  lemma MatchPreserves(s: Books, i: string, l: string, actor: Actor, evidence: string, now: nat)
    requires Keyed(s)
    ensures Preserves(s, MatchLine(s, i, l, actor, evidence, now).books)
  {
    if MatchLine(s, i, l, actor, evidence, now).answer.Done? {
      var row, p := Matched(s, i, l, actor, evidence, now);
      LoggedPreserves(s, Apply(s, i, l, row, PaymentIdFor(l), p), "match_bank_line",
                      Some(UndoMatch(i, l, PaymentIdFor(l))));
    }
  }

  lemma UnmatchPreserves(s: Books, i: string, l: string)
    requires Keyed(s)
    ensures Preserves(s, Unmatch(s, i, l).books)
  {
  }

  lemma MarkPaidPreserves(s: Books, i: string, amount: int, now: nat)
    requires Keyed(s)
    ensures Preserves(s, MarkPaid(s, i, amount, now).books)
  {
    MarkPaidCases(s, i, amount, now);
    var id, p := ManualIdFor(i, now), Payment(i, now, amount, "transfer", BY_HAND);
    LoggedPreserves(s, s.(payments := s.payments[id := p]), "mark_paid", None);
  }

  lemma VoidPreserves(s: Books, i: string)
    requires Keyed(s)
    ensures Preserves(s, VoidInvoice(s, i).books)
  {
  }

  lemma CategorizePreserves(s: Books, ids: seq<string>, to: string)
    ensures Preserves(s, Categorize(s, ids, to).books)
  {
  }

  lemma PutDraftPreserves(s: Books, i: string, tone: Tone, letter: Letter, now: nat)
    ensures Preserves(s, PutDraft(s, i, tone, letter, now).books)
  {
  }

  lemma DraftPreserves(s: Books, i: string, tone: Tone, now: nat)
    requires Keyed(s)
    ensures Preserves(s, DraftReminder(s, i, tone, now).books)
  {
    DraftCases(s, i, tone, now);
    if i in s.invoices {
      PutDraftPreserves(s, i, tone, LetterFor(RowOf(s, i), tone), now);
    }
  }

  lemma SendPreserves(s: Books, i: string, named: Option<string>, now: nat)
    requires Keyed(s)
    ensures Preserves(s, SendReminder(s, i, named, now).books)
  {
    SendCases(s, i, named, now);
    if NewestDraft(s, i).Some? {
      SendOrRedraftPreserves(s, i, NewestDraft(s, i).value, now);
    }
  }

  lemma SendOrRedraftPreserves(s: Books, i: string, draft: string, now: nat)
    requires draft in DraftIds(s, i)
    ensures forall today :: Preserves(s, SendOrRedraft(s, i, draft, today, now).books)
  {
  }

  lemma ApplyUndoFrame(s: Books, undo: Undo)
    requires Keyed(s)
    ensures ApplyUndo(s, undo).PutBack? ==>
              ApplyUndo(s, undo).books.log == s.log && SentStays(s.reminders, ApplyUndo(s, undo).books.reminders)
  {
  }

  lemma UndoPreserves(s: Books, n: nat)
    requires Keyed(s)
    ensures Preserves(s, UndoActivity(s, n).books)
  {
    UndoKeepsLog(s, n);
    if 0 < n <= |s.log| && s.log[n - 1].undo.Some? {
      ApplyUndoFrame(s, s.log[n - 1].undo.value);
    }
  }

  lemma StepPreserves(s: Books, act: Act, now: nat)
    requires Keyed(s)
    ensures Preserves(s, Perform(s, act, now).books)
  {
    match act
    case Match(i, l, actor, evidence) => MatchPreserves(s, i, l, actor, evidence, now);
    case Unapply(i, l) => UnmatchPreserves(s, i, l);
    case Pay(i, amount) => MarkPaidPreserves(s, i, amount, now);
    case WriteOff(i) => VoidPreserves(s, i);
    case FileUnder(ids, category) => CategorizePreserves(s, ids, category);
    case DraftLetter(i, tone) => DraftPreserves(s, i, tone, now);
    case SendLetter(i, named) => SendPreserves(s, i, named, now);
    case TakeBack(n) => UndoPreserves(s, n);
  }

  lemma UndoKeepsLog(s: Books, n: nat)
    requires Keyed(s)
    ensures LogGrows(s.log, UndoActivity(s, n).books.log)
    ensures UndoActivity(s, n).answer.Done? ==>
            0 < n <= |s.log| && !s.log[n - 1].undone && UndoActivity(s, n).books.log[n - 1].undone
    ensures !UndoActivity(s, n).answer.Done? ==> UndoActivity(s, n).books == s
  {
  }

  /** In every run the log only grows, and a letter once sent is neither altered nor deleted. */
  lemma {:induction false} RunPreserves(s: Books, acts: seq<(Act, nat)>)
    requires Sound(s)
    ensures Preserves(s, After(s, acts))
  {
    if acts == [] {
    } else {
      var init, last := acts[..|acts| - 1], acts[|acts| - 1];
      RunPreserves(s, init);
      StepPreserves(After(s, init), last.0, last.1);
    }
  }

  /** An act is taken back at most once: after its undo, no later run makes it undoable again. */
  lemma UndoneStaysUndone(s: Books, n: nat, acts: seq<(Act, nat)>)
    requires Sound(s) && UndoActivity(s, n).answer.Done?
    ensures Sound(UndoActivity(s, n).books)
    ensures var t := After(UndoActivity(s, n).books, acts); UndoActivity(t, n) == Step(t, Refused(AlreadyUndone))
  {
    UndoKeepsSound(s, n);
    UndoKeepsLog(s, n);
    RunPreserves(UndoActivity(s, n).books, acts);
  }

  // ----- letters -----

  /** A send that is not refused is the exchange of one draft, the newest, for today's letter. */
  lemma SendIsExchange(s: Books, i: string, named: Option<string>, now: nat) returns (d: string, today: Letter)
    requires Sound(s) && !SendReminder(s, i, named, now).answer.Refused?
    ensures i in s.invoices && NewestDraft(s, i) == Some(d) && (named.Some? ==> named.value == d)
    ensures d in DraftIds(s, i) && today == LetterFor(RowOf(s, i), s.reminders[d].tone)
    ensures today.to == s.reminders[d].recipient
    ensures SendReminder(s, i, named, now) == SendOrRedraft(s, i, d, today, now)
  {
    SendCases(s, i, named, now);
    d := NewestDraft(s, i).value;
    today := LetterFor(RowOf(s, i), s.reminders[d].tone);
    LetterGoesToClient(s, i, s.reminders[d].tone);
  }

  /**
   A send that goes through sends one draft - the one named, when one is named, and in any case the newest -
   whose words are today's letter on the rows of that moment, addressed to the client; and it leaves
   the invoice no unsent draft and no other letter changed.
   */
  lemma SendSendsTodaysLetter(s: Books, i: string, named: Option<string>, now: nat) returns (d: string)
    requires Sound(s) && SendReminder(s, i, named, now).answer.Done?
    ensures i in s.invoices && NewestDraft(s, i) == Some(d) && (named.Some? ==> named.value == d)
    ensures d in s.reminders && s.reminders[d].sentAt.None?
    ensures var t := SendReminder(s, i, named, now).books;
            && d in t.reminders && t.reminders[d] == s.reminders[d].(sentAt := Some(now))
            && LetterIn(t.reminders[d]) == LetterFor(RowOf(s, i), s.reminders[d].tone)
            && DraftIds(t, i) == {}
            && (forall r :: r in t.reminders && r != d ==> r in s.reminders && t.reminders[r] == s.reminders[r])
            && (forall r :: r in s.reminders && !IsDraftOf(s.reminders[r], i) ==> r in t.reminders)
  {
    var today;
    d, today := SendIsExchange(s, i, named, now);
    DispatchedLetter(s, i, d, today, now);
  }

  function LetterIn(r: Reminder): Letter {
    Letter(r.recipient, r.subject, r.body)
  }

  lemma DispatchedLetter(s: Books, i: string, d: string, today: Letter, now: nat)
    requires d in DraftIds(s, i) && SendOrRedraft(s, i, d, today, now).answer.Done?
    requires s.reminders[d].recipient == today.to
    ensures var t := SendOrRedraft(s, i, d, today, now).books;
            && d in t.reminders && t.reminders[d] == s.reminders[d].(sentAt := Some(now))
            && LetterIn(t.reminders[d]) == today
            && DraftIds(t, i) == {}
            && (forall r :: r in t.reminders && r != d ==> r in s.reminders && t.reminders[r] == s.reminders[r])
            && (forall r :: r in s.reminders && !IsDraftOf(s.reminders[r], i) ==> r in t.reminders)
  {
  }

  /** A send refused for stale figures sends nothing: it swaps the stale draft for today's letter. */
  lemma RedraftSendsNothing(s: Books, i: string, named: Option<string>, now: nat, id: string) returns (d: string)
    requires Sound(s) && SendReminder(s, i, named, now).answer == Redrafted(id)
    ensures i in s.invoices && NewestDraft(s, i) == Some(d) && d in s.reminders
    ensures var t, today := SendReminder(s, i, named, now).books, LetterFor(RowOf(s, i), s.reminders[d].tone);
            && LetterIn(s.reminders[d]) != today
            && id in t.reminders && t.reminders[id].sentAt == None && LetterIn(t.reminders[id]) == today
            && t.reminders - {id} == s.reminders - {d, id}
  {
    var today;
    d, today := SendIsExchange(s, i, named, now);
    RedraftedLetter(s, i, d, today, now, id);
  }

  lemma RedraftedLetter(s: Books, i: string, d: string, today: Letter, now: nat, id: string)
    requires d in s.reminders && SendOrRedraft(s, i, d, today, now).answer == Redrafted(id)
    ensures var t := SendOrRedraft(s, i, d, today, now).books;
            && LetterIn(s.reminders[d]) != today
            && id in t.reminders && t.reminders[id].sentAt == None && LetterIn(t.reminders[id]) == today
            && t.reminders - {id} == s.reminders - {d, id}
  {
    var t := SendOrRedraft(s, i, d, today, now).books;
    assert t.reminders == (s.reminders - {d})[id := DraftOf(i, s.reminders[d].tone, today, now)];
  }

  lemma RepeatIsRefused(t: Books, i: string, amount: int, later: nat, p: string)
    requires Keyed(t) && p in t.payments && IsRepeat(t.payments[p], i, amount, later - REPEAT_WINDOW_MS)
    ensures MarkPaid(t, i, amount, later).books == t && MarkPaid(t, i, amount, later).answer.Refused?
  {
  }

  /** The retry rule: the same hand-recorded payment again within the window is refused. */
  lemma DoubleClickPaysOnce(s: Books, i: string, amount: int, now: nat, later: nat)
    requires Sound(s) && MarkPaid(s, i, amount, now).answer.Done?
    requires now <= later <= now + REPEAT_WINDOW_MS
    ensures Keyed(MarkPaid(s, i, amount, now).books)
    ensures var t := MarkPaid(s, i, amount, now).books;
            MarkPaid(t, i, amount, later).books == t && MarkPaid(t, i, amount, later).answer.Refused?
  {
    MarkPaidKeepsSound(s, i, amount, now);
    MarkPaidCases(s, i, amount, now);
    RepeatIsRefused(MarkPaid(s, i, amount, now).books, i, amount, later, ManualIdFor(i, now));
  }
}
