/**
 The server actions as they run: tables that statements rewrite, queries that loop over rows. Each is
 proved to do to the tables, and to answer, exactly what its function in `LedgerboxBooks` says.
 */
module LedgerboxActions {
  import opened LedgerboxBooks
  import opened LedgerboxChase
  import opened LedgerboxInvariants
  import opened LedgerboxReconcile
  import opened LedgerboxReminder
  import opened LedgerboxTypes
  import opened Lists
  import opened Options
  import opened Tables
  import opened Texts

  class Ledgerbox {
    const clients: map<string, Client>
    const lines: map<string, BankLine>
    const statement: seq<string>
    const dueOrder: seq<string>
    var invoices: map<string, Invoice>
    var matches: map<(string, string), MatchRow>
    var payments: map<string, Payment>
    var reminders: map<string, Reminder>
    var log: seq<Entry>

    ghost function View(): Books
      reads this
    {
      Books(clients, invoices, dueOrder, lines, statement, matches, payments, reminders, log)
    }

    constructor (s: Books)
      requires Sound(s)
      ensures View() == s
    {
      clients, lines, statement, dueOrder := s.clients, s.lines, s.statement, s.dueOrder;
      invoices, matches, payments, reminders, log := s.invoices, s.matches, s.payments, s.reminders, s.log;
    }

    // ----- queries -----

    method SumPayments(i: string) returns (paid: int)
      ensures paid == PaidCents(payments, i)
    {
      paid := 0;
      var left := payments;
      while left != map[]
        invariant paid + Total(left, PaidOn(i)) == Total(payments, PaidOn(i))
        decreases |left|
      {
        var p :| p in left;
        TotalRemove(left, p, PaidOn(i));
        if left[p].invoice == i {
          paid := paid + left[p].amount;
        }
        left := left - {p};
      }
    }

    method GetInvoice(i: string) returns (row: Row)
      requires Keyed(View()) && i in invoices
      ensures row == RowOf(View(), i)
    {
      var paid := SumPayments(i);
      row := ToRow(invoices[i], clients[invoices[i].client], paid);
    }

    method IsApplied(line: string) returns (applied: bool)
      ensures applied == Applied(View(), line)
    {
      applied := exists key :: key in matches && key.1 == line;
      assert forall i :: (i, line) in matches ==> (i, line).1 == line;
      assert forall key :: key in matches && key.1 == line ==> key == (key.0, line);
    }

    method UnappliedLines() returns (pool: seq<BankLine>)
      requires Keyed(View())
      ensures pool == PoolLines(View(), statement)
    {
      pool := [];
      for k := 0 to |statement|
        invariant pool == PoolLines(View(), statement[..k])
      {
        assert statement[..k + 1][..k] == statement[..k];
        var applied := IsApplied(statement[k]);
        if !applied {
          pool := pool + [lines[statement[k]]];
        }
      }
      assert statement[..|statement|] == statement;
    }

    method TakingCredit() returns (open: seq<OpenInvoice>)
      requires Keyed(View())
      ensures open == OpenInvoices(View(), dueOrder)
    {
      open := [];
      for k := 0 to |dueOrder|
        invariant open == OpenInvoices(View(), dueOrder[..k])
      {
        assert dueOrder[..k + 1][..k] == dueOrder[..k];
        var row := GetInvoice(dueOrder[k]);
        if TakesCredit(row) {
          open := open + [OpenInvoice(dueOrder[k], ScoreInputOf(row))];
        }
      }
      assert dueOrder[..|dueOrder|] == dueOrder;
    }

    method StatementHoldsIt(i: string) returns (verdict: LedgerboxChase.Verdict)
      requires Keyed(View())
      ensures verdict == StatementVerdict(View(), i)
    {
      var open := TakingCredit();
      var pool := UnappliedLines();
      var table := Reconcile(open, pool);
      verdict := ChaseVerdict(i, ChaseCredits(table, i));
    }

    /** Looks the match's payment up: by name, and if that fails by its facts. */
    method FindPayment(i: string, line: BankLine) returns (found: Option<string>)
      ensures found == PaymentForMatch(View(), i, line)
    {
      var named := PaymentIdFor(line.id);
      if named in payments && payments[named].invoice == i {
        return Some(named);
      }
      found := None;
      ghost var rows := FactPayments(payments, i, line.postedAt, line.amount);
      var left := payments.Keys;
      while left != {}
        invariant left <= payments.Keys
        invariant found.None? ==> rows <= left
        invariant found.Some? ==> found.value in rows && forall p :: p in rows && p !in left ==> AtMost(found.value, p)
        decreases |left|
      {
        var p :| p in left;
        left := left - {p};
        if IsFactPayment(payments[p], i, line.postedAt, line.amount) {
          AtMostReflexive(p);
          if found.None? {
            found := Some(p);
          } else {
            AtMostTotal(p, found.value);
            if !AtMost(found.value, p) {
              forall q | q in rows && q !in left ensures AtMost(p, q) {
                if q != p { AtMostTransitive(p, found.value, q); }
              }
              found := Some(p);
            }
          }
        }
      }
      if found.Some? {
        assert IsFirst(rows, found.value);
        FirstIsUnique(rows, found.value);
      }
    }

    method FindNewestDraft(i: string) returns (found: Option<string>)
      ensures found == NewestDraft(View(), i)
    {
      found := None;
      ghost var ids := DraftIds(View(), i);
      var left := reminders.Keys;
      while left != {}
        invariant left <= reminders.Keys
        invariant found.None? ==> ids <= left
        invariant found.Some? ==> found.value in ids
        invariant found.Some? ==> forall r :: r in ids && r !in left ==> NoNewer(reminders, r, found.value)
        decreases |left|
      {
        var r :| r in left;
        left := left - {r};
        if IsDraftOf(reminders[r], i) {
          NoNewerTotal(reminders, r, r);
          if found.None? {
            found := Some(r);
          } else {
            NoNewerTotal(reminders, r, found.value);
            if !NoNewer(reminders, r, found.value) {
              forall q | q in ids && q !in left ensures NoNewer(reminders, q, r) {
                if q != r { NoNewerTransitive(reminders, q, found.value, r); }
              }
              found := Some(r);
            }
          }
        }
      }
      if found.Some? {
        NewestIsUnique(View(), ids, found.value, NewestDraft(View(), i).value);
      }
    }

    method LogActivity(action: string, undo: Option<Undo>) returns (id: nat)
      modifies this`log
      ensures View() == Logged(old(View()), action, undo) && id == |old(log)| + 1
    {
      log := log + [Entry(action, undo, false)];
      id := |log|;
    }

    // ----- the money acts -----

    method MatchAction(i: string, line: string, actor: Actor, evidence: string, now: nat) returns (answer: Answer)
      requires Keyed(View())
      modifies this
      ensures Step(View(), answer) == MatchLine(old(View()), i, line, actor, evidence, now)
    {
      if i !in invoices { return Refused(NoSuchInvoice); }
      var invoice := GetInvoice(i);
      if CountedOut(invoice.state) { return Refused(NotADebt); }
      if line !in lines { return Refused(NotInPool); }
      var applied := IsApplied(line);
      if applied { return Refused(NotInPool); }
      var b := lines[line];
      if b.direction != In { return Refused(MoneyOut); }
      if b.amount > invoice.balance { return Refused(MoreThanOwed); }
      if PaymentIdFor(line) in payments { return Aborted; }
      matches := matches[(i, line) := MatchRow(now, actor, evidence)];
      payments := payments[PaymentIdFor(line) :=
        Payment(i, b.postedAt, b.amount, "transfer", "Reconciled from " + b.sourceFile + ".")];
      var id := LogActivity("match_bank_line", Some(UndoMatch(i, line, PaymentIdFor(line))));
      answer := Done(Some(id));
    }

    method UnmatchAction(i: string, line: string) returns (answer: Answer)
      requires Keyed(View())
      modifies this
      ensures Step(View(), answer) == Unmatch(old(View()), i, line)
    {
      if i !in invoices { return Refused(NoSuchInvoice); }
      if (i, line) !in matches { return Refused(NotApplied); }
      var payment := FindPayment(i, lines[line]);
      if payment.None? { return Refused(NoPayment); }
      var row := matches[(i, line)];
      var lifted := payments[payment.value].(invoice := i, amount := lines[line].amount);
      matches := matches - {(i, line)};
      payments := payments - {payment.value};
      var id := LogActivity("unmatch", Some(UndoUnmatch(i, line, row, payment.value, lifted)));
      answer := Done(Some(id));
    }

    method MarkPaidAction(i: string, amount: int, now: nat) returns (answer: Answer)
      requires Keyed(View())
      modifies this
      ensures Step(View(), answer) == MarkPaid(old(View()), i, amount, now)
    {
      if i !in invoices { return Refused(NoSuchInvoice); }
      var invoice := GetInvoice(i);
      if CountedOut(invoice.state) { return Refused(NotADebt); }
      if amount <= 0 { return Refused(NotAboveZero); }
      if amount > invoice.balance { return Refused(MoreThanOwed); }
      if exists p :: p in payments && IsRepeat(payments[p], i, amount, now - REPEAT_WINDOW_MS) {
        return Refused(RepeatedPayment);
      }
      if ManualIdFor(i, now) in payments { return Aborted; }
      payments := payments[ManualIdFor(i, now) := Payment(i, now, amount, "transfer", BY_HAND)];
      var _ := LogActivity("mark_paid", None);
      answer := Done(None);
    }

    method VoidInvoiceAction(i: string) returns (answer: Answer)
      requires Keyed(View())
      modifies this
      ensures Step(View(), answer) == VoidInvoice(old(View()), i)
    {
      if i !in invoices { return Refused(NoSuchInvoice); }
      var invoice := GetInvoice(i);
      if invoice.state == VoidState { return Refused(AlreadyVoid); }
      if invoice.paid > 0 { return Refused(HoldsMoney); }
      invoices := invoices[i := invoices[i].(status := Void)];
      var _ := LogActivity("void_invoice", None);
      answer := Done(None);
    }

    method CategorizeAction(ids: seq<string>, to: string) returns (answer: Answer)
      requires Keyed(View())
      modifies this
      ensures Step(View(), answer) == Categorize(old(View()), ids, to)
    {
      var targets := Targets(ids);
      if targets == [] { return Refused(NothingSelected); }
      var prior: seq<(string, string)> := [];
      for k := 0 to |targets|
        invariant Filing(invoices, prior) == File(old(invoices), targets[..k], to)
        invariant View() == old(View()).(invoices := invoices)
      {
        assert targets[..k + 1][..k] == targets[..k];
        var id := targets[k];
        if id in invoices {
          prior := prior + [(id, invoices[id].category)];
          invoices := invoices[id := invoices[id].(category := to)];
        }
      }
      assert targets[..|targets|] == targets;
      if prior == [] {
        NothingFiled(old(invoices), targets, to);
        return Refused(NoneFound);
      }
      var id := LogActivity("categorize", Some(UndoCategorize(prior, to)));
      answer := Done(Some(id));
    }

    // ----- the letters -----

    method WhyNotWriteTo(i: string) returns (why: Option<Reason>)
      requires Keyed(View())
      ensures why == WhyNotWrite(View(), i)
    {
      if i !in invoices { return Some(NoSuchInvoice); }
      var invoice := GetInvoice(i);
      why := WhyNotChase(invoice);
      if why.Some? { return; }
      var verdict := StatementHoldsIt(i);
      if verdict.Blocked? { return Some(StatementHolds(verdict.credit)); }
    }

    method DraftReminderAction(i: string, tone: Tone, now: nat) returns (answer: Answer)
      requires Keyed(View())
      modifies this
      ensures Step(View(), answer) == DraftReminder(old(View()), i, tone, now)
    {
      var why := WhyNotWriteTo(i);
      if why.Some? { return Refused(why.value); }
      var invoice := GetInvoice(i);
      answer := InsertDraft(i, tone, LetterFor(invoice, tone), now);
    }

    method InsertDraft(i: string, tone: Tone, letter: Letter, now: nat) returns (answer: Answer)
      modifies this
      ensures Step(View(), answer) == PutDraft(old(View()), i, tone, letter, now)
    {
      var id := ReminderIdFor(i, now);
      if id in reminders { return Aborted; }
      reminders := reminders[id := DraftOf(i, tone, letter, now)];
      var entry := LogActivity("draft_reminder", Some(UndoReminder(id)));
      answer := Done(Some(entry));
    }

    /** The stale draft goes and a fresh one comes, neither of them sent. */
    method RedraftStale(i: string, stale: string, letter: Letter, now: nat) returns (answer: Answer)
      requires stale in reminders
      modifies this
      ensures Step(View(), answer) == Redraft(old(View()), i, stale, letter, now)
    {
      var id := ReminderIdFor(i, now) + "_r";
      var left := reminders - {stale};
      if id in left { return Aborted; }
      reminders := left[id := DraftOf(i, reminders[stale].tone, letter, now)];
      var _ := LogActivity("draft_reminder", Some(UndoReminder(id)));
      answer := Redrafted(id);
    }

    /** Removes every unsent row of the invoice; the row being kept has been sent by now. */
    method DropDrafts(i: string)
      modifies this`reminders
      ensures View() == old(View()).(reminders := WithoutDrafts(old(reminders), i))
    {
      var left := reminders.Keys;
      while left != {}
        invariant left <= old(reminders).Keys
        invariant reminders ==
                  map r | r in old(reminders) && (r in left || !IsDraftOf(old(reminders)[r], i)) :: old(reminders)[r]
        decreases |left|
      {
        var r :| r in left;
        left := left - {r};
        if IsDraftOf(reminders[r], i) {
          reminders := reminders - {r};
        }
      }
    }

    method SendReminderAction(i: string, named: Option<string>, now: nat) returns (answer: Answer)
      requires Keyed(View())
      modifies this
      ensures Step(View(), answer) == SendReminder(old(View()), i, named, now)
    {
      if i !in invoices { return Refused(NoSuchInvoice); }
      var draft := FindNewestDraft(i);
      if named.Some? && named != draft { return Refused(NotTheLetter); }
      if draft.None? { return Refused(NothingDrafted); }
      var why := WhyNotWriteTo(i);
      if why.Some? { return Refused(why.value); }
      var invoice := GetInvoice(i);
      var stored := reminders[draft.value];
      var today := LetterFor(invoice, stored.tone);
      if today.subject != stored.subject || today.body != stored.body {
        answer := RedraftStale(i, draft.value, today, now);
      } else {
        answer := DispatchDraft(i, draft.value, now);
      }
    }

    method DispatchDraft(i: string, draft: string, now: nat) returns (answer: Answer)
      requires draft in reminders && IsDraftOf(reminders[draft], i)
      modifies this
      ensures Step(View(), answer) == Dispatch(old(View()), i, draft, now)
    {
      var sent := reminders[draft].(sentAt := Some(now));
      reminders := reminders[draft := sent];
      DropDrafts(i);
      assert reminders == WithoutDrafts(old(reminders), i)[draft := sent];
      var _ := LogActivity("send_reminder", None);
      answer := Done(None);
    }

    // ----- undo -----

    method RestoreCategories(prior: seq<(string, string)>)
      modifies this`invoices
      ensures View() == old(View()).(invoices := Restore(old(invoices), prior))
    {
      for k := 0 to |prior|
        invariant View() == old(View()).(invoices := Restore(old(invoices), prior[..k]))
      {
        assert prior[..k + 1][..k] == prior[..k];
        if prior[k].0 in invoices {
          invoices := invoices[prior[k].0 := invoices[prior[k].0].(category := prior[k].1)];
        }
      }
      assert prior[..|prior|] == prior;
    }

    /** The app's half of an undo: put back, refuse having written nothing, or throw having written nothing. */
    method Reverse(undo: Undo) returns (refused: Option<Reason>, threw: bool)
      requires Keyed(View())
      modifies this
      ensures match ApplyUndo(old(View()), undo)
              case PutBack(b) => refused.None? && !threw && View() == b
              case RefusedUndo(why) => refused == Some(why) && !threw && View() == old(View())
              case Threw => refused.None? && threw && View() == old(View())
    {
      refused, threw := None, false;
      match undo
      case UndoCategorize(prior, to) =>
        if exists k :: 0 <= k < |prior| && prior[k].0 in invoices && invoices[prior[k].0].category != to {
          refused := Some(RefiledSince);
        } else {
          RestoreCategories(prior);
        }
      case UndoMatch(i, line, payment) =>
        if (i, line) !in matches || payment !in payments || payments[payment].invoice != i {
          refused := Some(NoLongerThere);
        } else {
          matches := matches - {(i, line)};
          payments := payments - {payment};
        }
      case UndoUnmatch(i, line, row, payment, lifted) =>
        refused, threw := Reapply(i, line, row, payment, lifted);
      case UndoReminder(id) =>
        if id !in reminders {
          refused := Some(Replaced);
        } else if reminders[id].sentAt.Some? {
          refused := Some(AlreadySent);
        } else {
          reminders := reminders - {id};
        }
    }

    method Reapply(i: string, line: string, row: MatchRow, payment: string, lifted: Payment)
      returns (refused: Option<Reason>, threw: bool)
      requires Keyed(View())
      modifies this
      ensures match ApplyUndo(old(View()), UndoUnmatch(i, line, row, payment, lifted))
              case PutBack(b) => refused.None? && !threw && View() == b
              case RefusedUndo(why) => refused == Some(why) && !threw && View() == old(View())
              case Threw => refused.None? && threw && View() == old(View())
    {
      refused, threw := None, false;
      var applied := IsApplied(line);
      if applied { return Some(AppliedElsewhere), false; }
      if i in invoices {
        var invoice := GetInvoice(i);
        if lifted.amount > invoice.balance { return Some(MoreThanOwed), false; }
      }
      if payment in payments || i !in invoices || line !in lines { return None, true; }
      matches := matches[(i, line) := row];
      payments := payments[payment := lifted];
    }

    method UndoAction(n: nat) returns (answer: Answer)
      requires Keyed(View())
      modifies this
      ensures Step(View(), answer) == UndoActivity(old(View()), n)
    {
      if n == 0 || n > |log| { return Refused(NoActivity); }
      var entry := log[n - 1];
      if entry.undo.None? { return Refused(NotReversible); }
      if entry.undone { return Refused(AlreadyUndone); }
      var refused, threw := Reverse(entry.undo.value);
      if threw { return Aborted; }
      if refused.Some? { return Refused(refused.value); }
      ApplyUndoKeepsLog(old(View()), entry.undo.value);
      log := log[n - 1 := entry.(undone := true)];
      var _ := LogActivity("undo", None);
      answer := Done(None);
    }
  }

  lemma {:induction false} NothingFiled(invoices: map<string, Invoice>, targets: seq<string>, to: string)
    requires File(invoices, targets, to).prior == []
    ensures File(invoices, targets, to).invoices == invoices
  {
    if targets == [] {
    } else {
      NothingFiled(invoices, targets[..|targets| - 1], to);
    }
  }

  lemma ApplyUndoKeepsLog(s: Books, undo: Undo)
    requires Keyed(s) && ApplyUndo(s, undo).PutBack?
    ensures ApplyUndo(s, undo).books.log == s.log
  {
  }
}
