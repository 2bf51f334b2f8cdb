/**
 When a match can abort. Applying a credit inserts a payment row named after its bank line, and unmatch may lift a row
 that is not its match's own: so an undo can put a row back under the name of a line that is by then in the pool.
 `Snag` says of which books this is true, before anything has happened to them.
 */
module LedgerboxNaming {
  import opened LedgerboxBooks
  import opened LedgerboxInvariants
  import LedgerboxReminder
  import opened LedgerboxTypes
  import opened LedgerboxUndo
  import opened Options
  import opened Tables
  import opened Texts

  const MATCH_PREFIX := "pay_match_"

  /** A row bearing some bank line's name. */
  predicate Named(payment: string) {
    MATCH_PREFIX <= payment
  }

  /** A row that sorts behind all of those. */
  predicate Late(payment: string) {
    !Named(payment) && !AtMost(payment, MATCH_PREFIX)
  }

  function TimelyFact(i: string, day: Instant, cents: int): (string, Payment) -> int {
    (id: string, p: Payment) => if IsFactPayment(p, i, day, cents) && !Late(id) then 1 else 0
  }

  /** Of this fact there is a row that is not late for every match. */
  ghost predicate Covered(s: Books, i: string, day: Instant, cents: int) {
    Total(s.matches, MatchesFact(s.lines, i, day, cents)) <= Total(s.payments, TimelyFact(i, day, cents))
  }

  function AppliedTo(lines: map<string, BankLine>, i: string): ((string, string), MatchRow) -> int {
    (key: (string, string), row: MatchRow) => if key.0 == i && key.1 in lines then lines[key.1].amount else 0
  }

  /** What is paid on an invoice beside what its matches account for: no unmatch ever takes that off. */
  ghost function FreePaid(s: Books, i: string): int {
    PaidCents(s.payments, i) - Total(s.matches, AppliedTo(s.lines, i))
  }

  /** A line that a match of this invoice is not refused for. */
  ghost predicate Matchable(s: Books, i: string, l: string) {
    && i in s.invoices && s.invoices[i].status != Void && s.invoices[i].status != Draft
    && l in s.lines && s.lines[l].direction == In
  }

  predicate Alike(a: BankLine, b: BankLine) {
    a.postedAt == b.postedAt && a.amount == b.amount
  }

  /**
   Line `o` is on invoice `i`, and `m` is a credit of the same day and amount for which the invoice has room beside it;
   and of their fact there are more matches than rows that are not late.
   */
  ghost predicate Snag(s: Books, i: string, o: string, m: string) {
    && (i, o) in s.matches && o in s.lines && o != m && Matchable(s, i, m) && Alike(s.lines[o], s.lines[m])
    && !Covered(s, i, s.lines[o].postedAt, s.lines[o].amount)
    && FreePaid(s, i) + 2 * s.lines[o].amount <= s.invoices[i].amount
  }

  ghost predicate SnagFree(s: Books) {
    forall i, o, m :: !Snag(s, i, o, m)
  }

  /** Books nobody has acted on: nothing to take back, and no row that bears a line's name. */
  ghost predicate Fresh(s: Books) {
    && Sound(s) && (forall p :: p in s.payments ==> !Named(p))
    && forall k :: 0 <= k < |s.log| ==> s.log[k].undo.None?
  }

  // ----- what a run keeps, beside the books it started from -----

  ghost predicate SameBills(start: Books, s: Books) {
    && s.lines == start.lines && s.invoices.Keys == start.invoices.Keys
    && forall i :: i in s.invoices ==>
         s.invoices[i].amount == start.invoices[i].amount
         && (s.invoices[i].status == start.invoices[i].status || s.invoices[i].status == Void)
  }

  /** A row named after a line stands while that line is on the row's invoice. */
  ghost predicate NamesBacked(s: Books) {
    forall p :: p in s.payments && Named(p) ==>
      exists m :: p == PaymentIdFor(m) && (s.payments[p].invoice, m) in s.matches
  }

  /** A match with no row of its line's name. */
  ghost predicate Bare(s: Books, i: string, l: string) {
    (i, l) in s.matches && PaymentIdFor(l) !in s.payments
  }

  ghost predicate BareFromStart(start: Books, s: Books) {
    forall i, l :: Bare(s, i, l) ==> (i, l) in start.matches
  }

  ghost predicate NamedFit(start: Books, s: Books) {
    forall i, l :: (i, l) in s.matches && PaymentIdFor(l) in s.payments ==> Matchable(start, i, l)
  }

  ghost predicate NoLessFree(start: Books, s: Books) {
    forall i :: FreePaid(s, i) >= FreePaid(start, i)
  }

  ghost predicate StillCovered(start: Books, s: Books) {
    forall i, day, cents :: Covered(start, i, day, cents) ==> Covered(s, i, day, cents)
  }

  ghost predicate NamesTraced(start: Books, s: Books) {
    NamesBacked(s) && BareFromStart(start, s) && NamedFit(start, s)
  }

  ghost predicate Traced(start: Books, s: Books) {
    SameBills(start, s) && NamesTraced(start, s) && NoLessFree(start, s) && StillCovered(start, s)
  }

  /** A row an unmatch may lift, and its undo restore: the match's own, or that of a match there from the start. */
  ghost predicate OwnOrBare(start: Books, i: string, l: string, x: string) {
    || (x == PaymentIdFor(l) && Matchable(start, i, l))
    || (!Named(x) && (i, l) in start.matches && l in start.lines
        && (Covered(start, i, start.lines[l].postedAt, start.lines[l].amount) ==> !Late(x)))
  }

  ghost predicate LogTraced(start: Books, log: seq<Entry>) {
    forall k :: 0 <= k < |log| && log[k].undo.Some? && log[k].undo.value.UndoUnmatch? ==>
      OwnOrBare(start, log[k].undo.value.invoice, log[k].undo.value.line, log[k].undo.value.payment)
  }

  ghost predicate Kept(start: Books, s: Books) {
    Sound(s) && Traced(start, s) && LogTraced(start, s.log)
  }

  lemma FreshIsKept(s: Books)
    requires Fresh(s)
    ensures Kept(s, s)
  {
    forall i, l | (i, l) in s.matches ensures PaymentIdFor(l) !in s.payments {
      OwnNameIsNamed(l);
    }
  }

  // ----- names -----

  lemma PrefixSortsFirst(p: string, s: string)
    requires p <= s
    ensures AtMost(p, s)
  {
    if p == [] {
    } else {
      assert s[0] == p[0];
      PrefixSortsFirst(p[1..], s[1..]);
    }
  }

  lemma OwnNameIsNamed(l: string)
    ensures Named(PaymentIdFor(l))
  {
  }

  lemma NamedIsNotLate(l: string)
    ensures !Late(PaymentIdFor(l))
  {
  }

  /** A row that is neither named nor late sorts before every named one. */
  lemma EarlySortsFirst(u: string, m: string)
    requires !Named(u) && !Late(u)
    ensures !AtMost(PaymentIdFor(m), u)
  {
    if AtMost(PaymentIdFor(m), u) {
      PrefixSortsFirst(MATCH_PREFIX, PaymentIdFor(m));
      AtMostTransitive(MATCH_PREFIX, PaymentIdFor(m), u);
      AtMostAntisymmetric(MATCH_PREFIX, u);
    }
  }

  /** In a traced state a row of a line's name says that line is on the row's invoice. */
  lemma NamedRowIsMatched(s: Books, l: string)
    requires NamesBacked(s) && PaymentIdFor(l) in s.payments
    ensures (s.payments[PaymentIdFor(l)].invoice, l) in s.matches
  {
    OwnNameIsNamed(l);
    var m :| PaymentIdFor(l) == PaymentIdFor(m) && (s.payments[PaymentIdFor(l)].invoice, m) in s.matches;
    NamesApart(l, m);
  }

  // ----- lifting and applying -----

  lemma LiftKeepsFree(s: Books, i: string, l: string, x: string, j: string)
    requires (i, l) in s.matches && l in s.lines && x in s.payments
    requires s.payments[x].invoice == i && s.payments[x].amount == s.lines[l].amount
    ensures FreePaid(Lift(s, i, l, x), j) == FreePaid(s, j)
  {
    TotalRemove(s.matches, (i, l), AppliedTo(s.lines, j));
    TotalRemove(s.payments, x, PaidOn(j));
  }

  lemma LiftKeepsCovered(s: Books, i: string, l: string, x: string, j: string, day: Instant, cents: int)
    requires (i, l) in s.matches && l in s.lines && x in s.payments && Covered(s, j, day, cents)
    requires IsFactPayment(s.payments[x], i, s.lines[l].postedAt, s.lines[l].amount)
    ensures Covered(Lift(s, i, l, x), j, day, cents)
  {
    TotalRemove(s.matches, (i, l), MatchesFact(s.lines, j, day, cents));
    TotalRemove(s.payments, x, TimelyFact(j, day, cents));
  }

  lemma LiftKeepsBacked(s: Books, i: string, l: string, x: string)
    requires NamesBacked(s) && (x == PaymentIdFor(l) || Bare(s, i, l))
    ensures NamesBacked(Lift(s, i, l, x))
  {
    var t := Lift(s, i, l, x);
    forall p | p in t.payments && Named(p)
      ensures exists m :: p == PaymentIdFor(m) && (t.payments[p].invoice, m) in t.matches
    {
      var m :| p == PaymentIdFor(m) && (s.payments[p].invoice, m) in s.matches;
      assert m != l;
    }
  }

  lemma LiftKeepsNames(start: Books, s: Books, i: string, l: string, x: string)
    requires NamesTraced(start, s) && OneInvoicePerLine(s) && (i, l) in s.matches
    requires x == PaymentIdFor(l) || (!Named(x) && Bare(s, i, l))
    ensures NamesTraced(start, Lift(s, i, l, x))
  {
    var t := Lift(s, i, l, x);
    LiftKeepsBacked(s, i, l, x);
    forall j, k | Bare(t, j, k) ensures (j, k) in start.matches {
      OwnNameIsNamed(k);
      if PaymentIdFor(k) == x { NamesApart(k, l); }
      assert Bare(s, j, k);
    }
  }

  lemma LiftKeepsTraced(start: Books, s: Books, i: string, l: string, x: string)
    requires Traced(start, s) && OneInvoicePerLine(s) && (i, l) in s.matches && l in s.lines && x in s.payments
    requires IsFactPayment(s.payments[x], i, s.lines[l].postedAt, s.lines[l].amount)
    requires x == PaymentIdFor(l) || (!Named(x) && Bare(s, i, l))
    ensures Traced(start, Lift(s, i, l, x))
  {
    var t := Lift(s, i, l, x);
    LiftKeepsNames(start, s, i, l, x);
    forall j ensures FreePaid(t, j) >= FreePaid(start, j) { LiftKeepsFree(s, i, l, x, j); }
    forall j, day, cents | Covered(start, j, day, cents) ensures Covered(t, j, day, cents) {
      LiftKeepsCovered(s, i, l, x, j, day, cents);
    }
  }

  lemma ApplyKeepsFree(s: Books, i: string, l: string, row: MatchRow, x: string, p: Payment, j: string)
    requires (i, l) !in s.matches && l in s.lines && x !in s.payments
    requires p.invoice == i && p.amount == s.lines[l].amount
    ensures FreePaid(Apply(s, i, l, row, x, p), j) == FreePaid(s, j)
  {
    TotalInsert(s.matches, (i, l), row, AppliedTo(s.lines, j));
    TotalInsert(s.payments, x, p, PaidOn(j));
  }

  lemma ApplyKeepsCovered(s: Books, i: string, l: string, row: MatchRow, x: string, p: Payment,
                          j: string, day: Instant, cents: int)
    requires (i, l) !in s.matches && l in s.lines && x !in s.payments && Covered(s, j, day, cents)
    requires IsFactPayment(p, i, s.lines[l].postedAt, s.lines[l].amount)
    requires IsFactPayment(p, j, day, cents) ==> !Late(x)
    ensures Covered(Apply(s, i, l, row, x, p), j, day, cents)
  {
    TotalInsert(s.matches, (i, l), row, MatchesFact(s.lines, j, day, cents));
    TotalInsert(s.payments, x, p, TimelyFact(j, day, cents));
  }

  lemma ApplyKeepsBacked(s: Books, i: string, l: string, row: MatchRow, x: string, p: Payment)
    requires NamesBacked(s) && p.invoice == i && (Named(x) ==> x == PaymentIdFor(l))
    ensures NamesBacked(Apply(s, i, l, row, x, p))
  {
    var t := Apply(s, i, l, row, x, p);
    forall q | q in t.payments && Named(q)
      ensures exists m :: q == PaymentIdFor(m) && (t.payments[q].invoice, m) in t.matches
    {
      if q == x {
        assert q == PaymentIdFor(l) && (t.payments[q].invoice, l) in t.matches;
      } else {
        var m :| q == PaymentIdFor(m) && (s.payments[q].invoice, m) in s.matches;
        assert (t.payments[q].invoice, m) in t.matches;
      }
    }
  }

  lemma ApplyKeepsNames(start: Books, s: Books, i: string, l: string, row: MatchRow, x: string, p: Payment)
    requires NamesTraced(start, s) && !Applied(s, l) && p.invoice == i && OwnOrBare(start, i, l, x)
    ensures NamesTraced(start, Apply(s, i, l, row, x, p))
  {
    var t := Apply(s, i, l, row, x, p);
    ApplyKeepsBacked(s, i, l, row, x, p);
    OwnNameIsNamed(l);
    if PaymentIdFor(l) in s.payments { NamedRowIsMatched(s, l); }
    forall j, k | (j, k) in t.matches && PaymentIdFor(k) in t.payments ensures Matchable(start, j, k) {
      OwnNameIsNamed(k);
      if PaymentIdFor(k) == x { NamesApart(k, l); }
    }
    forall j, k | Bare(t, j, k) ensures (j, k) in start.matches {
      if (j, k) != (i, l) { assert Bare(s, j, k); }
    }
  }

  lemma ApplyKeepsTraced(start: Books, s: Books, i: string, l: string, row: MatchRow, x: string, p: Payment)
    requires Traced(start, s) && !Applied(s, l) && l in s.lines && x !in s.payments
    requires IsFactPayment(p, i, s.lines[l].postedAt, s.lines[l].amount) && OwnOrBare(start, i, l, x)
    ensures Traced(start, Apply(s, i, l, row, x, p))
  {
    var t := Apply(s, i, l, row, x, p);
    assert (i, l) !in s.matches;
    ApplyKeepsNames(start, s, i, l, row, x, p);
    NamedIsNotLate(l);
    forall j ensures FreePaid(t, j) >= FreePaid(start, j) { ApplyKeepsFree(s, i, l, row, x, p, j); }
    forall j, day, cents | Covered(start, j, day, cents) ensures Covered(t, j, day, cents) {
      ApplyKeepsCovered(s, i, l, row, x, p, j, day, cents);
    }
  }

  // ----- what unmatch lifts -----

  function NamedFact(i: string, day: Instant, cents: int): (string, Payment) -> int {
    (id: string, p: Payment) => if IsFactPayment(p, i, day, cents) && Named(id) then 1 else 0
  }

  function EarlyFact(i: string, day: Instant, cents: int): (string, Payment) -> int {
    (id: string, p: Payment) => if IsFactPayment(p, i, day, cents) && !Named(id) && !Late(id) then 1 else 0
  }

  /** `p` is named after a line that is on its invoice, and has that line's day and amount. */
  ghost predicate NamedAfter(lines: map<string, BankLine>, matches: map<(string, string), MatchRow>,
                             id: string, p: Payment, m: string)
  {
    id == PaymentIdFor(m) && (p.invoice, m) in matches && m in lines
    && p.paidAt == lines[m].postedAt && p.amount == lines[m].amount
  }

  ghost predicate AllNamedAfter(lines: map<string, BankLine>, matches: map<(string, string), MatchRow>,
                                payments: map<string, Payment>)
  {
    forall p :: p in payments && Named(p) ==> exists m :: NamedAfter(lines, matches, p, payments[p], m)
  }

  /** Without one row, and without the match of the line it was named after, the others are named after theirs. */
  lemma OthersNamedAfter(lines: map<string, BankLine>, matches: map<(string, string), MatchRow>,
                         payments: map<string, Payment>, x: string, key: (string, string))
    requires AllNamedAfter(lines, matches, payments) && (key in matches ==> PaymentIdFor(key.1) == x)
    ensures AllNamedAfter(lines, matches - {key}, payments - {x})
  {
    forall p | p in payments - {x} && Named(p)
      ensures exists k :: NamedAfter(lines, matches - {key}, p, (payments - {x})[p], k)
    {
      var k :| NamedAfter(lines, matches, p, payments[p], k);
      assert NamedAfter(lines, matches - {key}, p, (payments - {x})[p], k);
    }
  }

  /** Rows named after lines are no more, of one fact, than the matches of those lines. */
  lemma {:induction false} NamedAreMatched(lines: map<string, BankLine>, matches: map<(string, string), MatchRow>,
                                           payments: map<string, Payment>, i: string, day: Instant, cents: int)
    requires AllNamedAfter(lines, matches, payments)
    ensures Total(payments, NamedFact(i, day, cents)) <= Total(matches, MatchesFact(lines, i, day, cents))
    decreases |payments|
  {
    if payments == map[] {
      TotalNonNegative(matches, MatchesFact(lines, i, day, cents));
    } else {
      var x :| x in payments;
      TotalRemove(payments, x, NamedFact(i, day, cents));
      if Named(x) {
        var m :| NamedAfter(lines, matches, x, payments[x], m);
        var key := (payments[x].invoice, m);
        TotalRemove(matches, key, MatchesFact(lines, i, day, cents));
        OthersNamedAfter(lines, matches, payments, x, key);
        NamedAreMatched(lines, matches - {key}, payments - {x}, i, day, cents);
      } else {
        StillNamedAfter(lines, matches, payments, x);
        NamedAreMatched(lines, matches, payments - {x}, i, day, cents);
      }
    }
  }

  lemma StillNamedAfter(lines: map<string, BankLine>, matches: map<(string, string), MatchRow>,
                        payments: map<string, Payment>, x: string)
    requires AllNamedAfter(lines, matches, payments)
    ensures AllNamedAfter(lines, matches, payments - {x})
  {
    forall p | p in payments - {x} && Named(p)
      ensures exists k :: NamedAfter(lines, matches, p, (payments - {x})[p], k)
    {
      var k :| NamedAfter(lines, matches, p, payments[p], k);
      assert NamedAfter(lines, matches, p, (payments - {x})[p], k);
    }
  }

  /** Where the fact of a bare match is covered, one of its rows is neither named nor late. */
  lemma EarlyRowThere(s: Books, i: string, l: string) returns (e: string)
    requires Sound(s) && NamesBacked(s) && Bare(s, i, l)
    requires Covered(s, i, s.lines[l].postedAt, s.lines[l].amount)
    ensures e in FactPayments(s.payments, i, s.lines[l].postedAt, s.lines[l].amount) && !Named(e) && !Late(e)
  {
    var day, cents := s.lines[l].postedAt, s.lines[l].amount;
    NamesBackedWithout(s, i, l);
    NamedAreMatched(s.lines, s.matches - {(i, l)}, s.payments, i, day, cents);
    TotalRemove(s.matches, (i, l), MatchesFact(s.lines, i, day, cents));
    TotalAdds(s.payments, NamedFact(i, day, cents), EarlyFact(i, day, cents), TimelyFact(i, day, cents));
    e := TotalWitness(s.payments, EarlyFact(i, day, cents));
  }

  lemma NamesBackedWithout(s: Books, i: string, l: string)
    requires Sound(s) && NamesBacked(s) && Bare(s, i, l)
    ensures AllNamedAfter(s.lines, s.matches - {(i, l)}, s.payments)
  {
    forall p | p in s.payments && Named(p)
      ensures exists m :: NamedAfter(s.lines, s.matches - {(i, l)}, p, s.payments[p], m)
    {
      var m :| p == PaymentIdFor(m) && (s.payments[p].invoice, m) in s.matches;
      assert Honest(s, p, s.payments[p]);
      assert NamedAfter(s.lines, s.matches - {(i, l)}, p, s.payments[p], m);
    }
  }

  /** Two matches of one invoice take twice the amount of its room. */
  lemma TwoMatchesTakeRoom(s: Books, i: string, l: string, m: string)
    requires Sound(s) && (i, l) in s.matches && (i, m) in s.matches && l != m && Alike(s.lines[l], s.lines[m])
    ensures FreePaid(s, i) + 2 * s.lines[l].amount <= PaidCents(s.payments, i)
    ensures PaidCents(s.payments, i) <= if s.invoices[i].status == Void then 0 else s.invoices[i].amount
  {
    TotalRemove(s.matches, (i, l), AppliedTo(s.lines, i));
    TotalRemove(s.matches - {(i, l)}, (i, m), AppliedTo(s.lines, i));
    TotalNonNegative(s.matches - {(i, l)} - {(i, m)}, AppliedTo(s.lines, i));
  }

  /** A bare match beside a named one of its fact, uncovered: the start had a snag. */
  lemma BareBesideNamed(start: Books, s: Books, i: string, l: string, m: string)
    requires Sound(start) && Sound(s) && Traced(start, s) && Bare(s, i, l)
    requires (i, m) in s.matches && PaymentIdFor(m) in s.payments && Alike(s.lines[l], s.lines[m])
    requires !Covered(start, i, s.lines[l].postedAt, s.lines[l].amount)
    ensures Snag(start, i, l, m)
  {
    TwoMatchesTakeRoom(s, i, l, m);
    assert FreePaid(s, i) >= FreePaid(start, i);
    assert Matchable(start, i, m) && (i, l) in start.matches;
    assert 0 <= PaidCents(start.payments, i) <= start.invoices[i].amount;
  }

  /** The row an unmatch finds for a bare match is bare too: it is named after no line. */
  lemma BarePick(start: Books, s: Books, i: string, l: string, x: string)
    requires Sound(start) && SnagFree(start) && Sound(s) && Traced(start, s) && Bare(s, i, l)
    requires IsFirst(FactPayments(s.payments, i, s.lines[l].postedAt, s.lines[l].amount), x)
    ensures !Named(x)
    ensures Covered(start, i, s.lines[l].postedAt, s.lines[l].amount) ==> !Late(x)
  {
    if Covered(start, i, s.lines[l].postedAt, s.lines[l].amount) {
      var e := EarlyRowThere(s, i, l);
      if Named(x) {
        var m :| x == PaymentIdFor(m) && (s.payments[x].invoice, m) in s.matches;
        EarlySortsFirst(e, m);
      } else if Late(x) {
        AtMostTransitive(x, e, MATCH_PREFIX);
      }
    } else if Named(x) {
      var m :| x == PaymentIdFor(m) && (s.payments[x].invoice, m) in s.matches;
      assert Honest(s, x, s.payments[x]);
      BareBesideNamed(start, s, i, l, m);
    }
  }

  /** What unmatch lifts: the match's own named row, or a row named after no line. */
  lemma PickIsOwnOrBare(start: Books, s: Books, i: string, l: string, x: string)
    requires Sound(start) && SnagFree(start) && Sound(s) && Traced(start, s) && (i, l) in s.matches
    requires PaymentForMatch(s, i, s.lines[l]) == Some(x)
    ensures OwnOrBare(start, i, l, x) && (x == PaymentIdFor(l) || (!Named(x) && Bare(s, i, l)))
  {
    if PaymentIdFor(l) in s.payments {
      NamedRowIsMatched(s, l);
    } else {
      BarePick(start, s, i, l, x);
    }
  }

  // ----- each act -----

  lemma LoggedKeepsTraced(start: Books, s: Books, action: string, undo: Option<Undo>)
    requires Traced(start, s) && LogTraced(start, s.log)
    requires undo.Some? && undo.value.UndoUnmatch? ==>
             OwnOrBare(start, undo.value.invoice, undo.value.line, undo.value.payment)
    ensures Traced(start, Logged(s, action, undo)) && LogTraced(start, Logged(s, action, undo).log)
  {
    TracedFrame(start, s, Logged(s, action, undo));
  }

  lemma TracedFrame(start: Books, s: Books, t: Books)
    requires Traced(start, s) && t.lines == s.lines && t.matches == s.matches && t.payments == s.payments
    requires SameBills(start, t)
    ensures Traced(start, t)
  {
    forall j ensures FreePaid(t, j) >= FreePaid(start, j) { assert FreePaid(s, j) >= FreePaid(start, j); }
    forall i, day, cents | Covered(start, i, day, cents) ensures Covered(t, i, day, cents) {
      assert Covered(s, i, day, cents);
    }
    forall j, k | Bare(t, j, k) ensures (j, k) in start.matches { assert Bare(s, j, k); }
  }

  lemma MatchKeepsKept(start: Books, s: Books, i: string, l: string, actor: Actor, evidence: string, now: nat)
    requires Kept(start, s)
    ensures Kept(start, MatchLine(s, i, l, actor, evidence, now).books)
  {
    MatchKeepsSound(s, i, l, actor, evidence, now);
    if MatchLine(s, i, l, actor, evidence, now).answer.Done? {
      var row, p := Matched(s, i, l, actor, evidence, now);
      MatchedWasMatchable(start, s, i, l, actor, evidence, now);
      ApplyKeepsTraced(start, s, i, l, row, PaymentIdFor(l), p);
      LoggedKeepsTraced(start, Apply(s, i, l, row, PaymentIdFor(l), p), "match_bank_line",
                        Some(UndoMatch(i, l, PaymentIdFor(l))));
    }
  }

  lemma MatchedWasMatchable(start: Books, s: Books, i: string, l: string, actor: Actor, evidence: string, now: nat)
    requires Keyed(s) && SameBills(start, s) && MatchLine(s, i, l, actor, evidence, now).answer.Done?
    ensures Matchable(start, i, l)
  {
  }

  lemma UnmatchKeepsKept(start: Books, s: Books, i: string, l: string)
    requires Sound(start) && SnagFree(start) && Kept(start, s)
    ensures Kept(start, Unmatch(s, i, l).books)
  {
    UnmatchKeepsSound(s, i, l);
    if (i, l) in s.matches {
      var x, undo := Picked(s, i, l);
      PickIsOwnOrBare(start, s, i, l, x);
      LiftKeepsTraced(start, s, i, l, x);
      LoggedKeepsTraced(start, Lift(s, i, l, x), "unmatch", Some(undo));
    }
  }

  lemma Picked(s: Books, i: string, l: string) returns (x: string, undo: Undo)
    requires Sound(s) && (i, l) in s.matches
    ensures PaymentForMatch(s, i, s.lines[l]) == Some(x) && x in s.payments
    ensures IsFactPayment(s.payments[x], i, s.lines[l].postedAt, s.lines[l].amount)
    ensures undo.UndoUnmatch? && undo.invoice == i && undo.line == l && undo.payment == x
    ensures Unmatch(s, i, l).books == Logged(Lift(s, i, l, x), "unmatch", Some(undo))
  {
    x, undo := Unmatched(s, i, l);
    MatchHasItsPayment(s, i, l);
  }

  lemma EarlierLetterSortsFirst(a: string, b: string, k: nat)
    requires k < |a| && k < |b| && a[..k] == b[..k] && a[k] < b[k]
    ensures AtMost(a, b)
  {
    if k > 0 {
      assert a[0] == a[..k][0] == b[..k][0] == b[0];
      assert a[1..][..k - 1] == a[..k][1..] && b[1..][..k - 1] == b[..k][1..];
      EarlierLetterSortsFirst(a[1..], b[1..], k - 1);
    }
  }

  lemma ManualIsEarly(i: string, now: nat)
    ensures !Named(ManualIdFor(i, now)) && !Late(ManualIdFor(i, now))
  {
    var id := ManualIdFor(i, now);
    assert id[6] == 'n' && MATCH_PREFIX[6] == 't';
    assert id[..6] == MATCH_PREFIX[..6];
    EarlierLetterSortsFirst(id, MATCH_PREFIX, 6);
  }

  /** A row of no line's name: more is paid, and no less is covered. */
  lemma PayingKeepsTraced(start: Books, s: Books, id: string, p: Payment)
    requires Traced(start, s) && id !in s.payments && !Named(id) && p.amount >= 0
    ensures Traced(start, s.(payments := s.payments[id := p]))
  {
    var t := s.(payments := s.payments[id := p]);
    forall j ensures FreePaid(t, j) >= FreePaid(start, j) {
      TotalInsert(s.payments, id, p, PaidOn(j));
      assert FreePaid(s, j) >= FreePaid(start, j);
    }
    forall i, day, cents | Covered(start, i, day, cents) ensures Covered(t, i, day, cents) {
      TotalInsert(s.payments, id, p, TimelyFact(i, day, cents));
      assert Covered(s, i, day, cents);
    }
    PayingKeepsNames(start, s, id, p);
  }

  lemma PayingKeepsNames(start: Books, s: Books, id: string, p: Payment)
    requires NamesTraced(start, s) && id !in s.payments && !Named(id)
    ensures NamesTraced(start, s.(payments := s.payments[id := p]))
  {
    var t := s.(payments := s.payments[id := p]);
    forall q | q in t.payments && Named(q)
      ensures exists m :: q == PaymentIdFor(m) && (t.payments[q].invoice, m) in t.matches
    {
      var m :| q == PaymentIdFor(m) && (s.payments[q].invoice, m) in s.matches;
      assert (t.payments[q].invoice, m) in t.matches;
    }
    forall j, k | (j, k) in t.matches && PaymentIdFor(k) in t.payments ensures Matchable(start, j, k) {
      OwnNameIsNamed(k);
    }
    forall j, k | Bare(t, j, k) ensures (j, k) in start.matches { assert Bare(s, j, k); }
  }

  lemma MarkPaidKeepsKept(start: Books, s: Books, i: string, amount: int, now: nat)
    requires Kept(start, s)
    ensures Kept(start, MarkPaid(s, i, amount, now).books)
  {
    MarkPaidKeepsSound(s, i, amount, now);
    MarkPaidCases(s, i, amount, now);
    if MarkPaid(s, i, amount, now).books != s {
      var id, p := ManualIdFor(i, now), Payment(i, now, amount, "transfer", BY_HAND);
      ManualIsEarly(i, now);
      PayingKeepsTraced(start, s, id, p);
      LoggedKeepsTraced(start, s.(payments := s.payments[id := p]), "mark_paid", None);
    }
  }

  /** Lines, matches and payments as they were, an invoice voided or refiled at most, and no unmatch logged. */
  ghost predicate Elsewhere(s: Books, t: Books) {
    && t.lines == s.lines && t.matches == s.matches && t.payments == s.payments && SameBills(s, t)
    && (t.log == s.log || exists entry: Entry :: AddsRow(s.log, t.log, entry))
  }

  ghost predicate AddsRow(before: seq<Entry>, after: seq<Entry>, entry: Entry) {
    after == before + [entry] && (entry.undo.Some? ==> !entry.undo.value.UndoUnmatch?)
  }

  lemma ElsewhereKeepsKept(start: Books, s: Books, t: Books)
    requires Kept(start, s) && Sound(t) && Elsewhere(s, t)
    ensures Kept(start, t)
  {
    TracedFrame(start, s, t);
    if t.log != s.log {
      var entry: Entry :| AddsRow(s.log, t.log, entry);
    }
  }

  lemma LoggedElsewhere(s: Books, b: Books, action: string, undo: Option<Undo>)
    requires b.lines == s.lines && b.matches == s.matches && b.payments == s.payments && b.log == s.log
    requires SameBills(s, b) && (undo.Some? ==> !undo.value.UndoUnmatch?)
    ensures Elsewhere(s, Logged(b, action, undo))
  {
    assert AddsRow(s.log, Logged(b, action, undo).log, Entry(action, undo, false));
  }

  lemma VoidElsewhere(s: Books, i: string)
    requires Keyed(s)
    ensures Elsewhere(s, VoidInvoice(s, i).books)
  {
    if VoidInvoice(s, i).answer.Done? {
      LoggedElsewhere(s, s.(invoices := s.invoices[i := s.invoices[i].(status := Void)]), "void_invoice", None);
    }
  }

  lemma CategorizeElsewhere(s: Books, ids: seq<string>, to: string)
    ensures Elsewhere(s, Categorize(s, ids, to).books)
  {
    var filing := File(s.invoices, Targets(ids), to);
    FileTouchesCategories(s.invoices, Targets(ids), to);
    LoggedElsewhere(s, s.(invoices := filing.invoices), "categorize", Some(UndoCategorize(filing.prior, to)));
  }

  lemma PutDraftElsewhere(s: Books, i: string, tone: Tone, letter: LedgerboxReminder.Letter, now: nat)
    ensures Elsewhere(s, PutDraft(s, i, tone, letter, now).books)
  {
    var id := ReminderIdFor(i, now);
    LoggedElsewhere(s, s.(reminders := s.reminders[id := DraftOf(i, tone, letter, now)]), "draft_reminder",
                    Some(UndoReminder(id)));
  }

  lemma DraftElsewhere(s: Books, i: string, tone: Tone, now: nat)
    requires Keyed(s)
    ensures Elsewhere(s, DraftReminder(s, i, tone, now).books)
  {
    DraftCases(s, i, tone, now);
    if DraftReminder(s, i, tone, now).books != s {
      PutDraftElsewhere(s, i, tone, LedgerboxReminder.LetterFor(RowOf(s, i), tone), now);
    }
  }

  lemma SendOrRedraftElsewhere(s: Books, i: string, draft: string, today: LedgerboxReminder.Letter, now: nat)
    requires draft in s.reminders
    ensures Elsewhere(s, SendOrRedraft(s, i, draft, today, now).books)
  {
    var id := ReminderIdFor(i, now) + "_r";
    var redrafted := (s.reminders - {draft})[id := DraftOf(i, s.reminders[draft].tone, today, now)];
    LoggedElsewhere(s, s.(reminders := redrafted), "draft_reminder", Some(UndoReminder(id)));
    var sent := WithoutDrafts(s.reminders, i)[draft := s.reminders[draft].(sentAt := Some(now))];
    LoggedElsewhere(s, s.(reminders := sent), "send_reminder", None);
  }

  lemma SendElsewhere(s: Books, i: string, named: Option<string>, now: nat)
    requires Keyed(s)
    ensures Elsewhere(s, SendReminder(s, i, named, now).books)
  {
    SendCases(s, i, named, now);
    if i in s.invoices && NewestDraft(s, i).Some? {
      var d := NewestDraft(s, i).value;
      SendOrRedraftElsewhere(s, i, d, LedgerboxReminder.LetterFor(RowOf(s, i), s.reminders[d].tone), now);
    }
  }

  // ----- undo -----

  lemma ReversalKeepsTraced(start: Books, s: Books, undo: Undo)
    requires Sound(s) && Traced(start, s) && SoundUndo(s, undo) && ApplyUndo(s, undo).PutBack?
    requires undo.UndoUnmatch? ==> OwnOrBare(start, undo.invoice, undo.line, undo.payment)
    ensures Traced(start, ApplyUndo(s, undo).books)
  {
    match undo
    case UndoMatch(i, l, payment) =>
      assert Honest(s, payment, s.payments[payment]);
      LiftKeepsTraced(start, s, i, l, payment);
    case UndoUnmatch(i, l, row, payment, p) => ApplyKeepsTraced(start, s, i, l, row, payment, p);
    case UndoCategorize(prior, to) =>
      RestoreTouchesCategories(s.invoices, prior);
      TracedFrame(start, s, ApplyUndo(s, undo).books);
    case UndoReminder(_) => TracedFrame(start, s, ApplyUndo(s, undo).books);
  }

  lemma UndoKeepsKept(start: Books, s: Books, n: nat)
    requires Kept(start, s)
    ensures Kept(start, UndoActivity(s, n).books)
  {
    UndoKeepsSound(s, n);
    UndoCases(s, n);
    if Taken(s, n) {
      var undo := s.log[n - 1].undo.value;
      assert SoundUndo(s, undo);
      ReversalKeepsTraced(start, s, undo);
      var b := ApplyUndo(s, undo).books.(log := MarkUndone(s.log, n));
      TracedFrame(start, ApplyUndo(s, undo).books, b);
      LoggedKeepsTraced(start, b, "undo", None);
    }
  }

  // ----- runs -----

  lemma OtherStepKeepsKept(start: Books, s: Books, act: Act, now: nat)
    requires Kept(start, s) && (act.WriteOff? || act.FileUnder? || act.DraftLetter? || act.SendLetter?)
    ensures Kept(start, Perform(s, act, now).books)
  {
    StepKeepsSound(s, act, now);
    StepElsewhere(s, act, now);
    ElsewhereKeepsKept(start, s, Perform(s, act, now).books);
  }

  /**
   From books without a snag no act and no undo lets a row outlive the match it is named after, or lifts or restores a
   row of another line's name.
   */
  lemma StepKeepsKept(start: Books, s: Books, act: Act, now: nat)
    requires Sound(start) && SnagFree(start) && Kept(start, s)
    ensures Kept(start, Perform(s, act, now).books)
  {
    match act
    case Match(i, l, actor, evidence) => MatchKeepsKept(start, s, i, l, actor, evidence, now);
    case Unapply(i, l) => UnmatchKeepsKept(start, s, i, l);
    case Pay(i, amount) => MarkPaidKeepsKept(start, s, i, amount, now);
    case TakeBack(n) => UndoKeepsKept(start, s, n);
    case _ => OtherStepKeepsKept(start, s, act, now);
  }

  lemma StepElsewhere(s: Books, act: Act, now: nat)
    requires Keyed(s) && (act.WriteOff? || act.FileUnder? || act.DraftLetter? || act.SendLetter?)
    ensures Elsewhere(s, Perform(s, act, now).books)
  {
    match act
    case WriteOff(i) => VoidElsewhere(s, i);
    case FileUnder(ids, category) => CategorizeElsewhere(s, ids, category);
    case DraftLetter(i, tone) => DraftElsewhere(s, i, tone, now);
    case SendLetter(i, named) => SendElsewhere(s, i, named, now);
  }

  lemma {:induction false} RunKeepsKept(start: Books, acts: seq<(Act, nat)>)
    requires Fresh(start) && SnagFree(start)
    ensures Kept(start, After(start, acts))
  {
    if acts == [] {
      FreshIsKept(start);
    } else {
      RunKeepsKept(start, acts[..|acts| - 1]);
      StepKeepsKept(start, After(start, acts[..|acts| - 1]), acts[|acts| - 1].0, acts[|acts| - 1].1);
    }
  }

  lemma BackedNeverAborts(s: Books, i: string, l: string, actor: Actor, evidence: string, now: nat)
    requires Keyed(s) && NamesBacked(s)
    ensures PaymentIdFor(l) in s.payments ==> Applied(s, l)
    ensures MatchLine(s, i, l, actor, evidence, now).answer != Aborted
  {
    if PaymentIdFor(l) in s.payments { NamedRowIsMatched(s, l); }
  }

  /**
   After every run from fresh books without a snag, a row named after a line is there only while the line is on an
   invoice, so no match is ever aborted.
   */
  lemma RunsNeverAbortAMatch(start: Books, acts: seq<(Act, nat)>, i: string, l: string, actor: Actor,
                             evidence: string, now: nat)
    requires Fresh(start) && SnagFree(start)
    ensures PaymentIdFor(l) in After(start, acts).payments ==> Applied(After(start, acts), l)
    ensures MatchLine(After(start, acts), i, l, actor, evidence, now).answer != Aborted
  {
    RunKeepsKept(start, acts);
    BackedNeverAborts(After(start, acts), i, l, actor, evidence, now);
  }
}
