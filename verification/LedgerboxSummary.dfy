/**
 The period's figures (`summarize` in `lib/db.ts`) and the capped table under them (`lib/export.ts`).
 */
module LedgerboxSummary {
  import opened LedgerboxBooks
  import opened LedgerboxInvariants
  import opened LedgerboxPeriods
  import opened LedgerboxTypes
  import opened Lists
  import opened Options
  import opened Tables

  /** Every invoice as its row, in due order. */
  ghost function Rows(s: Books, order: seq<string>): seq<Row>
    requires Keyed(s) && forall i :: i in order ==> i in s.invoices
  {
    if order == [] then []
    else Rows(s, order[..|order| - 1]) + [RowOf(s, order[|order| - 1])]
  }

  /** Dated in the period, and of the kind that is counted. */
  function FallsIn<T>(months: seq<string>, period: Period, day: T -> string, kept: T -> bool): T -> bool
    requires months != []
  {
    (x: T) => InPeriod(months, day(x), period) && kept(x)
  }

  function IssueDay(r: Row): string { r.invoice.issuedAt }

  predicate CountedIn(r: Row) {
    !CountedOut(r.state)
  }

  /** Billed in the period: issued in it, and neither a draft nor void. */
  function BilledIn(months: seq<string>, period: Period): Row -> bool
    requires months != []
  {
    FallsIn(months, period, IssueDay, CountedIn)
  }

  lemma BilledMeans(months: seq<string>, period: Period, r: Row)
    requires months != []
    ensures BilledIn(months, period)(r) <==> InPeriod(months, r.invoice.issuedAt, period) && !CountedOut(r.state)
  {
    assert FallsIn(months, period, IssueDay, CountedIn)(r) <==> InPeriod(months, IssueDay(r), period) && CountedIn(r);
  }

  function AmountOf(r: Row): int { r.invoice.amount }
  function BalanceOf(r: Row): int { r.balance }
  function PaidOf(r: Row): int { r.paid }

  ghost function Billed(s: Books, months: seq<string>, period: Period): seq<Row>
    requires Keyed(s) && months != []
  {
    Filter(Rows(s, s.dueOrder), BilledIn(months, period))
  }

  ghost function Invoiced(s: Books, months: seq<string>, period: Period): int
    requires Keyed(s) && months != []
  {
    Sum(Billed(s, months, period), AmountOf)
  }

  ghost function Outstanding(s: Books, months: seq<string>, period: Period): int
    requires Keyed(s) && months != []
  {
    Sum(Billed(s, months, period), BalanceOf)
  }

  /** The payments table joined to its invoices: what each payment adds to the period. */
  function CollectedFrom(invoices: map<string, Invoice>, months: seq<string>, period: Period): (string, Payment) -> int
    requires months != []
  {
    (id: string, p: Payment) =>
      if p.invoice in invoices
         && InPeriod(months, invoices[p.invoice].issuedAt, period)
         && invoices[p.invoice].status != Void && invoices[p.invoice].status != Draft
      then p.amount else 0
  }

  ghost function Collected(s: Books, months: seq<string>, period: Period): int
    requires months != []
  {
    Total(s.payments, CollectedFrom(s.invoices, months, period))
  }

  // ----- invoiced is collected and outstanding -----

  /** What a payment adds, when only the invoices of `order` are looked at. */
  function CollectedAmong(s: Books, order: seq<string>, months: seq<string>, period: Period): (string, Payment) -> int
    requires months != []
  {
    (id: string, p: Payment) =>
      if p.invoice in order then CollectedFrom(s.invoices, months, period)(id, p) else 0
  }

  lemma OneInvoiceMore(s: Books, init: seq<string>, i: string, months: seq<string>, period: Period)
    requires Keyed(s) && months != [] && i in s.invoices && i !in init
    ensures Total(s.payments, CollectedAmong(s, init + [i], months, period)) ==
            Total(s.payments, CollectedAmong(s, init, months, period)) +
            if BilledIn(months, period)(RowOf(s, i)) then PaidCents(s.payments, i) else 0
  {
    var before, after := CollectedAmong(s, init, months, period), CollectedAmong(s, init + [i], months, period);
    forall k | k in s.payments
      ensures after(k, s.payments[k]) ==
              before(k, s.payments[k]) +
              if BilledIn(months, period)(RowOf(s, i)) then PaidOn(i)(k, s.payments[k]) else 0
    {
      var p := s.payments[k];
      assert p.invoice in init + [i] <==> p.invoice in init || p.invoice == i;
      if p.invoice == i {
        assert RowOf(s, i).invoice == s.invoices[i];
        assert CountedOut(RowOf(s, i).state) <==> s.invoices[i].status == Void || s.invoices[i].status == Draft;
        BilledMeans(months, period, RowOf(s, i));
        assert CollectedFrom(s.invoices, months, period)(k, p) ==
               if BilledIn(months, period)(RowOf(s, i)) then p.amount else 0;
      }
    }
    if BilledIn(months, period)(RowOf(s, i)) {
      TotalAdds(s.payments, before, PaidOn(i), after);
    } else {
      TotalSame(s.payments, before, after);
    }
  }

  lemma SumSnoc<T>(s: seq<T>, x: T, f: T -> int)
    ensures Sum(s + [x], f) == Sum(s, f) + f(x)
  {
    assert (s + [x])[..|s|] == s;
  }

  /** Adding one element adds its figure to a filtered sum, when it passes. */
  lemma FilteredSumSnoc<T>(s: seq<T>, x: T, p: T -> bool, f: T -> int)
    ensures Sum(Filter(s + [x], p), f) == Sum(Filter(s, p), f) + if p(x) then f(x) else 0
  {
    FilterSnoc(s, x, p);
    SumSnoc(Filter(s, p), x, f);
  }

  lemma {:induction false} CollectedByInvoice(s: Books, order: seq<string>, months: seq<string>, period: Period)
    requires Keyed(s) && months != [] && Distinct(order) && forall i :: i in order ==> i in s.invoices
    ensures Total(s.payments, CollectedAmong(s, order, months, period)) ==
            Sum(Filter(Rows(s, order), BilledIn(months, period)), PaidOf)
  {
    if order == [] {
      TotalZero(s.payments, CollectedAmong(s, order, months, period));
    } else {
      var init, i := order[..|order| - 1], order[|order| - 1];
      assert order == init + [i];
      CollectedByInvoice(s, init, months, period);
      OneInvoiceMore(s, init, i, months, period);
      FilteredSumSnoc(Rows(s, init), RowOf(s, i), BilledIn(months, period), PaidOf);
    }
  }

  lemma {:induction false} TotalZero<K, V>(m: map<K, V>, w: (K, V) -> int)
    requires forall k :: k in m ==> w(k, m[k]) == 0
    ensures Total(m, w) == 0
    decreases |m|
  {
    if m == map[] {
    } else {
      TotalZero(m - {AnyKey(m)}, w);
    }
  }

  lemma {:induction false} AmountSplits(rows: seq<Row>)
    requires forall r :: r in rows ==> r.invoice.amount == r.paid + r.balance
    ensures Sum(rows, AmountOf) == Sum(rows, PaidOf) + Sum(rows, BalanceOf)
  {
    if rows == [] {
    } else {
      AmountSplits(rows[..|rows| - 1]);
    }
  }

  lemma {:induction false} RowsMember(s: Books, order: seq<string>, r: Row)
    requires Keyed(s) && forall i :: i in order ==> i in s.invoices
    requires r in Rows(s, order)
    ensures r.invoice.id in s.invoices && r == RowOf(s, r.invoice.id)
  {
    if r in Rows(s, order[..|order| - 1]) {
      RowsMember(s, order[..|order| - 1], r);
    }
  }

  lemma BilledRowAddsUp(s: Books, months: seq<string>, period: Period, r: Row)
    requires Keyed(s) && months != [] && r in Billed(s, months, period)
    ensures r.invoice.amount == r.paid + r.balance
  {
    FilterMember(Rows(s, s.dueOrder), BilledIn(months, period), r);
    RowsMember(s, s.dueOrder, r);
    BilledMeans(months, period, r);
  }

  /** In every books, over every period: invoiced is collected plus outstanding. */
  lemma InvoicedAddsUp(s: Books, months: seq<string>, period: Period)
    requires Keyed(s) && months != []
    ensures Invoiced(s, months, period) == Collected(s, months, period) + Outstanding(s, months, period)
  {
    CollectedByInvoice(s, s.dueOrder, months, period);
    TotalSame(s.payments, CollectedAmong(s, s.dueOrder, months, period), CollectedFrom(s.invoices, months, period));
    forall r | r in Billed(s, months, period) ensures r.invoice.amount == r.paid + r.balance {
      BilledRowAddsUp(s, months, period, r);
    }
    AmountSplits(Billed(s, months, period));
  }

  // ----- the capped table -----

  const LIMIT := 12

  predicate Owing(r: Row) {
    r.balance > 0
  }

  /** The "Still owed" rows, largest balance first. */
  ghost function StillOwed(s: Books, months: seq<string>, period: Period): seq<Row>
    requires Keyed(s) && months != []
  {
    SortDesc(Filter(Billed(s, months, period), Owing), BalanceOf)
  }

  function Shown(rows: seq<Row>): seq<Row> {
    if |rows| <= LIMIT then rows else rows[..LIMIT]
  }

  function Hidden(rows: seq<Row>): seq<Row> {
    if |rows| <= LIMIT then [] else rows[LIMIT..]
  }

  lemma SettledRowsOweNothing(s: Books, months: seq<string>, period: Period, r: Row)
    requires Sound(s) && months != [] && r in Billed(s, months, period) && !Owing(r)
    ensures BalanceOf(r) == 0
  {
    FilterMember(Rows(s, s.dueOrder), BilledIn(months, period), r);
    RowsMember(s, s.dueOrder, r);
  }

  lemma LargestShown(rows: seq<Row>, a: Row, b: Row)
    requires Descending(rows, BalanceOf) && a in Shown(rows) && b in Hidden(rows)
    ensures a.balance >= b.balance
  {
    var j :| 0 <= j < |Shown(rows)| && Shown(rows)[j] == a;
    var k :| 0 <= k < |Hidden(rows)| && Hidden(rows)[k] == b;
    assert BalanceOf(rows[j]) >= BalanceOf(rows[LIMIT + k]);
  }

  /** The rows that owe nothing add nothing. */
  lemma OwedIsOutstanding(s: Books, months: seq<string>, period: Period)
    requires Sound(s) && months != []
    ensures Sum(StillOwed(s, months, period), BalanceOf) == Outstanding(s, months, period)
  {
    var billed := Billed(s, months, period);
    SumSortDesc(Filter(billed, Owing), BalanceOf, BalanceOf);
    forall r | r in billed && !Owing(r) ensures BalanceOf(r) == 0 {
      SettledRowsOweNothing(s, months, period, r);
    }
    SumFilter(billed, Owing, BalanceOf);
  }

  lemma ShownAndHidden(owed: seq<Row>)
    ensures Sum(Shown(owed), BalanceOf) + Sum(Hidden(owed), BalanceOf) == Sum(owed, BalanceOf)
  {
    assert owed == Shown(owed) + Hidden(owed);
    SumConcat(Shown(owed), Hidden(owed), BalanceOf);
  }

  /** In every sound state the table's rows and its footer add up to the Outstanding figure above them. */
  lemma TableAddsUpToOutstanding(s: Books, months: seq<string>, period: Period)
    requires Sound(s) && months != []
    ensures var owed := StillOwed(s, months, period);
            && Sum(Shown(owed), BalanceOf) + Sum(Hidden(owed), BalanceOf) == Outstanding(s, months, period)
            && (forall a, b :: a in Shown(owed) && b in Hidden(owed) ==> a.balance >= b.balance)
  {
    var owed := StillOwed(s, months, period);
    ShownAndHidden(owed);
    OwedIsOutstanding(s, months, period);
    SortDescDescending(Filter(Billed(s, months, period), Owing), BalanceOf);
    forall a, b | a in Shown(owed) && b in Hidden(owed) ensures a.balance >= b.balance {
      LargestShown(owed, a, b);
    }
  }

  // ----- all the figures -----

  /** The figures of one period. */
  datatype Figures = Figures(
    invoiceCount: int, invoiced: int, collected: int, outstanding: int, overdue: int, overdueCount: int,
    unmatchedLines: int, unmatched: int, disputedCount: int)

  function InvoiceCountOf(g: Figures): int { g.invoiceCount }
  function InvoicedOf(g: Figures): int { g.invoiced }
  function CollectedOf(g: Figures): int { g.collected }
  function OutstandingOf(g: Figures): int { g.outstanding }
  function OverdueOf(g: Figures): int { g.overdue }
  function OverdueCountOf(g: Figures): int { g.overdueCount }
  function UnmatchedLinesOf(g: Figures): int { g.unmatchedLines }
  function UnmatchedOf(g: Figures): int { g.unmatched }
  function DisputedCountOf(g: Figures): int { g.disputedCount }

  predicate IsOverdue(r: Row) {
    r.daysOverdue > 0
  }

  predicate IsDisputed(r: Row) {
    r.state == DisputedState
  }

  predicate IsCredit(line: BankLine) {
    line.direction == In
  }

  function CentsOf(line: BankLine): int { line.amount }

  /** The day a line was posted, as the text `dayOf` writes its instant. */
  function PostDay(dayOf: Instant -> string): BankLine -> string {
    (line: BankLine) => dayOf(line.postedAt)
  }

  ghost function Summarize(s: Books, months: seq<string>, period: Period, dayOf: Instant -> string): Figures
    requires Keyed(s) && months != []
  {
    var rows := Billed(s, months, period);
    var overdue := Filter(rows, IsOverdue);
    var lines := Filter(PoolLines(s, s.statement), FallsIn(months, period, PostDay(dayOf), IsCredit));
    Figures(|rows|, Invoiced(s, months, period), Collected(s, months, period), Outstanding(s, months, period),
            Sum(overdue, BalanceOf), |overdue|, |lines|, Sum(lines, CentsOf), |Filter(rows, IsDisputed)|)
  }

  const NO_FIGURES := Figures(0, 0, 0, 0, 0, 0, 0, 0, 0)

  function Plus(a: Figures, b: Figures): Figures {
    Figures(a.invoiceCount + b.invoiceCount, a.invoiced + b.invoiced, a.collected + b.collected,
            a.outstanding + b.outstanding, a.overdue + b.overdue, a.overdueCount + b.overdueCount,
            a.unmatchedLines + b.unmatchedLines, a.unmatched + b.unmatched, a.disputedCount + b.disputedCount)
  }

  /** The figures of `some` months, added up. */
  ghost function Added(s: Books, months: seq<string>, some: seq<string>, dayOf: Instant -> string): Figures
    requires Keyed(s) && months != []
  {
    if some == [] then NO_FIGURES
    else Plus(Added(s, months, some[..|some| - 1], dayOf), Summarize(s, months, Month(some[|some| - 1]), dayOf))
  }

  // ----- the quarter is its months -----

  function MonthSum<T>(items: seq<T>, months: seq<string>, day: T -> string, kept: T -> bool,
                       f: T -> int): string -> int
    requires months != []
  {
    (m: string) => Sum(Filter(items, FallsIn(months, Month(m), day, kept)), f)
  }

  lemma MonthSumSnoc<T>(items: seq<T>, x: T, months: seq<string>, day: T -> string, kept: T -> bool, f: T -> int,
                        m: string)
    requires months != []
    ensures MonthSum(items + [x], months, day, kept, f)(m) ==
            MonthSum(items, months, day, kept, f)(m) + if FallsIn(months, Month(m), day, kept)(x) then f(x) else 0
  {
    FilteredSumSnoc(items, x, FallsIn(months, Month(m), day, kept), f);
  }

  /** Adding one item adds its figure to the months it falls in, of which there is at most one. */
  lemma {:induction false} OneItemMore<T>(items: seq<T>, x: T, months: seq<string>, day: T -> string, kept: T -> bool,
                                          f: T -> int, some: seq<string>)
    requires months != []
    requires forall j, k :: 0 <= j < k < |some| ==>
      !FallsIn(months, Month(some[j]), day, kept)(x) || !FallsIn(months, Month(some[k]), day, kept)(x)
    ensures Sum(some, MonthSum(items + [x], months, day, kept, f)) ==
            Sum(some, MonthSum(items, months, day, kept, f)) +
            if exists m :: m in some && FallsIn(months, Month(m), day, kept)(x) then f(x) else 0
  {
    if some == [] {
    } else {
      var init, last := some[..|some| - 1], some[|some| - 1];
      assert some == init + [last];
      OneItemMore(items, x, months, day, kept, f, init);
      MonthSumSnoc(items, x, months, day, kept, f, last);
      if FallsIn(months, Month(last), day, kept)(x) {
        assert forall m :: m in init ==> !FallsIn(months, Month(m), day, kept)(x);
        assert last in some;
      }
    }
  }

  lemma FallsInOneMonth<T>(x: T, months: seq<string>, day: T -> string, kept: T -> bool)
    requires Contiguous(months) && months != [] && IsDate(day(x))
    ensures FallsIn(months, Quarter, day, kept)(x) <==>
            exists m :: m in months && FallsIn(months, Month(m), day, kept)(x)
    ensures forall j, k :: 0 <= j < k < |months| ==>
      !FallsIn(months, Month(months[j]), day, kept)(x) || !FallsIn(months, Month(months[k]), day, kept)(x)
  {
    QuarterIsItsMonths(months, day(x));
    if FallsIn(months, Quarter, day, kept)(x) {
      var k :| 0 <= k < |months| && InPeriod(months, day(x), Month(months[k]));
      assert months[k] in months && FallsIn(months, Month(months[k]), day, kept)(x);
    }
  }

  /** Any figure summed over dated items splits over the months. */
  lemma {:induction false} ByMonth<T>(items: seq<T>, months: seq<string>, day: T -> string, kept: T -> bool,
                                      f: T -> int)
    requires Contiguous(months) && months != [] && forall x :: x in items ==> IsDate(day(x))
    ensures Sum(Filter(items, FallsIn(months, Quarter, day, kept)), f) ==
            Sum(months, MonthSum(items, months, day, kept, f))
  {
    if items == [] {
      SumZero(months, MonthSum(items, months, day, kept, f));
    } else {
      var init, x := items[..|items| - 1], items[|items| - 1];
      assert items == init + [x];
      ByMonth(init, months, day, kept, f);
      FallsInOneMonth(x, months, day, kept);
      OneItemMore(init, x, months, day, kept, f, months);
      FilteredSumSnoc(init, x, FallsIn(months, Quarter, day, kept), f);
    }
  }

  /** One of the figures, read off a sum of them as off its parts. */
  ghost predicate Additive(c: Figures -> int) {
    c(NO_FIGURES) == 0 && forall a, b :: c(Plus(a, b)) == c(a) + c(b)
  }

  ghost function InMonth(s: Books, months: seq<string>, dayOf: Instant -> string, c: Figures -> int): string -> int
    requires Keyed(s) && months != []
  {
    (m: string) => c(Summarize(s, months, Month(m), dayOf))
  }

  lemma {:induction false} AddedOne(s: Books, months: seq<string>, some: seq<string>, dayOf: Instant -> string,
                                    c: Figures -> int)
    requires Keyed(s) && months != [] && Additive(c)
    ensures c(Added(s, months, some, dayOf)) == Sum(some, InMonth(s, months, dayOf, c))
  {
    if some == [] {
    } else {
      AddedOne(s, months, some[..|some| - 1], dayOf, c);
    }
  }

  /** In every period the figure is `f`, summed over the items that fall in it. */
  ghost predicate IsSum<T>(s: Books, months: seq<string>, dayOf: Instant -> string, c: Figures -> int,
                           items: seq<T>, day: T -> string, kept: T -> bool, f: T -> int)
    requires Keyed(s) && months != []
  {
    forall period :: c(Summarize(s, months, period, dayOf)) == Sum(Filter(items, FallsIn(months, period, day, kept)), f)
  }

  lemma FigureByMonth<T>(s: Books, months: seq<string>, dayOf: Instant -> string, c: Figures -> int,
                         items: seq<T>, day: T -> string, kept: T -> bool, f: T -> int)
    requires Keyed(s) && Contiguous(months) && months != [] && forall x :: x in items ==> IsDate(day(x))
    requires Additive(c) && IsSum(s, months, dayOf, c, items, day, kept, f)
    ensures c(Summarize(s, months, Quarter, dayOf)) == c(Added(s, months, months, dayOf))
  {
    ByMonth(items, months, day, kept, f);
    AddedOne(s, months, months, dayOf, c);
    SumSame(months, MonthSum(items, months, day, kept, f), InMonth(s, months, dayOf, c));
  }

  // ----- each figure is such a sum -----

  function One<T>(x: T): int { 1 }

  lemma {:induction false} LengthIsSum<T>(items: seq<T>)
    ensures |items| == Sum(items, One)
  {
    if items == [] {
    } else {
      LengthIsSum(items[..|items| - 1]);
    }
  }

  predicate CountsOverdue(r: Row) {
    CountedIn(r) && IsOverdue(r)
  }

  predicate CountsDisputed(r: Row) {
    CountedIn(r) && IsDisputed(r)
  }

  lemma BilledAnd(s: Books, months: seq<string>, period: Period, also: Row -> bool, both: Row -> bool)
    requires Keyed(s) && months != [] && forall r :: both(r) <==> CountedIn(r) && also(r)
    ensures Filter(Billed(s, months, period), also) ==
            Filter(Rows(s, s.dueOrder), FallsIn(months, period, IssueDay, both))
  {
    FilterTwice(Rows(s, s.dueOrder), BilledIn(months, period), also, FallsIn(months, period, IssueDay, both));
  }

  lemma MoneyFiguresAreSums(s: Books, months: seq<string>, dayOf: Instant -> string)
    requires Keyed(s) && months != []
    ensures IsSum(s, months, dayOf, InvoicedOf, Rows(s, s.dueOrder), IssueDay, CountedIn, AmountOf)
    ensures IsSum(s, months, dayOf, CollectedOf, Rows(s, s.dueOrder), IssueDay, CountedIn, PaidOf)
    ensures IsSum(s, months, dayOf, OutstandingOf, Rows(s, s.dueOrder), IssueDay, CountedIn, BalanceOf)
  {
    forall period
      ensures CollectedOf(Summarize(s, months, period, dayOf)) ==
              Sum(Filter(Rows(s, s.dueOrder), FallsIn(months, period, IssueDay, CountedIn)), PaidOf)
    {
      CollectedIsPaid(s, months, period);
    }
  }

  lemma OverdueIsASum(s: Books, months: seq<string>, dayOf: Instant -> string)
    requires Keyed(s) && months != []
    ensures IsSum(s, months, dayOf, OverdueOf, Rows(s, s.dueOrder), IssueDay, CountsOverdue, BalanceOf)
    ensures IsSum(s, months, dayOf, OverdueCountOf, Rows(s, s.dueOrder), IssueDay, CountsOverdue, One)
  {
    forall period
      ensures var overdue := Filter(Rows(s, s.dueOrder), FallsIn(months, period, IssueDay, CountsOverdue));
              && OverdueOf(Summarize(s, months, period, dayOf)) == Sum(overdue, BalanceOf)
              && OverdueCountOf(Summarize(s, months, period, dayOf)) == Sum(overdue, One)
    {
      BilledAnd(s, months, period, IsOverdue, CountsOverdue);
      LengthIsSum(Filter(Billed(s, months, period), IsOverdue));
    }
  }

  lemma RowCountsAreSums(s: Books, months: seq<string>, dayOf: Instant -> string)
    requires Keyed(s) && months != []
    ensures IsSum(s, months, dayOf, InvoiceCountOf, Rows(s, s.dueOrder), IssueDay, CountedIn, One)
    ensures IsSum(s, months, dayOf, DisputedCountOf, Rows(s, s.dueOrder), IssueDay, CountsDisputed, One)
  {
    forall period
      ensures InvoiceCountOf(Summarize(s, months, period, dayOf)) ==
              Sum(Filter(Rows(s, s.dueOrder), FallsIn(months, period, IssueDay, CountedIn)), One)
      ensures DisputedCountOf(Summarize(s, months, period, dayOf)) ==
              Sum(Filter(Rows(s, s.dueOrder), FallsIn(months, period, IssueDay, CountsDisputed)), One)
    {
      LengthIsSum(Billed(s, months, period));
      BilledAnd(s, months, period, IsDisputed, CountsDisputed);
      LengthIsSum(Filter(Billed(s, months, period), IsDisputed));
    }
  }

  lemma LineFiguresAreSums(s: Books, months: seq<string>, dayOf: Instant -> string)
    requires Keyed(s) && months != []
    ensures IsSum(s, months, dayOf, UnmatchedLinesOf, PoolLines(s, s.statement), PostDay(dayOf), IsCredit, One)
    ensures IsSum(s, months, dayOf, UnmatchedOf, PoolLines(s, s.statement), PostDay(dayOf), IsCredit, CentsOf)
  {
    forall period
      ensures UnmatchedLinesOf(Summarize(s, months, period, dayOf)) ==
              Sum(Filter(PoolLines(s, s.statement), FallsIn(months, period, PostDay(dayOf), IsCredit)), One)
    {
      LengthIsSum(Filter(PoolLines(s, s.statement), FallsIn(months, period, PostDay(dayOf), IsCredit)));
    }
  }

  lemma {:induction false} PoolIsDated(s: Books, statement: seq<string>, dayOf: Instant -> string)
    requires forall l :: l in statement ==> l in s.lines && IsDate(dayOf(s.lines[l].postedAt))
    ensures forall line :: line in PoolLines(s, statement) ==> IsDate(PostDay(dayOf)(line))
  {
    if statement == [] {
    } else {
      PoolIsDated(s, statement[..|statement| - 1], dayOf);
    }
  }

  /**
   Whatever contiguous months the books cover, and however instants are written as days, every one of the quarter's
   figures is the sum of its months'.
   */
  lemma QuarterIsTheSumOfItsMonths(s: Books, months: seq<string>, dayOf: Instant -> string)
    requires Keyed(s) && Contiguous(months) && months != []
    requires forall i :: i in s.invoices ==> IsDate(s.invoices[i].issuedAt)
    requires forall l :: l in s.lines ==> IsDate(dayOf(s.lines[l].postedAt))
    ensures Summarize(s, months, Quarter, dayOf) == Added(s, months, months, dayOf)
  {
    var rows, pool := Rows(s, s.dueOrder), PoolLines(s, s.statement);
    forall r | r in rows ensures IsDate(IssueDay(r)) {
      RowsMember(s, s.dueOrder, r);
    }
    PoolIsDated(s, s.statement, dayOf);
    RowFiguresByMonth(s, months, dayOf);
    LineFiguresAreSums(s, months, dayOf);
    FigureByMonth(s, months, dayOf, UnmatchedLinesOf, pool, PostDay(dayOf), IsCredit, One);
    FigureByMonth(s, months, dayOf, UnmatchedOf, pool, PostDay(dayOf), IsCredit, CentsOf);
  }

  lemma RowFiguresByMonth(s: Books, months: seq<string>, dayOf: Instant -> string)
    requires Keyed(s) && Contiguous(months) && months != []
    requires forall r :: r in Rows(s, s.dueOrder) ==> IsDate(IssueDay(r))
    ensures var quarter, added := Summarize(s, months, Quarter, dayOf), Added(s, months, months, dayOf);
            quarter == added.(unmatchedLines := quarter.unmatchedLines, unmatched := quarter.unmatched)
  {
    var rows := Rows(s, s.dueOrder);
    MoneyFiguresAreSums(s, months, dayOf);
    FigureByMonth(s, months, dayOf, InvoicedOf, rows, IssueDay, CountedIn, AmountOf);
    FigureByMonth(s, months, dayOf, CollectedOf, rows, IssueDay, CountedIn, PaidOf);
    FigureByMonth(s, months, dayOf, OutstandingOf, rows, IssueDay, CountedIn, BalanceOf);
    OverdueIsASum(s, months, dayOf);
    FigureByMonth(s, months, dayOf, OverdueOf, rows, IssueDay, CountsOverdue, BalanceOf);
    FigureByMonth(s, months, dayOf, OverdueCountOf, rows, IssueDay, CountsOverdue, One);
    RowCountsAreSums(s, months, dayOf);
    FigureByMonth(s, months, dayOf, InvoiceCountOf, rows, IssueDay, CountedIn, One);
    FigureByMonth(s, months, dayOf, DisputedCountOf, rows, IssueDay, CountsDisputed, One);
  }

  lemma CollectedIsPaid(s: Books, months: seq<string>, period: Period)
    requires Keyed(s) && months != []
    ensures Collected(s, months, period) == Sum(Billed(s, months, period), PaidOf)
  {
    CollectedByInvoice(s, s.dueOrder, months, period);
    TotalSame(s.payments, CollectedAmong(s, s.dueOrder, months, period), CollectedFrom(s.invoices, months, period));
  }
}
