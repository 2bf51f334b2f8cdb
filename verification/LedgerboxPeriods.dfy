/**
 The accounting periods (`lib/constants.ts`, `lib/filter-period.ts`): months written `YYYY-MM`, the
 quarter as a range over them, and the import-time check that the months follow one another.
 */
module LedgerboxPeriods {
  import opened LedgerboxFormat
  import opened Texts

  datatype Period = Month(text: string) | Quarter

  predicate IsMonth(m: string) {
    && |m| == 7 && AllDigits(m[..4]) && m[4] == '-' && AllDigits(m[5..])
    && 1 <= Value(m[5..]) <= 12
  }

  /** Months since year zero. */
  function Index(m: string): nat
    requires IsMonth(m)
  {
    12 * Value(m[..4]) + Value(m[5..]) - 1
  }

  /** `2026-08` to `2026-09`, as the source spells it: no padding on the year. */
  function MonthAfter(m: string): string
    requires IsMonth(m)
  {
    var year, index := Value(m[..4]), Value(m[5..]);
    if index == 12 then Decimal(year + 1) + "-01"
    else Decimal(year) + "-" + if index + 1 < 10 then "0" + Decimal(index + 1) else Decimal(index + 1)
  }

  /** The check the module makes when it loads: each month is the one after its predecessor. */
  ghost predicate Contiguous(months: seq<string>) {
    && (forall k :: 0 <= k < |months| ==> IsMonth(months[k]))
    && (forall k :: 1 <= k < |months| ==> months[k] == MonthAfter(months[k - 1]))
  }

  function Earliest(months: seq<string>): string
    requires months != []
  {
    if |months| == 1 then months[0]
    else
      var a, b := Earliest(months[..|months| - 1]), months[|months| - 1];
      if !AtMost(a, b) then b else a
  }

  function Latest(months: seq<string>): string
    requires months != []
  {
    if |months| == 1 then months[0]
    else
      var a, b := Latest(months[..|months| - 1]), months[|months| - 1];
      if !AtMost(b, a) then b else a
  }

  function Front(iso: string): string {
    if |iso| <= 7 then iso else iso[..7]
  }

  /** Whether a date's text falls in the period. */
  predicate InPeriod(months: seq<string>, iso: string, period: Period)
    requires months != []
  {
    match period
    case Quarter => AtMost(Earliest(months), iso) && AtMost(Front(iso), Latest(months))
    case Month(text) => text <= iso
  }

  // ----- the order of texts is the order of months -----

  lemma AtMostFront(a: string, b: string)
    requires |a| <= |b|
    ensures AtMost(a, b) <==> AtMost(a, b[..|a|])
  {
    if a != [] && a[0] == b[0] {
      AtMostFront(a[1..], b[1..]);
      assert b[..|a|][1..] == b[1..][..|a| - 1];
    }
  }

  lemma {:induction false} AtMostJoin(a: string, x: string, b: string, y: string)
    requires |a| == |b|
    ensures AtMost(a + x, b + y) <==> if a == b then AtMost(x, y) else AtMost(a, b)
  {
    if a == [] {
      assert a + x == x && b + y == y;
    } else {
      assert (a + x)[1..] == a[1..] + x && (b + y)[1..] == b[1..] + y;
      AtMostJoin(a[1..], x, b[1..], y);
      assert a == [a[0]] + a[1..] && b == [b[0]] + b[1..];
    }
  }

  lemma {:induction false} ValueBound(a: string)
    requires AllDigits(a)
    ensures Value(a) < Pow10(|a|)
  {
    if a == [] {
    } else {
      ValueBound(a[..|a| - 1]);
    }
  }

  lemma ValueHead(a: string)
    requires a != [] && AllDigits(a)
    ensures Value(a) == Pow10(|a| - 1) * DigitValue(a[0]) + Value(a[1..])
  {
    ValueConcat([a[0]], a[1..]);
    assert a == [a[0]] + a[1..];
    assert [a[0]][..0] == [];
    assert Value([a[0]]) == DigitValue(a[0]);
  }

  lemma PlaceDecides(p: nat, d: nat, e: nat, x: nat, y: nat)
    requires x < p && y < p && d < e
    ensures p * d + x < p * e + y
  {
    assert p * e >= p * (d + 1) == p * d + p;
  }

  lemma {:induction false} DigitsOrder(a: string, b: string)
    requires |a| == |b| && AllDigits(a) && AllDigits(b)
    ensures AtMost(a, b) <==> Value(a) <= Value(b)
    ensures Value(a) == Value(b) ==> a == b
  {
    if a == [] {
    } else {
      var p := Pow10(|a| - 1);
      ValueHead(a);
      ValueHead(b);
      ValueBound(a[1..]);
      ValueBound(b[1..]);
      DigitsOrder(a[1..], b[1..]);
      var d, e, x, y := DigitValue(a[0]), DigitValue(b[0]), Value(a[1..]), Value(b[1..]);
      assert a == [a[0]] + a[1..] && b == [b[0]] + b[1..];
      if d < e {
        PlaceDecides(p, d, e, x, y);
      } else if e < d {
        PlaceDecides(p, e, d, y, x);
      }
    }
  }

  lemma MonthOrder(m: string, n: string)
    requires IsMonth(m) && IsMonth(n)
    ensures AtMost(m, n) <==> Index(m) <= Index(n)
    ensures Index(m) == Index(n) ==> m == n
  {
    assert m == m[..4] + ("-" + m[5..]) && n == n[..4] + ("-" + n[5..]);
    AtMostJoin(m[..4], "-" + m[5..], n[..4], "-" + n[5..]);
    AtMostJoin("-", m[5..], "-", n[5..]);
    DigitsOrder(m[..4], n[..4]);
    DigitsOrder(m[5..], n[5..]);
  }

  lemma TwoDigits(n: nat)
    requires 2 <= n <= 12
    ensures var s := if n < 10 then "0" + Decimal(n) else Decimal(n);
            AllDigits(s) && Value(s) == n
  {
    if n < 10 {
      assert ("0" + Decimal(n))[..1] == "0";
      assert "0"[..0] == "";
      assert Value("0") == 0;
    }
  }

  /** A month that passes the check against its predecessor is one later. */
  lemma StepsByOne(m: string, n: string)
    requires IsMonth(m) && IsMonth(n) && n == MonthAfter(m)
    ensures Index(n) == Index(m) + 1
  {
    var year, index := Value(m[..4]), Value(m[5..]);
    var y := if index == 12 then Decimal(year + 1) else Decimal(year);
    var two := if index == 12 then "01" else if index + 1 < 10 then "0" + Decimal(index + 1) else Decimal(index + 1);
    assert n == y + ("-" + two);
    assert n[..4] == y && n[5..] == two;
    if index == 12 {
      assert "01"[..1] == "0";
      assert "0"[..0] == "";
      assert Value("01") == 1;
    } else {
      TwoDigits(index + 1);
    }
  }

  lemma {:induction false} Spaced(months: seq<string>, k: nat)
    requires Contiguous(months) && k < |months|
    ensures Index(months[k]) == Index(months[0]) + k
  {
    if k > 0 {
      Spaced(months, k - 1);
      StepsByOne(months[k - 1], months[k]);
    }
  }

  lemma {:induction false} Bounds(months: seq<string>)
    requires Contiguous(months) && months != []
    ensures Earliest(months) == months[0] && Latest(months) == months[|months| - 1]
  {
    if |months| > 1 {
      Bounds(months[..|months| - 1]);
      Spaced(months, |months| - 1);
      Spaced(months, |months| - 2);
      MonthOrder(months[0], months[|months| - 1]);
      MonthOrder(months[|months| - 1], months[|months| - 2]);
    }
  }

  /** A date's text: it starts with a month. */
  predicate IsDate(iso: string) {
    |iso| >= 7 && IsMonth(iso[..7])
  }

  lemma MonthOfDate(iso: string, m: string)
    requires IsDate(iso) && IsMonth(m)
    ensures m <= iso <==> m == iso[..7]
  {
  }

  lemma InMonthByIndex(months: seq<string>, iso: string, k: nat)
    requires Contiguous(months) && k < |months| && IsDate(iso)
    ensures InPeriod(months, iso, Month(months[k])) <==> Index(iso[..7]) == Index(months[0]) + k
  {
    Spaced(months, k);
    MonthOfDate(iso, months[k]);
    MonthOrder(iso[..7], months[k]);
  }

  lemma InQuarterByIndex(months: seq<string>, iso: string)
    requires Contiguous(months) && months != [] && IsDate(iso)
    ensures InPeriod(months, iso, Quarter) <==> Index(months[0]) <= Index(iso[..7]) < Index(months[0]) + |months|
  {
    var last := months[|months| - 1];
    Bounds(months);
    Spaced(months, |months| - 1);
    AtMostFront(months[0], iso);
    MonthOrder(months[0], iso[..7]);
    MonthOrder(iso[..7], last);
    assert Front(iso) == iso[..7];
  }

  /** A date in one of the months is in the quarter, and a date in the quarter is in exactly one of them. */
  lemma QuarterIsItsMonths(months: seq<string>, iso: string)
    requires Contiguous(months) && months != [] && IsDate(iso)
    ensures InPeriod(months, iso, Quarter) <==> exists k :: 0 <= k < |months| && InPeriod(months, iso, Month(months[k]))
    ensures forall j, k ::
      0 <= j < k < |months| ==> !InPeriod(months, iso, Month(months[j])) || !InPeriod(months, iso, Month(months[k]))
  {
    forall k | 0 <= k < |months|
      ensures InPeriod(months, iso, Month(months[k])) <==> Index(iso[..7]) == Index(months[0]) + k
    {
      InMonthByIndex(months, iso, k);
    }
    InQuarterByIndex(months, iso);
    if InPeriod(months, iso, Quarter) {
      var k := Index(iso[..7]) - Index(months[0]);
      assert InPeriod(months, iso, Month(months[k]));
    }
  }
}
