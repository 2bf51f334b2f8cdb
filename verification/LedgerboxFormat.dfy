/**
 Money on the page and off it: how an amount of cents is printed, and which typed texts are exactly
 one amount. Amounts are exact decimals; the source's arithmetic on binary fractions is not modelled.
 */
module LedgerboxFormat {
  import opened Lists
  import opened Options
  import opened Texts

  // ----- printing -----

  /** Exactly `width` digits of `n`, padded with zeros. */
  function Padded(n: nat, width: nat): (s: string)
    ensures |s| == width && AllDigits(s)
  {
    if width == 0 then "" else Padded(n / 10, width - 1) + [Digit(n % 10)]
  }

  /** Whole units in groups of three. */
  function Grouped(n: nat): string {
    if n < 1000 then Decimal(n) else Grouped(n / 1000) + "," + Padded(n % 1000, 3)
  }

  function Printed(sign: string, units: nat, cents: nat): string {
    sign + "$" + (Grouped(units) + ("." + Padded(cents, 2)))
  }

  function FormatMoney(cents: int): string {
    if cents < 0 then Printed("-", -cents / 100, -cents % 100) else Printed("", cents / 100, cents % 100)
  }

  // ----- reading -----

  /** The currency symbols of Unicode (general category Sc). */
  predicate IsSymbol(c: char) {
    || c == '$' || '\U{A2}' <= c <= '\U{A5}' || c == '\U{58F}' || c == '\U{60B}' || '\U{7FE}' <= c <= '\U{7FF}'
    || '\U{9F2}' <= c <= '\U{9F3}' || c == '\U{9FB}' || c == '\U{AF1}' || c == '\U{BF9}' || c == '\U{E3F}'
    || c == '\U{17DB}' || '\U{20A0}' <= c <= '\U{20C0}' || c == '\U{A838}' || c == '\U{FDFC}' || c == '\U{FE69}'
    || c == '\U{FF04}' || '\U{FFE0}' <= c <= '\U{FFE1}' || '\U{FFE5}' <= c <= '\U{FFE6}'
    || '\U{11FDD}' <= c <= '\U{11FE0}' || c == '\U{1E2FF}' || c == '\U{1ECB0}'
  }

  predicate NotSymbol(c: char) {
    !IsSymbol(c)
  }

  predicate IsGrouping(c: char) {
    c == ',' || c == '\'' || c == '\U{2019}' || IsSpace(c)
  }

  predicate NotGrouping(c: char) {
    !IsGrouping(c)
  }

  /** The text the shape is asked of: no symbols, no outer space, no space behind a leading sign. */
  function Cleaned(input: string): string {
    var text := Trim(Filter(input, NotSymbol));
    if text != [] && text[0] == '-' then "-" + TrimStart(text[1..]) else TrimStart(text)
  }

  /** One to three digits, then one or more groups of three, each behind one grouping mark. */
  predicate IsGrouped(w: string) {
    && |w| >= 5
    && AllDigits(w[|w| - 3..])
    && IsGrouping(w[|w| - 4])
    && var front := w[..|w| - 4];
       (|front| <= 3 && AllDigits(front)) || IsGrouped(front)
  }

  predicate IsWhole(w: string) {
    (w != [] && AllDigits(w)) || IsGrouped(w)
  }

  predicate IsFraction(f: string) {
    2 <= |f| <= 3 && f[0] == '.' && AllDigits(f[1..])
  }

  function Ungrouped(w: string): string {
    Filter(w, NotGrouping)
  }

  lemma {:induction false} UngroupedDigits(w: string)
    requires IsWhole(w)
    ensures AllDigits(Ungrouped(w))
  {
    if AllDigits(w) {
      FilterAll(w, NotGrouping);
    } else {
      var front, mark, tail := w[..|w| - 4], w[|w| - 4], w[|w| - 3..];
      assert w == front + [mark] + tail;
      FilterConcat(front + [mark], tail, NotGrouping);
      FilterSnoc(front, mark, NotGrouping);
      FilterAll(tail, NotGrouping);
      UngroupedDigits(front);
    }
  }

  function FractionCents(f: string): nat
    requires f == [] || IsFraction(f)
  {
    if f == [] then 0 else if |f| == 2 then 10 * Value(f[1..]) else Value(f[1..])
  }

  /** The three parts of an amount in the accepted shape. */
  datatype Parts = Parts(sign: string, whole: string, fraction: string) {
    predicate Shaped() {
      && (sign == "" || sign == "-")
      && (fraction == "" || IsFraction(fraction))
      && (if whole == "" then fraction != "" else IsWhole(whole))
    }

    function Text(): string {
      sign + whole + fraction
    }

    /** What the digits denote, in cents. */
    function Cents(): int
      requires Shaped()
    {
      assert AllDigits(Ungrouped(whole)) by {
        if whole != "" { UngroupedDigits(whole); }
      }
      var size := 100 * Value(Ungrouped(whole)) + FractionCents(fraction);
      if sign == "-" then -size else size
    }
  }

  /** Where the decimal point stands, or the length of the text. */
  function PointAt(s: string): (n: nat)
    ensures n <= |s|
    ensures forall k :: 0 <= k < n ==> s[k] != '.'
    ensures n < |s| ==> s[n] == '.'
  {
    if s == [] || s[0] == '.' then 0 else 1 + PointAt(s[1..])
  }

  function Split(text: string): (p: Parts)
    ensures p.Text() == text
  {
    var signed := text != [] && text[0] == '-';
    var body := if signed then text[1..] else text;
    Parts(if signed then "-" else "", body[..PointAt(body)], body[PointAt(body)..])
  }

  /** The amount a text reads as, in cents, or `None`. */
  function ParseDollars(input: string): Option<int> {
    var parts := Split(Cleaned(input));
    if parts.Shaped() then Some(parts.Cents()) else None
  }

  // ----- what is accepted -----

  lemma {:induction false} WholeHasNoPoint(w: string)
    requires IsWhole(w)
    ensures '.' !in w && '-' !in w
  {
    if !AllDigits(w) {
      var front, mark, tail := w[..|w| - 4], w[|w| - 4], w[|w| - 3..];
      assert w == front + [mark] + tail;
      assert '.' !in tail && '-' !in tail;
      if AllDigits(front) {
        assert '.' !in front && '-' !in front;
      } else {
        WholeHasNoPoint(front);
      }
    }
  }

  lemma PointBehindWhole(whole: string, fraction: string)
    requires '.' !in whole
    requires fraction != "" ==> fraction[0] == '.'
    ensures PointAt(whole + fraction) == |whole|
  {
    var body := whole + fraction;
    assert forall k :: 0 <= k < |whole| ==> body[k] in whole;
    assert fraction != "" ==> body[|whole|] == fraction[0];
  }

  /** A text in the shape splits one way only. */
  lemma SplitIsUnique(p: Parts)
    requires p.Shaped()
    ensures Split(p.Text()) == p
  {
    var text, body := p.Text(), p.whole + p.fraction;
    if p.whole != "" {
      WholeHasNoPoint(p.whole);
      assert body[0] == p.whole[0] && p.whole[0] in p.whole;
    } else {
      assert body[0] == p.fraction[0];
    }
    assert body[0] != '-';
    assert text == p.sign + body;
    PointBehindWhole(p.whole, p.fraction);
    assert body[..|p.whole|] == p.whole && body[|p.whole|..] == p.fraction;
    if p.sign == "-" {
      assert text[0] == '-' && text[1..] == body;
    } else {
      assert text == body;
    }
  }

  /**
   A text is accepted exactly when, cleaned, it is a sign, whole units grouped only in threes and at
   most two decimals; and then its amount is the one its digits denote.
   */
  lemma AcceptsExactlyAmounts(input: string, cents: int)
    ensures ParseDollars(input) == Some(cents) <==>
            exists p: Parts :: p.Shaped() && p.Text() == Cleaned(input) && p.Cents() == cents
  {
    if ParseDollars(input) == Some(cents) {
      var p := Split(Cleaned(input));
      assert p.Shaped() && p.Text() == Cleaned(input) && p.Cents() == cents;
    }
    if p: Parts :| p.Shaped() && p.Text() == Cleaned(input) && p.Cents() == cents {
      SplitIsUnique(p);
    }
  }

  lemma ReadsAsItsParts(input: string, p: Parts)
    requires p.Shaped() && Cleaned(input) == p.Text()
    ensures ParseDollars(input) == Some(p.Cents())
  {
    SplitIsUnique(p);
  }

  lemma TenthsInCents(d: char)
    requires IsDigit(d)
    ensures IsFraction(['.', d]) && IsFraction(['.', d, '0'])
    ensures FractionCents(['.', d]) == FractionCents(['.', d, '0'])
  {
    assert ['.', d][1..] == [d] && ['.', d, '0'][1..] == [d, '0'];
    assert [d, '0'][..1] == [d];
    assert Value([d, '0']) == 10 * Value([d]);
  }

  lemma SameFractionSameCents(sign: string, whole: string, f: string, g: string)
    requires Parts(sign, whole, f).Shaped() && Parts(sign, whole, g).Shaped() && FractionCents(f) == FractionCents(g)
    ensures Parts(sign, whole, f).Cents() == Parts(sign, whole, g).Cents()
  {
  }

  /** One decimal is tenths: a nought behind it changes nothing. */
  lemma OneDecimalIsTenths(x: string, y: string, sign: string, whole: string, d: char)
    requires (sign == "" || sign == "-") && (whole == "" || IsWhole(whole)) && IsDigit(d)
    requires Cleaned(x) == sign + whole + ['.', d] && Cleaned(y) == sign + whole + ['.', d, '0']
    ensures ParseDollars(x).Some? && ParseDollars(x) == ParseDollars(y)
  {
    TenthsInCents(d);
    ReadsAsItsParts(x, Parts(sign, whole, ['.', d]));
    ReadsAsItsParts(y, Parts(sign, whole, ['.', d, '0']));
    SameFractionSameCents(sign, whole, ['.', d], ['.', d, '0']);
  }

  // ----- the round trip -----

  lemma {:induction false} ValueConcat(a: string, b: string)
    requires AllDigits(a) && AllDigits(b)
    ensures AllDigits(a + b) && Value(a + b) == Pow10(|b|) * Value(a) + Value(b)
  {
    if b == [] {
      assert a + b == a;
    } else {
      var init, last := b[..|b| - 1], b[|b| - 1];
      ValueConcat(a, init);
      assert a + b == (a + init) + [last];
      ValueSnoc(a + init, last);
      ValueSnoc(init, last);
      assert b == init + [last];
      TenTimes(Pow10(|init|), Value(a), Value(init));
    }
  }

  lemma ValueSnoc(s: string, c: char)
    requires AllDigits(s) && IsDigit(c)
    ensures AllDigits(s + [c]) && Value(s + [c]) == 10 * Value(s) + DigitValue(c)
  {
    assert (s + [c])[..|s|] == s;
  }

  lemma TenTimes(p: nat, v: nat, w: nat)
    ensures 10 * (p * v + w) == (10 * p) * v + 10 * w
  {
  }

  function Pow10(n: nat): nat {
    if n == 0 then 1 else 10 * Pow10(n - 1)
  }

  lemma {:induction false} PaddedValue(n: nat, width: nat)
    requires n < Pow10(width)
    ensures Value(Padded(n, width)) == n
  {
    if width > 0 {
      PaddedValue(n / 10, width - 1);
      var front := Padded(n / 10, width - 1);
      assert (front + [Digit(n % 10)])[..|front|] == front;
    }
  }

  lemma DecimalShort(n: nat)
    requires n < 1000
    ensures |Decimal(n)| <= 3
  {
    if n >= 100 {
      assert |Decimal(n / 10 / 10)| == 1;
      assert |Decimal(n / 10)| == 2;
    } else if n >= 10 {
      assert |Decimal(n / 10)| == 1;
    }
  }

  lemma ValueThree(a: string, n: nat)
    requires AllDigits(a) && n < 1000
    ensures AllDigits(a + Padded(n, 3)) && Value(a + Padded(n, 3)) == 1000 * Value(a) + n
  {
    ValueConcat(a, Padded(n, 3));
    assert Pow10(1) == 10;
    assert Pow10(2) == 100;
    assert Pow10(3) == 1000;
    PaddedValue(n, 3);
  }

  lemma PaddedPair(n: nat)
    requires n < 100
    ensures Value(Padded(n, 2)) == n
  {
    assert Pow10(1) == 10;
    assert Pow10(2) == 100;
    PaddedValue(n, 2);
  }

  lemma UngroupedStep(front: string, mark: char, tail: string)
    requires AllDigits(tail) && IsGrouping(mark)
    ensures Ungrouped(front + [mark] + tail) == Ungrouped(front) + tail
  {
    FilterConcat(front + [mark], tail, NotGrouping);
    FilterSnoc(front, mark, NotGrouping);
    FilterAll(tail, NotGrouping);
  }

  lemma {:induction false} GroupedValue(n: nat)
    ensures AllDigits(Ungrouped(Grouped(n))) && Value(Ungrouped(Grouped(n))) == n
  {
    if n < 1000 {
      FilterAll(Decimal(n), NotGrouping);
    } else {
      var front, tail := Grouped(n / 1000), Padded(n % 1000, 3);
      GroupedValue(n / 1000);
      assert AllDigits(tail);
      UngroupedStep(front, ',', tail);
      assert front + [','] + tail == Grouped(n);
      ValueThree(Ungrouped(front), n % 1000);
    }
  }

  lemma {:induction false} GroupedShape(n: nat)
    ensures Grouped(n) != [] && IsWhole(Grouped(n))
    ensures n < 1000 ==> |Grouped(n)| <= 3 && AllDigits(Grouped(n))
    ensures n >= 1000 ==> IsGrouped(Grouped(n))
    ensures forall k :: 0 <= k < |Grouped(n)| ==> IsDigit(Grouped(n)[k]) || Grouped(n)[k] == ','
    ensures IsDigit(Grouped(n)[0])
  {
    if n < 1000 {
      DecimalShort(n);
    } else {
      GroupedShape(n / 1000);
      var front, tail := Grouped(n / 1000), Padded(n % 1000, 3);
      var w := front + "," + tail;
      assert w[|w| - 3..] == tail && w[|w| - 4] == ',' && w[..|w| - 4] == front;
    }
  }

  lemma TrimIsIdentity(s: string)
    requires s != [] && !IsSpace(s[0]) && !IsSpace(s[|s| - 1])
    ensures Trim(s) == s
  {
  }

  lemma SymbolDropped(sign: string, plain: string)
    requires forall k :: 0 <= k < |plain| ==> NotSymbol(plain[k])
    requires forall k :: 0 <= k < |sign| ==> NotSymbol(sign[k])
    ensures Filter(sign + "$" + plain, NotSymbol) == sign + plain
  {
    FilterAll(plain, NotSymbol);
    FilterAll(sign, NotSymbol);
    FilterConcat(sign + "$", plain, NotSymbol);
    FilterSnoc(sign, '$', NotSymbol);
  }

  /** The characters of a printed amount, past its symbol. */
  predicate IsPlain(c: char) {
    IsDigit(c) || c == ',' || c == '.' || c == '-'
  }

  lemma PlainIsCleaned(sign: string, plain: string)
    requires sign == "" || sign == "-"
    requires plain != "" && plain[0] != '-' && forall k :: 0 <= k < |plain| ==> IsPlain(plain[k])
    ensures Cleaned(sign + "$" + plain) == sign + plain
  {
    SymbolDropped(sign, plain);
    var text := sign + plain;
    assert text[|text| - 1] == plain[|plain| - 1];
    TrimIsIdentity(text);
    if sign == "-" {
      assert text[1..] == plain;
    } else {
      assert text == plain;
    }
  }

  lemma FormatCleaned(sign: string, whole: string, digits: string)
    requires sign == "" || sign == "-"
    requires whole != "" && AllDigits(digits) && IsDigit(whole[0])
    requires forall k :: 0 <= k < |whole| ==> IsDigit(whole[k]) || whole[k] == ','
    ensures Cleaned(sign + "$" + (whole + ("." + digits))) == sign + whole + ("." + digits)
  {
    var fraction := "." + digits;
    var plain := whole + fraction;
    forall k | 0 <= k < |plain| ensures IsPlain(plain[k]) {
      if k >= |whole| { assert plain[k] == fraction[k - |whole|]; }
    }
    PlainIsCleaned(sign, plain);
    assert sign + plain == sign + whole + fraction;
  }

  lemma PrintedParts(sign: string, n: nat, cents: nat) returns (p: Parts)
    requires (sign == "" || sign == "-") && cents < 100
    ensures p == Parts(sign, Grouped(n), "." + Padded(cents, 2)) && p.Shaped()
    ensures p.Cents() == if sign == "-" then -(100 * n + cents) else 100 * n + cents
  {
    GroupedShape(n);
    GroupedValue(n);
    PaddedPair(cents);
    p := Parts(sign, Grouped(n), "." + Padded(cents, 2));
    assert p.fraction[1..] == Padded(cents, 2);
  }

  lemma PrintedReads(sign: string, n: nat, cents: nat)
    requires (sign == "" || sign == "-") && cents < 100
    ensures ParseDollars(Printed(sign, n, cents)) == Some(if sign == "-" then -(100 * n + cents) else 100 * n + cents)
  {
    var p := PrintedParts(sign, n, cents);
    GroupedShape(n);
    FormatCleaned(sign, p.whole, Padded(cents, 2));
    SplitIsUnique(p);
  }

  /** What the app prints, it reads back: every amount, negative and grouped ones included. */
  lemma FormatThenParse(cents: int)
    ensures ParseDollars(FormatMoney(cents)) == Some(cents)
  {
    var size: nat := if cents < 0 then -cents else cents;
    var sign, units, rest := if cents < 0 then "-" else "", size / 100, size % 100;
    assert 100 * units + rest == size;
    PrintedReads(sign, units, rest);
    assert FormatMoney(cents) == Printed(sign, units, rest);
  }

  /** Printing loses nothing: two amounts that print alike are the same amount. */
  lemma FormatInjective(a: int, b: int)
    requires FormatMoney(a) == FormatMoney(b)
    ensures a == b
  {
    FormatThenParse(a);
    FormatThenParse(b);
  }

  /** A decimal comma is refused, not stripped: a mark stands only before a group of three. */
  lemma MarkNeedsGroupOfThree(whole: string, k: nat)
    requires IsWhole(whole) && k < |whole| && IsGrouping(whole[k])
    ensures k + 4 <= |whole| && AllDigits(whole[k + 1..k + 4])
    ensures k + 4 < |whole| ==> IsGrouping(whole[k + 4])
  {
    var n := |whole|;
    assert IsGrouped(whole);
    if k < n - 4 {
      var front := whole[..n - 4];
      MarkNeedsGroupOfThree(front, k);
      assert front[k + 1..k + 4] == whole[k + 1..k + 4];
    } else {
      assert forall j :: n - 3 <= j < n ==> whole[j] == whole[n - 3..][j - (n - 3)];
    }
  }
}
