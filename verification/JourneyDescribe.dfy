/**
 The canonical text of one proposed action (`src/approvals.ts`, `describe`), on which an approval is bound:
 the top-level keys sorted, each value as `JSON.stringify` prints it.
 */
module JourneyDescribe {
  import opened Texts

  /** A JSON value. A number is the text it prints as; an object's fields are in property order. */
  datatype Json =
    | Null
    | Bool(b: bool)
    | Num(text: string)
    | Str(s: string)
    | Arr(items: seq<Json>)
    | Obj(fields: seq<Field>)

  datatype Field = Field(key: string, value: Json)

  // ----- JSON.stringify -----

  function Hex(d: nat): char
    requires d < 16
  {
    "0123456789abcdef"[d]
  }

  function Escape(c: char): string {
    if c == '"' then "\\\""
    else if c == '\\' then "\\\\"
    else if c as int == 8 then "\\b"
    else if c as int == 12 then "\\f"
    else if c as int == 10 then "\\n"
    else if c as int == 13 then "\\r"
    else if c as int == 9 then "\\t"
    else if c as int < 32 then ['\\', 'u', '0', '0', Hex(c as int / 16), Hex(c as int % 16)]
    else [c]
  }

  function EscapeAll(s: string): string {
    if s == [] then [] else Escape(s[0]) + EscapeAll(s[1..])
  }

  function Quote(s: string): string {
    "\"" + EscapeAll(s) + "\""
  }

  function Render(j: Json): string
    decreases j
  {
    match j
    case Null => "null"
    case Bool(b) => if b then "true" else "false"
    case Num(text) => text
    case Str(s) => Quote(s)
    case Arr(items) => "[" + (if items == [] then "" else Render(items[0]) + MoreItems(items[1..])) + "]"
    case Obj(fields) =>
      var inner :=
        if fields == [] then ""
        else KeyText(true, fields[0].key) + Render(fields[0].value) + MoreFields(true, fields[1..]);
      "{" + inner + "}"
  }

  function MoreItems(items: seq<Json>): string
    decreases items
  {
    if items == [] then "" else "," + Render(items[0]) + MoreItems(items[1..])
  }

  function KeyText(quoted: bool, key: string): string {
    if quoted then Quote(key) + ":" else key + "="
  }

  function MoreFields(quoted: bool, fields: seq<Field>): string
    decreases fields
  {
    if fields == [] then ""
    else "," + KeyText(quoted, fields[0].key) + Render(fields[0].value) + MoreFields(quoted, fields[1..])
  }

  // ----- describe -----

  /** `Object.keys(params).sort()`, with each key's value. */
  function PlaceByKey(sorted: seq<Field>, f: Field): seq<Field> {
    if sorted == [] then [f]
    else if AtMost(sorted[|sorted| - 1].key, f.key) then sorted + [f]
    else PlaceByKey(sorted[..|sorted| - 1], f) + [sorted[|sorted| - 1]]
  }

  function SortByKey(params: seq<Field>): seq<Field> {
    if params == [] then [] else PlaceByKey(SortByKey(params[..|params| - 1]), params[|params| - 1])
  }

  function Fields(quoted: bool, fields: seq<Field>): string {
    if fields == [] then ""
    else KeyText(quoted, fields[0].key) + Render(fields[0].value) + MoreFields(quoted, fields[1..])
  }

  function Describe(origin: string, tool: string, params: seq<Field>): string {
    origin + "/" + tool + "(" + Fields(false, SortByKey(params)) + ")"
  }

  // ----- what the arguments are -----

  predicate NumeralChar(c: char) { IsDigit(c) || c in "+-.e" }

  predicate IsNumeral(text: string) {
    text != "" && (IsDigit(text[0]) || text[0] == '-') && forall c :: c in text ==> NumeralChar(c)
  }

  /** The numbers print as numbers. */
  predicate WellFormed(j: Json) {
    match j
    case Num(text) => IsNumeral(text)
    case Arr(items) => forall k :: 0 <= k < |items| ==> WellFormed(items[k])
    case Obj(fields) => forall k :: 0 <= k < |fields| ==> WellFormed(fields[k].value)
    case _ => true
  }

  predicate PlainName(key: string) {
    key != "" && forall c :: c in key ==> c !in "=,()[]{}"
  }

  ghost predicate DistinctKeys(fields: seq<Field>) {
    forall i, j :: 0 <= i < j < |fields| ==> fields[i].key != fields[j].key
  }

  ghost predicate Arguments(params: seq<Field>) {
    DistinctKeys(params) && forall f :: f in params ==> PlainName(f.key) && WellFormed(f.value)
  }

  /** The same keys with the same values, in any order. */
  ghost predicate SameArguments(p: seq<Field>, q: seq<Field>) {
    multiset(p) == multiset(q)
  }

  // ----- cutting a text in two -----

  lemma SamePrefix(p: string, x: string, y: string)
    requires p + x == p + y
    ensures x == y
  {
    assert x == (p + x)[|p|..] && y == (p + y)[|p|..];
  }

  lemma SameLength(a: string, b: string, x: string, y: string)
    requires |a| == |b| && a + x == b + y
    ensures a == b && x == y
  {
    assert a == (a + x)[..|a|] && b == (b + y)[..|b|];
    SamePrefix(a, x, y);
  }

  lemma FirstAt(c: char, a: string, x: string)
    requires c !in a
    ensures (a + [c] + x)[|a|] == c && forall k :: 0 <= k < |a| ==> (a + [c] + x)[k] != c
  {
  }

  lemma LastAt(c: char, a: string, x: string)
    requires c !in x
    ensures (a + [c] + x)[|a|] == c && forall k :: |a| < k < |a + [c] + x| ==> (a + [c] + x)[k] != c
  {
    forall k | |a| < k < |a + [c] + x| ensures (a + [c] + x)[k] != c {
      assert (a + [c] + x)[k] == x[k - |a| - 1];
    }
  }

  lemma CutAtFirst(c: char, a: string, b: string, x: string, y: string)
    requires c !in a && c !in b && a + [c] + x == b + [c] + y
    ensures a == b && x == y
  {
    FirstAt(c, a, x);
    FirstAt(c, b, y);
    assert |a| == |b|;
    SameLength(a + [c], b + [c], x, y);
    SameLength(a, b, [c], [c]);
  }

  lemma CutAtLast(c: char, a: string, b: string, x: string, y: string)
    requires c !in x && c !in y && a + [c] + x == b + [c] + y
    ensures a == b && x == y
  {
    LastAt(c, a, x);
    LastAt(c, b, y);
    assert |a| == |b|;
    SameLength(a + [c], b + [c], x, y);
    SameLength(a, b, [c], [c]);
  }

  // ----- what is printed, with what follows it -----

  function EscapedThen(s: string, x: string): string {
    if s == [] then x else Escape(s[0]) + EscapedThen(s[1..], x)
  }

  function QuotedThen(s: string, x: string): string {
    ['"'] + EscapedThen(s, ['"'] + x)
  }

  function KeyThen(quoted: bool, key: string, x: string): string {
    if quoted then QuotedThen(key, [':'] + x) else key + ['='] + x
  }

  function Then(j: Json, x: string): string
    decreases j
  {
    match j
    case Null => "null" + x
    case Bool(b) => (if b then "true" else "false") + x
    case Num(text) => text + x
    case Str(s) => QuotedThen(s, x)
    case Arr(items) => ['['] + if items == [] then [']'] + x else Then(items[0], MoreItemsThen(items[1..], [']'] + x))
    case Obj(fields) =>
      ['{'] + if fields == [] then ['}'] + x
              else KeyThen(true, fields[0].key, Then(fields[0].value, MoreFieldsThen(true, fields[1..], ['}'] + x)))
  }

  function MoreItemsThen(items: seq<Json>, x: string): string
    decreases items
  {
    if items == [] then x else [','] + Then(items[0], MoreItemsThen(items[1..], x))
  }

  function MoreFieldsThen(quoted: bool, fields: seq<Field>, x: string): string
    decreases fields
  {
    if fields == [] then x
    else [','] + KeyThen(quoted, fields[0].key, Then(fields[0].value, MoreFieldsThen(quoted, fields[1..], x)))
  }

  function FieldsThen(quoted: bool, fields: seq<Field>, x: string): string {
    if fields == [] then x
    else KeyThen(quoted, fields[0].key, Then(fields[0].value, MoreFieldsThen(quoted, fields[1..], x)))
  }

  lemma {:induction false} EscapedIsThen(s: string, x: string)
    ensures EscapeAll(s) + x == EscapedThen(s, x)
  {
    if s == [] {
      assert EscapeAll(s) + x == x;
    } else {
      EscapedIsThen(s[1..], x);
      assert EscapeAll(s) + x == Escape(s[0]) + (EscapeAll(s[1..]) + x);
    }
  }

  lemma Regroup(a: string, b: string, c: string)
    ensures a + b + c == a + (b + c)
  {
  }

  lemma Wrapped(open: char, inner: string, close: char, x: string)
    ensures [open] + inner + [close] + x == [open] + (inner + ([close] + x))
  {
    Regroup([open] + inner, [close], x);
    Regroup([open], inner, [close] + x);
  }

  lemma QuoteIsThen(s: string, x: string)
    ensures Quote(s) + x == QuotedThen(s, x)
  {
    Wrapped('"', EscapeAll(s), '"', x);
    EscapedIsThen(s, ['"'] + x);
  }

  lemma KeyIsThen(quoted: bool, key: string, x: string)
    ensures KeyText(quoted, key) + x == KeyThen(quoted, key, x)
  {
    if quoted {
      Regroup(Quote(key), [':'], x);
      QuoteIsThen(key, [':'] + x);
    }
  }

  lemma {:induction false} RenderIsThen(j: Json, x: string)
    ensures Render(j) + x == Then(j, x)
    decreases j, 0
  {
    match j
    case Null =>
    case Bool(b) =>
    case Num(text) =>
    case Str(s) => QuoteIsThen(s, x);
    case Arr(items) => ArrayIsThen(items, x);
    case Obj(fields) =>
      assert Render(j) == ['{'] + Fields(true, fields) + ['}'];
      Wrapped('{', Fields(true, fields), '}', x);
      FieldsIsThen(true, fields, ['}'] + x);
  }

  lemma {:induction false} ArrayIsThen(items: seq<Json>, x: string)
    ensures Render(Arr(items)) + x == Then(Arr(items), x)
    decreases items, 1
  {
    if items == [] {
      assert Render(Arr(items)) + x == ['['] + ([']'] + x);
    } else {
      var value, more := Render(items[0]), MoreItems(items[1..]);
      Wrapped('[', value + more, ']', x);
      Regroup(value, more, [']'] + x);
      MoreItemsIsThen(items[1..], [']'] + x);
      RenderIsThen(items[0], more + ([']'] + x));
    }
  }

  lemma FieldIsThen(key: string, value: string, more: string, x: string)
    ensures key + value + more + x == key + (value + (more + x))
  {
    Regroup(key + value, more, x);
    Regroup(key, value, more + x);
  }

  lemma {:induction false} MoreItemsIsThen(items: seq<Json>, x: string)
    ensures MoreItems(items) + x == MoreItemsThen(items, x)
    decreases items, 1
  {
    if items == [] {
      assert MoreItems(items) + x == x;
    } else {
      MoreItemsIsThen(items[1..], x);
      RenderIsThen(items[0], MoreItems(items[1..]) + x);
      FieldIsThen([','], Render(items[0]), MoreItems(items[1..]), x);
    }
  }

  lemma {:induction false} MoreFieldsIsThen(quoted: bool, fields: seq<Field>, x: string)
    ensures MoreFields(quoted, fields) + x == MoreFieldsThen(quoted, fields, x)
    decreases fields, 2
  {
    if fields == [] {
      assert MoreFields(quoted, fields) + x == x;
    } else {
      var key, value, more := KeyText(quoted, fields[0].key), Render(fields[0].value), MoreFields(quoted, fields[1..]);
      assert MoreFields(quoted, fields) == [','] + Fields(quoted, fields) by {
        FieldIsThen([','], key, value, more);
        Regroup(key, value, more);
      }
      Regroup([','], Fields(quoted, fields), x);
      FieldsIsThen(quoted, fields, x);
    }
  }

  lemma {:induction false} FieldsIsThen(quoted: bool, fields: seq<Field>, x: string)
    ensures Fields(quoted, fields) + x == FieldsThen(quoted, fields, x)
    decreases fields, 1
  {
    if fields == [] {
      assert Fields(quoted, fields) + x == x;
    } else {
      var key, value, more := KeyText(quoted, fields[0].key), Render(fields[0].value), MoreFields(quoted, fields[1..]);
      MoreFieldsIsThen(quoted, fields[1..], x);
      RenderIsThen(fields[0].value, more + x);
      KeyIsThen(quoted, fields[0].key, value + (more + x));
      FieldIsThen(key, value, more, x);
    }
  }

  // ----- strings and keys are read back -----

  lemma HexTells(d: nat, e: nat)
    requires d < 16 && e < 16 && Hex(d) == Hex(e)
    ensures d == e
  {
  }

  /** The first two characters of an escape settle its length. */
  lemma EscapeLength(c: char, d: char, x: string, y: string)
    requires Escape(c) + x == Escape(d) + y
    ensures |Escape(c)| == |Escape(d)|
  {
    var whole := Escape(c) + x;
    assert whole[0] == Escape(c)[0] == Escape(d)[0];
    if |Escape(c)| > 1 {
      assert whole[1] == Escape(c)[1] == Escape(d)[1];
    }
  }

  lemma EscapeTells(c: char, d: char, x: string, y: string)
    requires Escape(c) + x == Escape(d) + y
    ensures c == d && x == y
  {
    EscapeLength(c, d, x, y);
    SameLength(Escape(c), Escape(d), x, y);
    if |Escape(c)| == 6 {
      assert Escape(c)[4] == Escape(d)[4] && Escape(c)[5] == Escape(d)[5];
      HexTells(c as int / 16, d as int / 16);
      HexTells(c as int % 16, d as int % 16);
    } else {
      assert Escape(c)[0] == Escape(d)[0];
      if |Escape(c)| == 2 { assert Escape(c)[1] == Escape(d)[1]; }
    }
  }

  lemma EscapedFirst(s: string, x: string)
    ensures EscapedThen(s, ['"'] + x) != ""
    ensures EscapedThen(s, ['"'] + x)[0] == '"' <==> s == []
  {
  }

  lemma {:induction false} EscapedTells(s: string, t: string, x: string, y: string)
    requires EscapedThen(s, ['"'] + x) == EscapedThen(t, ['"'] + y)
    ensures s == t && x == y
  {
    EscapedFirst(s, x);
    EscapedFirst(t, y);
    if s == [] {
      SamePrefix(['"'], x, y);
    } else {
      EscapeTells(s[0], t[0], EscapedThen(s[1..], ['"'] + x), EscapedThen(t[1..], ['"'] + y));
      EscapedTells(s[1..], t[1..], x, y);
      assert s == [s[0]] + s[1..] && t == [t[0]] + t[1..];
    }
  }

  lemma QuotedTells(s: string, t: string, x: string, y: string)
    requires QuotedThen(s, x) == QuotedThen(t, y)
    ensures s == t && x == y
  {
    SamePrefix(['"'], EscapedThen(s, ['"'] + x), EscapedThen(t, ['"'] + y));
    EscapedTells(s, t, x, y);
  }

  lemma KeyTells(quoted: bool, k: string, l: string, x: string, y: string)
    requires quoted || (PlainName(k) && PlainName(l))
    requires KeyThen(quoted, k, x) == KeyThen(quoted, l, y)
    ensures k == l && x == y
  {
    if quoted {
      QuotedTells(k, l, [':'] + x, [':'] + y);
      SamePrefix([':'], x, y);
    } else {
      CutAtFirst('=', k, l, x, y);
    }
  }

  // ----- values are read back -----

  /** What may follow a value, and what may follow a list of them. */
  predicate Ends(x: string) { x != "" && x[0] in ",)]}" }

  predicate Closes(x: string) { x != "" && x[0] in ")]}" }

  lemma NumeralTells(a: string, b: string, x: string, y: string)
    requires IsNumeral(a) && IsNumeral(b) && Ends(x) && Ends(y) && a + x == b + y
    ensures a == b && x == y
  {
    assert !NumeralChar((a + x)[|a|]) && forall k :: 0 <= k < |a| ==> NumeralChar((a + x)[k]);
    assert !NumeralChar((b + y)[|b|]) && forall k :: 0 <= k < |b| ==> NumeralChar((b + y)[k]);
    assert |a| == |b|;
    SameLength(a, b, x, y);
  }

  /** The first character tells what kind of value is printed. */
  predicate OfKind(j: Json, c: char) {
    match j
    case Null => c == 'n'
    case Bool(b) => if b then c == 't' else c == 'f'
    case Num(_) => IsDigit(c) || c == '-'
    case Str(_) => c == '"'
    case Arr(_) => c == '['
    case Obj(_) => c == '{'
  }

  lemma FirstTellsKind(j: Json, x: string)
    requires WellFormed(j)
    ensures Then(j, x) != "" && OfKind(j, Then(j, x)[0])
  {
  }

  lemma KeyFirst(quoted: bool, key: string, x: string)
    requires quoted || PlainName(key)
    ensures KeyThen(quoted, key, x) != "" && !Closes(KeyThen(quoted, key, x))
  {
    if !quoted {
      assert key[0] in key && KeyThen(quoted, key, x)[0] == key[0];
    }
  }

  lemma {:induction false} ValueTells(a: Json, b: Json, x: string, y: string)
    requires WellFormed(a) && WellFormed(b) && Ends(x) && Ends(y) && Then(a, x) == Then(b, y)
    ensures a == b && x == y
    decreases a, 0
  {
    FirstTellsKind(a, x);
    FirstTellsKind(b, y);
    match a
    case Null => SamePrefix("null", x, y);
    case Bool(t) => SamePrefix(if t then "true" else "false", x, y);
    case Num(text) => NumeralTells(text, b.text, x, y);
    case Str(s) => QuotedTells(s, b.s, x, y);
    case Arr(items) => ArrayTells(items, b.items, x, y);
    case Obj(fields) =>
      assert Then(b, y) == ['{'] + FieldsThen(true, b.fields, ['}'] + y);
      SamePrefix(['{'], FieldsThen(true, fields, ['}'] + x), FieldsThen(true, b.fields, ['}'] + y));
      FieldsTell(true, fields, b.fields, ['}'] + x, ['}'] + y);
      SamePrefix(['}'], x, y);
  }

  ghost predicate AllWellFormed(items: seq<Json>) {
    forall k :: 0 <= k < |items| ==> WellFormed(items[k])
  }

  lemma MoreItemsEnd(items: seq<Json>, x: string)
    requires Closes(x)
    ensures Ends(MoreItemsThen(items, x))
  {
  }

  lemma MoreFieldsEnd(quoted: bool, fields: seq<Field>, x: string)
    requires Closes(x)
    ensures Ends(MoreFieldsThen(quoted, fields, x))
  {
  }

  lemma {:induction false} ArrayTells(p: seq<Json>, q: seq<Json>, x: string, y: string)
    requires AllWellFormed(p) && AllWellFormed(q) && Then(Arr(p), x) == Then(Arr(q), y)
    ensures p == q && x == y
    decreases p, 2
  {
    var inP := if p == [] then [']'] + x else Then(p[0], MoreItemsThen(p[1..], [']'] + x));
    var inQ := if q == [] then [']'] + y else Then(q[0], MoreItemsThen(q[1..], [']'] + y));
    SamePrefix(['['], inP, inQ);
    if p != [] { FirstTellsKind(p[0], MoreItemsThen(p[1..], [']'] + x)); }
    if q != [] { FirstTellsKind(q[0], MoreItemsThen(q[1..], [']'] + y)); }
    assert inP[0] == ']' <==> p == [];
    assert inQ[0] == ']' <==> q == [];
    if p == [] {
    } else {
      ItemTells(p, q, [']'] + x, [']'] + y);
    }
    SamePrefix([']'], x, y);
  }

  lemma {:induction false} ItemTells(p: seq<Json>, q: seq<Json>, x: string, y: string)
    requires p != [] && q != [] && AllWellFormed(p) && AllWellFormed(q) && Closes(x) && Closes(y)
    requires Then(p[0], MoreItemsThen(p[1..], x)) == Then(q[0], MoreItemsThen(q[1..], y))
    ensures p == q && x == y
    decreases p, 1
  {
    MoreItemsEnd(p[1..], x);
    MoreItemsEnd(q[1..], y);
    ValueTells(p[0], q[0], MoreItemsThen(p[1..], x), MoreItemsThen(q[1..], y));
    MoreItemsTell(p[1..], q[1..], x, y);
    assert p == [p[0]] + p[1..] && q == [q[0]] + q[1..];
  }

  lemma {:induction false} MoreItemsTell(p: seq<Json>, q: seq<Json>, x: string, y: string)
    requires AllWellFormed(p) && AllWellFormed(q) && Closes(x) && Closes(y)
    requires MoreItemsThen(p, x) == MoreItemsThen(q, y)
    ensures p == q && x == y
    decreases p, 2
  {
    assert MoreItemsThen(p, x)[0] == ',' <==> p != [];
    assert MoreItemsThen(q, y)[0] == ',' <==> q != [];
    if p == [] {
    } else {
      SamePrefix([','], Then(p[0], MoreItemsThen(p[1..], x)), Then(q[0], MoreItemsThen(q[1..], y)));
      ItemTells(p, q, x, y);
    }
  }

  ghost predicate Printable(quoted: bool, fields: seq<Field>) {
    forall k :: 0 <= k < |fields| ==> WellFormed(fields[k].value) && (quoted || PlainName(fields[k].key))
  }

  lemma {:induction false} FieldsTell(quoted: bool, p: seq<Field>, q: seq<Field>, x: string, y: string)
    requires Printable(quoted, p) && Printable(quoted, q) && Closes(x) && Closes(y)
    requires FieldsThen(quoted, p, x) == FieldsThen(quoted, q, y)
    ensures p == q && x == y
    decreases p, 2
  {
    if p != [] { KeyFirst(quoted, p[0].key, Then(p[0].value, MoreFieldsThen(quoted, p[1..], x))); }
    if q != [] { KeyFirst(quoted, q[0].key, Then(q[0].value, MoreFieldsThen(quoted, q[1..], y))); }
    if p == [] {
    } else {
      FieldTells(quoted, p, q, x, y);
    }
  }

  lemma {:induction false} FieldTells(quoted: bool, p: seq<Field>, q: seq<Field>, x: string, y: string)
    requires p != [] && q != [] && Printable(quoted, p) && Printable(quoted, q) && Closes(x) && Closes(y)
    requires KeyThen(quoted, p[0].key, Then(p[0].value, MoreFieldsThen(quoted, p[1..], x)))
             == KeyThen(quoted, q[0].key, Then(q[0].value, MoreFieldsThen(quoted, q[1..], y)))
    ensures p == q && x == y
    decreases p, 1
  {
    var restP, restQ := MoreFieldsThen(quoted, p[1..], x), MoreFieldsThen(quoted, q[1..], y);
    KeyTells(quoted, p[0].key, q[0].key, Then(p[0].value, restP), Then(q[0].value, restQ));
    MoreFieldsEnd(quoted, p[1..], x);
    MoreFieldsEnd(quoted, q[1..], y);
    ValueTells(p[0].value, q[0].value, restP, restQ);
    MoreFieldsTell(quoted, p[1..], q[1..], x, y);
    assert p == [p[0]] + p[1..] && q == [q[0]] + q[1..];
  }

  lemma {:induction false} MoreFieldsTell(quoted: bool, p: seq<Field>, q: seq<Field>, x: string, y: string)
    requires Printable(quoted, p) && Printable(quoted, q) && Closes(x) && Closes(y)
    requires MoreFieldsThen(quoted, p, x) == MoreFieldsThen(quoted, q, y)
    ensures p == q && x == y
    decreases p, 2
  {
    assert MoreFieldsThen(quoted, p, x)[0] == ',' <==> p != [];
    assert MoreFieldsThen(quoted, q, y)[0] == ',' <==> q != [];
    if p == [] {
    } else {
      SamePrefix([','], FieldsThen(quoted, p, x), FieldsThen(quoted, q, y));
      FieldTells(quoted, p, q, x, y);
    }
  }

  // ----- sorting the keys -----

  ghost predicate Ascending(fields: seq<Field>) {
    forall i, j :: 0 <= i < j < |fields| ==> AtMost(fields[i].key, fields[j].key)
  }

  lemma {:induction false} PlaceAdds(sorted: seq<Field>, f: Field)
    ensures multiset(PlaceByKey(sorted, f)) == multiset(sorted) + multiset{f}
  {
    if sorted == [] {
    } else {
      PlaceAdds(sorted[..|sorted| - 1], f);
      assert sorted == sorted[..|sorted| - 1] + [sorted[|sorted| - 1]];
    }
  }

  lemma PlacedMember(sorted: seq<Field>, f: Field, g: Field)
    requires g in PlaceByKey(sorted, f)
    ensures g == f || g in sorted
  {
    PlaceAdds(sorted, f);
    MemberIsCounted(PlaceByKey(sorted, f), g);
    MemberIsCounted(sorted, g);
  }

  lemma {:induction false} PlaceAscends(sorted: seq<Field>, f: Field)
    requires Ascending(sorted)
    ensures Ascending(PlaceByKey(sorted, f))
  {
    if sorted == [] {
    } else {
      var init, last := sorted[..|sorted| - 1], sorted[|sorted| - 1];
      PlaceAscends(init, f);
      if AtMost(last.key, f.key) {
        forall i | 0 <= i < |sorted| ensures AtMost(sorted[i].key, f.key) {
          if i < |sorted| - 1 { AtMostTransitive(sorted[i].key, last.key, f.key); }
        }
      } else {
        AtMostTotal(last.key, f.key);
        forall g | g in PlaceByKey(init, f) ensures AtMost(g.key, last.key) {
          PlacedMember(init, f, g);
        }
      }
    }
  }

  lemma {:induction false} SortKeeps(params: seq<Field>)
    ensures multiset(SortByKey(params)) == multiset(params) && Ascending(SortByKey(params))
  {
    if params == [] {
    } else {
      var init, last := params[..|params| - 1], params[|params| - 1];
      assert params == init + [last];
      SortKeeps(init);
      PlaceAdds(SortByKey(init), last);
      PlaceAscends(SortByKey(init), last);
    }
  }

  lemma MemberIsCounted(fields: seq<Field>, f: Field)
    ensures f in fields <==> f in multiset(fields)
  {
  }

  ghost predicate OneValueEach(p: seq<Field>) {
    forall f, g :: f in p && g in p && f.key == g.key ==> f == g
  }

  lemma LeastIsFirst(p: seq<Field>, f: Field)
    requires Ascending(p) && f in p
    ensures AtMost(p[0].key, f.key)
  {
    AtMostReflexive(f.key);
  }

  lemma SameFirst(p: seq<Field>, q: seq<Field>)
    requires p != [] && q != [] && Ascending(p) && Ascending(q) && multiset(p) == multiset(q)
    requires OneValueEach(p)
    ensures p[0] == q[0]
  {
    MemberIsCounted(p, q[0]);
    MemberIsCounted(q, p[0]);
    MemberIsCounted(q, q[0]);
    MemberIsCounted(p, p[0]);
    LeastIsFirst(p, q[0]);
    LeastIsFirst(q, p[0]);
    AtMostAntisymmetric(p[0].key, q[0].key);
  }

  lemma WithoutFirst(p: seq<Field>)
    requires p != []
    ensures multiset(p[1..]) == multiset(p) - multiset{p[0]}
    ensures OneValueEach(p) ==> OneValueEach(p[1..])
    ensures Ascending(p) ==> Ascending(p[1..])
  {
    assert p == [p[0]] + p[1..];
  }

  lemma SameSize(p: seq<Field>, q: seq<Field>)
    requires multiset(p) == multiset(q)
    ensures |p| == |q|
  {
    assert |multiset(p)| == |p| && |multiset(q)| == |q|;
  }

  /** Distinct keys can be put in order in one way only. */
  lemma {:induction false} OneOrder(p: seq<Field>, q: seq<Field>)
    requires Ascending(p) && Ascending(q) && multiset(p) == multiset(q)
    requires OneValueEach(p)
    ensures p == q
  {
    SameSize(p, q);
    if p == [] {
    } else {
      SameFirst(p, q);
      assert p == [p[0]] + p[1..] && q == [q[0]] + q[1..];
      WithoutFirst(p);
      WithoutFirst(q);
      OneOrder(p[1..], q[1..]);
    }
  }

  lemma {:induction false} SortOfSame(p: seq<Field>, q: seq<Field>)
    requires DistinctKeys(p) && SameArguments(p, q)
    ensures SortByKey(p) == SortByKey(q)
  {
    SortKeeps(p);
    SortKeeps(q);
    forall f, g | f in SortByKey(p) && g in SortByKey(p) && f.key == g.key ensures f == g {
      MemberIsCounted(SortByKey(p), f);
      MemberIsCounted(SortByKey(p), g);
      MemberIsCounted(p, f);
      MemberIsCounted(p, g);
    }
    OneOrder(SortByKey(p), SortByKey(q));
  }

  // ----- what a description binds -----

  /** The order the keys were written in never matters. */
  lemma InsertionOrderIsForgotten(origin: string, tool: string, p: seq<Field>, q: seq<Field>)
    requires DistinctKeys(p) && SameArguments(p, q)
    ensures Describe(origin, tool, p) == Describe(origin, tool, q)
  {
    SortOfSame(p, q);
  }

  lemma SortedStillPrintable(p: seq<Field>)
    requires Arguments(p)
    ensures Printable(false, SortByKey(p))
  {
    SortKeeps(p);
    forall k | 0 <= k < |SortByKey(p)| ensures WellFormed(SortByKey(p)[k].value) && PlainName(SortByKey(p)[k].key) {
      MemberIsCounted(SortByKey(p), SortByKey(p)[k]);
      MemberIsCounted(p, SortByKey(p)[k]);
    }
  }

  lemma ArgumentsTell(p: seq<Field>, q: seq<Field>)
    requires Arguments(p) && Arguments(q)
    requires Fields(false, SortByKey(p)) + ")" == Fields(false, SortByKey(q)) + ")"
    ensures SameArguments(p, q)
  {
    SortedStillPrintable(p);
    SortedStillPrintable(q);
    FieldsIsThen(false, SortByKey(p), ")");
    FieldsIsThen(false, SortByKey(q), ")");
    FieldsTell(false, SortByKey(p), SortByKey(q), ")", ")");
    SortKeeps(p);
    SortKeeps(q);
  }

  /** An origin that is a slug, with a tool free of brackets. */
  predicate SlugNamed(origin: string, tool: string) {
    '/' !in origin && '(' !in tool
  }

  /** An origin that may be a URL, with a tool free of brackets and slashes. */
  predicate UrlNamed(origin: string, tool: string) {
    '(' !in origin && '(' !in tool && '/' !in tool
  }

  predicate BracketFree(origin: string, tool: string) {
    '(' !in origin && '(' !in tool
  }

  /** Whatever slashes the names hold, a description tells the path they make, and the arguments. */
  lemma DescribeBindsPath(origin: string, tool: string, p: seq<Field>, origin': string, tool': string, q: seq<Field>)
    requires Arguments(p) && Arguments(q) && BracketFree(origin, tool) && BracketFree(origin', tool')
    ensures Describe(origin, tool, p) == Describe(origin', tool', q)
            <==> origin + "/" + tool == origin' + "/" + tool' && SameArguments(p, q)
  {
    var path, path' := origin + "/" + tool, origin' + "/" + tool';
    var one, other := Fields(false, SortByKey(p)) + ")", Fields(false, SortByKey(q)) + ")";
    assert Describe(origin, tool, p) == path + ['('] + one && Describe(origin', tool', q) == path' + ['('] + other;
    if Describe(origin, tool, p) == Describe(origin', tool', q) {
      CutAtFirst('(', path, path', one, other);
      ArgumentsTell(p, q);
    } else if path == path' && SameArguments(p, q) {
      InsertionOrderIsForgotten(origin, tool, p, q);
    }
  }

  /** The path does not tell where the origin ends: a slash can be either name's. */
  lemma SlashIsEithers(a: string, b: string, c: string, p: seq<Field>)
    ensures Describe(a, b + "/" + c, p) == Describe(a + "/" + b, c, p)
    ensures a != a + "/" + b
  {
    assert a + "/" + (b + "/" + c) == (a + "/" + b) + "/" + c;
    assert |a| != |a + "/" + b|;
  }

  /** Two calls have one description exactly when origin, tool and arguments are the same. */
  lemma DescribeBinds(origin: string, tool: string, p: seq<Field>, origin': string, tool': string, q: seq<Field>)
    requires Arguments(p) && Arguments(q)
    requires (SlugNamed(origin, tool) && SlugNamed(origin', tool'))
             || (UrlNamed(origin, tool) && UrlNamed(origin', tool'))
    ensures Describe(origin, tool, p) == Describe(origin', tool', q)
            <==> origin == origin' && tool == tool' && SameArguments(p, q)
  {
    var one, other := Fields(false, SortByKey(p)) + ")", Fields(false, SortByKey(q)) + ")";
    if Describe(origin, tool, p) == Describe(origin', tool', q) {
      NamesTell(origin, tool, one, origin', tool', other, Describe(origin, tool, p));
      ArgumentsTell(p, q);
    } else if origin == origin' && tool == tool' && SameArguments(p, q) {
      InsertionOrderIsForgotten(origin, tool, p, q);
    }
  }

  lemma NamesTell(origin: string, tool: string, x: string, origin': string, tool': string, y: string, whole: string)
    requires (SlugNamed(origin, tool) && SlugNamed(origin', tool'))
             || (UrlNamed(origin, tool) && UrlNamed(origin', tool'))
    requires whole == origin + "/" + tool + "(" + x && whole == origin' + "/" + tool' + "(" + y
    ensures origin == origin' && tool == tool' && x == y
  {
    if SlugNamed(origin, tool) && SlugNamed(origin', tool') {
      assert whole == origin + ['/'] + (tool + "(" + x) && whole == origin' + ['/'] + (tool' + "(" + y);
      CutAtFirst('/', origin, origin', tool + "(" + x, tool' + "(" + y);
      CutAtFirst('(', tool, tool', x, y);
    } else {
      assert whole == (origin + "/" + tool) + ['('] + x && whole == (origin' + "/" + tool') + ['('] + y;
      CutAtFirst('(', origin + "/" + tool, origin' + "/" + tool', x, y);
      CutAtLast('/', origin, origin', tool, tool');
    }
  }

  /**
   Only the top level is sorted: a nested object's fields in another order describe another action, though the
   object holds the same fields.
   */
  lemma NestedOrderCounts(origin: string, tool: string, key: string, u: seq<Field>, v: seq<Field>)
    requires UrlNamed(origin, tool) && PlainName(key) && WellFormed(Obj(u)) && WellFormed(Obj(v))
    ensures Describe(origin, tool, [Field(key, Obj(u))]) == Describe(origin, tool, [Field(key, Obj(v))]) <==> u == v
  {
    var p, q := [Field(key, Obj(u))], [Field(key, Obj(v))];
    DescribeBinds(origin, tool, p, origin, tool, q);
    if SameArguments(p, q) {
      assert p[0] in multiset(q);
    }
  }

  lemma SameArgumentsDescribedTwice()
    ensures var x, y := Field("x", Null), Field("y", Null);
            && multiset([x, y]) == multiset([y, x])
            && Describe("app", "act", [Field("to", Obj([x, y]))]) != Describe("app", "act", [Field("to", Obj([y, x]))])
  {
    var x, y := Field("x", Null), Field("y", Null);
    assert [x, y][0] != [y, x][0];
    NestedOrderCounts("app", "act", "to", [x, y], [y, x]);
  }
}
