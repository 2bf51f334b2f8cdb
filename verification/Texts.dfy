/** Text as the applications use it: ordering by character, the decimal form of a number, and trimming. */
module Texts {

  /** Whether `a` sorts before or with `b`, character by character. */
  predicate AtMost(a: string, b: string) {
    if a == [] then true
    else if b == [] then false
    else if a[0] != b[0] then a[0] < b[0]
    else AtMost(a[1..], b[1..])
  }

  lemma {:induction false} AtMostTotal(a: string, b: string)
    ensures AtMost(a, b) || AtMost(b, a)
  {
    if a != [] && b != [] && a[0] == b[0] {
      AtMostTotal(a[1..], b[1..]);
    }
  }

  lemma {:induction false} AtMostTransitive(a: string, b: string, c: string)
    requires AtMost(a, b) && AtMost(b, c)
    ensures AtMost(a, c)
  {
    if a != [] && b != [] && c != [] && a[0] == b[0] == c[0] {
      AtMostTransitive(a[1..], b[1..], c[1..]);
    }
  }

  lemma {:induction false} AtMostAntisymmetric(a: string, b: string)
    requires AtMost(a, b) && AtMost(b, a)
    ensures a == b
  {
    if a != [] && b != [] {
      AtMostAntisymmetric(a[1..], b[1..]);
      assert a == [a[0]] + a[1..] && b == [b[0]] + b[1..];
    }
  }

  lemma AtMostReflexive(a: string)
    ensures AtMost(a, a)
  {
    AtMostTotal(a, a);
  }

  /** `ORDER BY id LIMIT 1` over the ids in `ids`. */
  ghost predicate IsFirst(ids: set<string>, id: string) {
    id in ids && forall other :: other in ids ==> AtMost(id, other)
  }

  lemma {:induction false} FirstExists(ids: set<string>)
    requires ids != {}
    ensures exists id :: IsFirst(ids, id)
  {
    var x :| x in ids;
    var rest := ids - {x};
    if rest == {} {
      assert ids == {x};
      AtMostReflexive(x);
      assert IsFirst(ids, x);
    } else {
      FirstExists(rest);
      var y :| IsFirst(rest, y);
      AtMostTotal(x, y);
      AtMostReflexive(x);
      if AtMost(x, y) {
        forall other | other in ids ensures AtMost(x, other) {
          if other != x { AtMostTransitive(x, y, other); }
        }
        assert IsFirst(ids, x);
      } else {
        assert IsFirst(ids, y);
      }
    }
  }

  ghost function First(ids: set<string>): (id: string)
    requires ids != {}
    ensures IsFirst(ids, id)
  {
    FirstExists(ids);
    var id :| IsFirst(ids, id); id
  }

  lemma FirstIsUnique(ids: set<string>, id: string)
    requires IsFirst(ids, id)
    ensures id == First(ids)
  {
    AtMostAntisymmetric(id, First(ids));
  }

  predicate IsDigit(c: char) {
    '0' <= c <= '9'
  }

  function Digit(d: nat): (c: char)
    requires d < 10
    ensures IsDigit(c) && DigitValue(c) == d
  {
    "0123456789"[d]
  }

  function DigitValue(c: char): (d: nat)
    requires IsDigit(c)
    ensures d < 10
  {
    c as int - '0' as int
  }

  predicate AllDigits(s: string) {
    forall k :: 0 <= k < |s| ==> IsDigit(s[k])
  }

  /** The number a run of digits denotes. */
  function Value(s: string): nat
    requires AllDigits(s)
  {
    if s == [] then 0 else 10 * Value(s[..|s| - 1]) + DigitValue(s[|s| - 1])
  }

  /** A whole number as it is printed. */
  function Decimal(n: nat): (s: string)
    ensures s != [] && AllDigits(s) && Value(s) == n
  {
    if n < 10 then
      assert [Digit(n)][..0] == [];
      [Digit(n)]
    else
      var front, last := Decimal(n / 10), Digit(n % 10);
      assert (front + [last])[..|front|] == front;
      assert 10 * (n / 10) + n % 10 == n;
      front + [last]
  }

  /** White space and line ends, as ECMAScript's `trim` and `\s` know them. */
  predicate IsSpace(c: char) {
    || c == ' ' || '\U{09}' <= c <= '\U{0D}' || c == '\U{A0}' || c == '\U{1680}' || '\U{2000}' <= c <= '\U{200A}'
    || c == '\U{2028}' || c == '\U{2029}' || c == '\U{202F}' || c == '\U{205F}' || c == '\U{3000}' || c == '\U{FEFF}'
  }

  function TrimStart(s: string): string {
    if s != [] && IsSpace(s[0]) then TrimStart(s[1..]) else s
  }

  function TrimEnd(s: string): string {
    if s != [] && IsSpace(s[|s| - 1]) then TrimEnd(s[..|s| - 1]) else s
  }

  function Trim(s: string): string {
    TrimEnd(TrimStart(s))
  }

  lemma {:induction false} TrimStartIsTail(t: string) returns (i: nat)
    ensures i <= |t| && TrimStart(t) == t[i..]
    ensures (forall k :: 0 <= k < i ==> IsSpace(t[k])) && (i < |t| ==> !IsSpace(t[i]))
  {
    if t != [] && IsSpace(t[0]) {
      var j := TrimStartIsTail(t[1..]);
      i := j + 1;
      assert t[1..][j..] == t[i..];
      assert forall k :: 1 <= k < i ==> t[k] == t[1..][k - 1];
    } else {
      i := 0;
    }
  }

  lemma {:induction false} TrimEndIsHead(t: string) returns (j: nat)
    ensures j <= |t| && TrimEnd(t) == t[..j]
    ensures (forall k :: j <= k < |t| ==> IsSpace(t[k])) && (j > 0 ==> !IsSpace(t[j - 1]))
  {
    if t != [] && IsSpace(t[|t| - 1]) {
      j := TrimEndIsHead(t[..|t| - 1]);
      assert t[..|t| - 1][..j] == t[..j];
    } else {
      j := |t|;
      assert t[..j] == t;
    }
  }

  /** What is trimmed off is white space, and what is left neither begins nor ends with any. */
  lemma TrimKeepsTheMiddle(t: string) returns (i: nat, j: nat)
    ensures i <= j <= |t| && Trim(t) == t[i..j]
    ensures forall k :: 0 <= k < i || j <= k < |t| ==> IsSpace(t[k])
    ensures Trim(t) != "" ==> !IsSpace(Trim(t)[0]) && !IsSpace(Trim(t)[|Trim(t)| - 1])
  {
    i := TrimStartIsTail(t);
    var n := TrimEndIsHead(t[i..]);
    j := i + n;
    assert t[i..][..n] == t[i..j];
    assert forall k :: j <= k < |t| ==> t[k] == t[i..][k - i];
  }
}
