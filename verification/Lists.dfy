/**
 The list operations the two applications lean on - `filter`, `map` and the stable `sort` - with
 the facts that let a sorted table be read from two sides.
 */
module Lists {

  function Filter<T>(s: seq<T>, p: T -> bool): (r: seq<T>) {
    if s == [] then []
    else Filter(s[..|s| - 1], p) + if p(s[|s| - 1]) then [s[|s| - 1]] else []
  }

  function Map<T, U>(s: seq<T>, f: T -> U): (r: seq<U>)
    ensures |r| == |s|
    ensures forall k :: 0 <= k < |s| ==> r[k] == f(s[k])
  {
    if s == [] then [] else Map(s[..|s| - 1], f) + [f(s[|s| - 1])]
  }

  function Sum<T>(s: seq<T>, f: T -> int): int {
    if s == [] then 0 else Sum(s[..|s| - 1], f) + f(s[|s| - 1])
  }

  /** Place `x` behind every element whose key is at least its own. */
  function Insert<T>(s: seq<T>, x: T, key: T -> int): (r: seq<T>) {
    if s == [] then [x]
    else if key(s[|s| - 1]) >= key(x) then s + [x]
    else Insert(s[..|s| - 1], x, key) + [s[|s| - 1]]
  }

  /** The stable descending sort `(a, b) => key(b) - key(a)` asks for: ties keep their order. */
  function SortDesc<T>(s: seq<T>, key: T -> int): (r: seq<T>) {
    if s == [] then [] else Insert(SortDesc(s[..|s| - 1], key), s[|s| - 1], key)
  }

  ghost predicate Descending<T>(s: seq<T>, key: T -> int) {
    forall i, j :: 0 <= i < j < |s| ==> key(s[i]) >= key(s[j])
  }

  ghost predicate Distinct<T>(s: seq<T>) {
    forall i, j :: 0 <= i < j < |s| ==> s[i] != s[j]
  }

  // ----- filter -----

  /** The list with `x` put before the element at `place`, or at the end. */
  function PutAt<T>(s: seq<T>, place: nat, x: T): seq<T>
    requires place <= |s|
  {
    s[..place] + [x] + s[place..]
  }

  lemma PutAtKeeps<T>(s: seq<T>, place: nat, x: T)
    requires place <= |s| && x !in s
    ensures forall y :: y in PutAt(s, place, x) <==> y in s || y == x
    ensures Distinct(s) ==> Distinct(PutAt(s, place, x))
  {
    var put := PutAt(s, place, x);
    assert s == s[..place] + s[place..];
    forall k | 0 <= k < |put|
      ensures put[k] == if k < place then s[k] else if k == place then x else s[k - 1]
    {
    }
  }

  lemma FilterSnoc<T>(s: seq<T>, x: T, p: T -> bool)
    ensures Filter(s + [x], p) == if p(x) then Filter(s, p) + [x] else Filter(s, p)
  {
    assert (s + [x])[..|s|] == s;
  }

  lemma {:induction false} FilterConcat<T>(a: seq<T>, b: seq<T>, p: T -> bool)
    ensures Filter(a + b, p) == Filter(a, p) + Filter(b, p)
  {
    if b == [] {
      assert a + b == a;
    } else {
      assert (a + b)[..|a + b| - 1] == a + b[..|b| - 1];
      FilterConcat(a, b[..|b| - 1], p);
    }
  }

  lemma {:induction false} FilterMember<T>(s: seq<T>, p: T -> bool, x: T)
    ensures x in Filter(s, p) <==> x in s && p(x)
  {
    if s == [] {
    } else {
      FilterMember(s[..|s| - 1], p, x);
      assert s == s[..|s| - 1] + [s[|s| - 1]];
    }
  }

  lemma {:induction false} FilterTwice<T>(s: seq<T>, p: T -> bool, q: T -> bool, both: T -> bool)
    requires forall x :: x in s ==> (both(x) <==> p(x) && q(x))
    ensures Filter(Filter(s, p), q) == Filter(s, both)
  {
    if s == [] {
    } else {
      var init, last := s[..|s| - 1], s[|s| - 1];
      FilterTwice(init, p, q, both);
      FilterConcat(Filter(init, p), if p(last) then [last] else [], q);
      assert Filter([last], q) == if q(last) then [last] else [] by {
        assert [last][..0] == [];
      }
    }
  }

  lemma {:induction false} FilterSame<T>(s: seq<T>, p: T -> bool, q: T -> bool)
    requires forall x :: x in s ==> (p(x) <==> q(x))
    ensures Filter(s, p) == Filter(s, q)
  {
    if s == [] {
    } else {
      FilterSame(s[..|s| - 1], p, q);
    }
  }

  lemma {:induction false} FilterAll<T>(s: seq<T>, p: T -> bool)
    requires forall x :: x in s ==> p(x)
    ensures Filter(s, p) == s
  {
    if s == [] {
    } else {
      FilterAll(s[..|s| - 1], p);
      assert s == s[..|s| - 1] + [s[|s| - 1]];
    }
  }

  lemma {:induction false} FilterNone<T>(s: seq<T>, p: T -> bool)
    requires forall x :: x in s ==> !p(x)
    ensures Filter(s, p) == []
  {
    if s == [] {
    } else {
      FilterNone(s[..|s| - 1], p);
    }
  }

  lemma {:induction false} FilterLength<T>(s: seq<T>, p: T -> bool)
    ensures |Filter(s, p)| <= |s|
  {
    if s == [] {
    } else {
      FilterLength(s[..|s| - 1], p);
    }
  }

  lemma FilterHead<T>(s: seq<T>, p: T -> bool)
    requires s != [] && p(s[0])
    ensures Filter(s, p) != [] && Filter(s, p)[0] == s[0]
  {
    assert s == [s[0]] + s[1..];
    FilterConcat([s[0]], s[1..], p);
    FilterSnoc([], s[0], p);
    assert [] + [s[0]] == [s[0]];
  }

  /** Filtering the images is mapping the filtered, when `q` asks of an element what `p` asks of its image. */
  lemma {:induction false} FilterMap<T, U>(s: seq<T>, f: T -> U, p: U -> bool, q: T -> bool)
    requires forall x :: x in s ==> (q(x) <==> p(f(x)))
    ensures Filter(Map(s, f), p) == Map(Filter(s, q), f)
  {
    if s == [] {
    } else {
      var init, last := s[..|s| - 1], s[|s| - 1];
      FilterMap(init, f, p, q);
      FilterSnoc(Map(init, f), f(last), p);
    }
  }

  lemma MapConcat<T, U>(a: seq<T>, b: seq<T>, f: T -> U)
    ensures Map(a + b, f) == Map(a, f) + Map(b, f)
  {
  }

  lemma {:induction false} FilterDistinct<T>(s: seq<T>, p: T -> bool)
    requires Distinct(s)
    ensures Distinct(Filter(s, p))
  {
    if s == [] {
    } else {
      var init, last := s[..|s| - 1], s[|s| - 1];
      FilterDistinct(init, p);
      FilterMember(init, p, last);
      assert last !in Filter(init, p);
    }
  }

  lemma {:induction false} SumConcat<T>(a: seq<T>, b: seq<T>, f: T -> int)
    ensures Sum(a + b, f) == Sum(a, f) + Sum(b, f)
  {
    if b == [] {
      assert a + b == a;
    } else {
      assert (a + b)[..|a + b| - 1] == a + b[..|b| - 1];
      SumConcat(a, b[..|b| - 1], f);
    }
  }

  lemma {:induction false} SumZero<T>(s: seq<T>, f: T -> int)
    requires forall x :: x in s ==> f(x) == 0
    ensures Sum(s, f) == 0
  {
    if s == [] {
    } else {
      SumZero(s[..|s| - 1], f);
    }
  }

  lemma {:induction false} SumSame<T>(s: seq<T>, f: T -> int, g: T -> int)
    requires forall x :: x in s ==> f(x) == g(x)
    ensures Sum(s, f) == Sum(s, g)
  {
    if s == [] {
    } else {
      SumSame(s[..|s| - 1], f, g);
    }
  }

  // ----- the stable sort -----

  lemma {:induction false} InsertMultiset<T>(s: seq<T>, x: T, key: T -> int)
    ensures multiset(Insert(s, x, key)) == multiset(s) + multiset{x}
  {
    if s != [] && key(s[|s| - 1]) < key(x) {
      assert s == s[..|s| - 1] + [s[|s| - 1]];
      InsertMultiset(s[..|s| - 1], x, key);
    }
  }

  lemma InsertMember<T>(s: seq<T>, x: T, key: T -> int, y: T)
    ensures y in Insert(s, x, key) <==> y in s || y == x
  {
    InsertMultiset(s, x, key);
    assert y in Insert(s, x, key) <==> y in multiset(Insert(s, x, key));
    assert y in s <==> y in multiset(s);
  }

  lemma {:induction false} InsertDescending<T>(s: seq<T>, x: T, key: T -> int)
    requires Descending(s, key)
    ensures Descending(Insert(s, x, key), key)
  {
    if s != [] && key(s[|s| - 1]) < key(x) {
      var init, last := s[..|s| - 1], s[|s| - 1];
      InsertDescending(init, x, key);
      forall y | y in Insert(init, x, key) ensures key(y) >= key(last) {
        InsertMember(init, x, key, y);
      }
    }
  }

  lemma {:induction false} SortDescMultiset<T>(s: seq<T>, key: T -> int)
    ensures multiset(SortDesc(s, key)) == multiset(s)
  {
    if s == [] {
    } else {
      assert s == s[..|s| - 1] + [s[|s| - 1]];
      SortDescMultiset(s[..|s| - 1], key);
      InsertMultiset(SortDesc(s[..|s| - 1], key), s[|s| - 1], key);
    }
  }

  lemma SortDescMember<T>(s: seq<T>, key: T -> int, y: T)
    ensures y in SortDesc(s, key) <==> y in s
  {
    SortDescMultiset(s, key);
    assert y in SortDesc(s, key) <==> y in multiset(SortDesc(s, key));
    assert y in s <==> y in multiset(s);
  }

  lemma SortDescLength<T>(s: seq<T>, key: T -> int)
    ensures |SortDesc(s, key)| == |s|
  {
    SortDescMultiset(s, key);
    assert |multiset(SortDesc(s, key))| == |SortDesc(s, key)|;
    assert |multiset(s)| == |s|;
  }

  lemma {:induction false} SortDescDescending<T>(s: seq<T>, key: T -> int)
    ensures Descending(SortDesc(s, key), key)
  {
    if s == [] {
    } else {
      SortDescDescending(s[..|s| - 1], key);
      InsertDescending(SortDesc(s[..|s| - 1], key), s[|s| - 1], key);
    }
  }

  lemma InsertBehindAll<T>(s: seq<T>, x: T, key: T -> int)
    requires forall y :: y in s ==> key(y) >= key(x)
    ensures Insert(s, x, key) == s + [x]
  {
  }

  lemma {:induction false} FilterInsert<T>(s: seq<T>, x: T, key: T -> int, p: T -> bool)
    requires Descending(s, key)
    ensures Filter(Insert(s, x, key), p) == if p(x) then Insert(Filter(s, p), x, key) else Filter(s, p)
  {
    if forall y :: y in s ==> key(y) >= key(x) {
      InsertBehindAll(s, x, key);
      FilterSnoc(s, x, p);
      forall y | y in Filter(s, p) ensures key(y) >= key(x) {
        FilterMember(s, p, y);
      }
      InsertBehindAll(Filter(s, p), x, key);
    } else {
      var init, last := s[..|s| - 1], s[|s| - 1];
      assert s == init + [last];
      FilterInsert(init, x, key, p);
      var placed, kept := Insert(init, x, key), Filter(init, p);
      FilterSnoc(init, last, p);
      FilterSnoc(placed, last, p);
      InsertSnoc(init, last, x, key);
      InsertSnoc(kept, last, x, key);
    }
  }

  lemma InsertSnoc<T>(s: seq<T>, last: T, x: T, key: T -> int)
    ensures Insert(s + [last], x, key) ==
            if key(last) >= key(x) then s + [last, x] else Insert(s, x, key) + [last]
  {
    assert (s + [last])[..|s|] == s;
  }

  lemma SortDescSnoc<T>(s: seq<T>, x: T, key: T -> int)
    ensures SortDesc(s + [x], key) == Insert(SortDesc(s, key), x, key)
  {
    assert (s + [x])[..|s|] == s;
  }

  /** Filtering a stable sort is the stable sort of the filtered list. */
  lemma {:induction false} FilterSortDesc<T>(s: seq<T>, key: T -> int, p: T -> bool)
    ensures Filter(SortDesc(s, key), p) == SortDesc(Filter(s, p), key)
  {
    if s == [] {
    } else {
      var init, last := s[..|s| - 1], s[|s| - 1];
      assert s == init + [last];
      FilterSortDesc(init, key, p);
      var sorted, kept := SortDesc(init, key), Filter(init, p);
      SortDescDescending(init, key);
      FilterInsert(sorted, last, key, p);
      SortDescSnoc(init, last, key);
      SortDescSnoc(kept, last, key);
      FilterSnoc(init, last, p);
    }
  }

  lemma {:induction false} InsertMap<T, U>(s: seq<T>, x: T, key: T -> int, f: T -> U, key': U -> int)
    requires forall y :: y in s || y == x ==> key'(f(y)) == key(y)
    ensures Map(Insert(s, x, key), f) == Insert(Map(s, f), f(x), key')
  {
    if s == [] {
    } else {
      var init, last := s[..|s| - 1], s[|s| - 1];
      assert Map(s, f) == Map(init, f) + [f(last)];
      assert Map(s, f)[..|s| - 1] == Map(init, f);
      if key(last) < key(x) {
        InsertMap(init, x, key, f, key');
      }
    }
  }

  /** Renaming the elements under a key-preserving map does not change what the sort does. */
  lemma {:induction false} SortDescMap<T, U>(s: seq<T>, key: T -> int, f: T -> U, key': U -> int)
    requires forall y :: y in s ==> key'(f(y)) == key(y)
    ensures SortDesc(Map(s, f), key') == Map(SortDesc(s, key), f)
  {
    if s == [] {
    } else {
      var init, last := s[..|s| - 1], s[|s| - 1];
      assert Map(s, f)[..|s| - 1] == Map(init, f);
      SortDescMap(init, key, f, key');
      forall y | y in SortDesc(init, key) ensures key'(f(y)) == key(y) {
        SortDescMember(init, key, y);
      }
      InsertMap(SortDesc(init, key), last, key, f, key');
    }
  }

  lemma {:induction false} SumInsert<T>(s: seq<T>, x: T, key: T -> int, f: T -> int)
    ensures Sum(Insert(s, x, key), f) == Sum(s, f) + f(x)
  {
    if s == [] {
      SumConcat([], [x], f);
    } else if key(s[|s| - 1]) < key(x) {
      SumInsert(s[..|s| - 1], x, key, f);
      var placed := Insert(s[..|s| - 1], x, key);
      assert (placed + [s[|s| - 1]])[..|placed|] == placed;
    }
  }

  /** Sorting changes no sum. */
  lemma {:induction false} SumSortDesc<T>(s: seq<T>, key: T -> int, f: T -> int)
    ensures Sum(SortDesc(s, key), f) == Sum(s, f)
  {
    if s == [] {
    } else {
      SumSortDesc(s[..|s| - 1], key, f);
      SumInsert(SortDesc(s[..|s| - 1], key), s[|s| - 1], key, f);
    }
  }

  /** Dropping elements that weigh nothing changes no sum. */
  lemma {:induction false} SumFilter<T>(s: seq<T>, p: T -> bool, f: T -> int)
    requires forall x :: x in s && !p(x) ==> f(x) == 0
    ensures Sum(Filter(s, p), f) == Sum(s, f)
  {
    if s == [] {
    } else {
      var init, last := s[..|s| - 1], s[|s| - 1];
      SumFilter(init, p, f);
      assert last in s;
      if p(last) {
        assert Filter(s, p) == Filter(init, p) + [last];
        assert (Filter(init, p) + [last])[..|Filter(init, p)|] == Filter(init, p);
      } else {
        assert f(last) == 0;
        assert Filter(s, p) == Filter(init, p);
      }
    }
  }

  // ----- what comes before what -----

  ghost predicate Precedes<T>(s: seq<T>, x: T, y: T) {
    exists a, b :: 0 <= a < b < |s| && s[a] == x && s[b] == y
  }

  lemma PrecedesSnoc<T>(s: seq<T>, z: T, x: T, y: T)
    ensures Precedes(s + [z], x, y) <==> Precedes(s, x, y) || (x in s && y == z)
  {
    var all := s + [z];
    if Precedes(s, x, y) {
      var a, b :| 0 <= a < b < |s| && s[a] == x && s[b] == y;
      assert all[a] == x && all[b] == y;
    }
    if x in s && y == z {
      var a :| 0 <= a < |s| && s[a] == x;
      assert all[a] == x && all[|s|] == y;
    }
    if Precedes(all, x, y) {
      var a, b :| 0 <= a < b < |all| && all[a] == x && all[b] == y;
      assert s[a] == x && (b < |s| ==> s[b] == y);
    }
  }

  lemma {:induction false} FilterPrecedes<T>(s: seq<T>, p: T -> bool, x: T, y: T)
    requires Precedes(Filter(s, p), x, y)
    ensures Precedes(s, x, y)
  {
    if s == [] {
    } else {
      var init, last := s[..|s| - 1], s[|s| - 1];
      assert s == init + [last];
      PrecedesSnoc(init, last, x, y);
      if p(last) { PrecedesSnoc(Filter(init, p), last, x, y); }
      FilterMember(init, p, x);
      if Precedes(Filter(init, p), x, y) { FilterPrecedes(init, p, x, y); }
    }
  }

  lemma {:induction false} InsertHead<T>(s: seq<T>, x: T, key: T -> int)
    requires Descending(s, key)
    ensures Insert(s, x, key)[0] == if s != [] && key(s[0]) >= key(x) then s[0] else x
  {
    if s != [] && key(s[|s| - 1]) < key(x) {
      InsertHead(s[..|s| - 1], x, key);
    }
  }

  /** The head of a stable descending sort: nothing has a greater key, and of those with its own it comes first. */
  lemma {:induction false} SortDescHead<T>(s: seq<T>, key: T -> int, x: T)
    requires x in s
    ensures SortDesc(s, key) != []
    ensures var head := SortDesc(s, key)[0];
            head in s && key(x) <= key(head) && (key(x) == key(head) && x != head ==> Precedes(s, head, x))
  {
    var init, last := s[..|s| - 1], s[|s| - 1];
    assert s == init + [last];
    var sorted := SortDesc(init, key);
    SortDescDescending(init, key);
    InsertHead(sorted, last, key);
    SortDescLength(s, key);
    SortDescLength(init, key);
    if init != [] {
      SortDescMember(init, key, sorted[0]);
      if x in init {
        SortDescHead(init, key, x);
      }
      PrecedesSnoc(init, last, sorted[0], x);
    }
  }
}
