/**
 That books with a snag do come to an aborted match, by a run that is given; and so, with `LedgerboxNaming`, that of
 fresh books some run comes to one if and only if they have a snag.
 */
module LedgerboxSnag {
  import opened LedgerboxBooks
  import opened LedgerboxInvariants
  import opened LedgerboxNaming
  import opened LedgerboxSeed
  import opened LedgerboxTypes
  import opened LedgerboxUndo
  import opened Options
  import opened Tables
  import opened Texts

  // ----- one act at a time -----

  ghost predicate IsUnmatch(s: Books, i: string, l: string, t: Books) {
    Keyed(s) && t == Unmatch(s, i, l).books
  }

  ghost predicate IsUndo(s: Books, n: nat, t: Books) {
    Keyed(s) && t == UndoActivity(s, n).books
  }

  /** A run one act longer. */
  lemma OneMoreAct(s: Books, acts: seq<(Act, nat)>, act: Act, now: nat, t: Books) returns (more: seq<(Act, nat)>)
    requires Sound(s) && t == Perform(After(s, acts), act, now).books
    ensures After(s, more) == t
  {
    more := acts + [(act, now)];
    assert more[..|acts|] == acts;
  }

  lemma UnmatchIsAnAct(s: Books, i: string, l: string, now: nat, t: Books)
    requires IsUnmatch(s, i, l, t)
    ensures t == Perform(s, Unapply(i, l), now).books
  {
  }

  lemma UndoIsAnAct(s: Books, n: nat, now: nat, t: Books)
    requires IsUndo(s, n, t)
    ensures t == Perform(s, TakeBack(n), now).books
  {
  }

  // ----- every other match is taken off -----

  /** No row bears a line's name, and of the fact of `o` there are more matches than timely rows. */
  ghost predicate Uncovered(s: Books, i: string, o: string) {
    && Sound(s) && (forall p :: p in s.payments ==> !Named(p)) && (i, o) in s.matches && o in s.lines
    && !Covered(s, i, s.lines[o].postedAt, s.lines[o].amount)
  }

  ghost predicate SameRows(s: Books, t: Books, i: string) {
    t.lines == s.lines && t.invoices == s.invoices && t.clients == s.clients && FreePaid(t, i) == FreePaid(s, i)
  }

  lemma TimelyRow(payments: map<string, Payment>, i: string, day: Instant, cents: int) returns (e: string)
    requires Total(payments, TimelyFact(i, day, cents)) != 0
    ensures e in FactPayments(payments, i, day, cents) && !Late(e)
  {
    e := TotalWitness(payments, TimelyFact(i, day, cents));
  }

  /** A late row is first only when no row is timely. */
  lemma LateIsFirstOfLate(s: Books, i: string, day: Instant, cents: int, x: string)
    requires (forall p :: p in s.payments ==> !Named(p)) && IsFirst(FactPayments(s.payments, i, day, cents), x)
             && Late(x)
    ensures Total(s.payments, TimelyFact(i, day, cents)) == 0
  {
    if Total(s.payments, TimelyFact(i, day, cents)) != 0 {
      var e := TimelyRow(s.payments, i, day, cents);
      AtMostTransitive(x, e, MATCH_PREFIX);
    }
  }

  lemma StillUncovered(s: Books, i: string, o: string, j: string, l: string, x: string)
    requires Uncovered(s, i, o) && (j, l) in s.matches && (j, l) != (i, o) && l in s.lines
    requires IsFirst(FactPayments(s.payments, j, s.lines[l].postedAt, s.lines[l].amount), x)
    ensures !Covered(Lift(s, j, l, x), i, s.lines[o].postedAt, s.lines[o].amount)
  {
    var t, day, cents := Lift(s, j, l, x), s.lines[o].postedAt, s.lines[o].amount;
    TotalRemove(s.matches, (j, l), MatchesFact(s.lines, i, day, cents));
    TotalRemove(s.payments, x, TimelyFact(i, day, cents));
    if j == i && Alike(s.lines[l], s.lines[o]) && Late(x) {
      LateIsFirstOfLate(s, i, day, cents, x);
      TotalBounds(t.matches, (i, o), MatchesFact(s.lines, i, day, cents));
    }
  }

  /** With no row of any line's name an unmatch lifts the first row of the fact. */
  lemma FirstRowLifted(s: Books, j: string, l: string) returns (t: Books, x: string)
    requires Sound(s) && (forall p :: p in s.payments ==> !Named(p)) && (j, l) in s.matches
    ensures IsUnmatch(s, j, l, t) && Sound(t) && x in s.payments
    ensures IsFirst(FactPayments(s.payments, j, s.lines[l].postedAt, s.lines[l].amount), x)
    ensures t.matches == s.matches - {(j, l)} && t.payments == s.payments - {x}
    ensures t.lines == s.lines && t.invoices == s.invoices && t.clients == s.clients
  {
    var undo;
    x, undo := Unmatched(s, j, l);
    UnmatchKeepsSound(s, j, l);
    OwnNameIsNamed(l);
    t := Unmatch(s, j, l).books;
  }

  lemma CoveredFrame(s: Books, t: Books, i: string, day: Instant, cents: int)
    requires t.matches == s.matches && t.payments == s.payments && t.lines == s.lines
    ensures Covered(s, i, day, cents) <==> Covered(t, i, day, cents)
    ensures FreePaid(s, i) == FreePaid(t, i)
  {
  }

  lemma FewerMatches(matches: map<(string, string), MatchRow>, key: (string, string))
    requires key in matches
    ensures |matches - {key}| < |matches|
  {
    assert (matches - {key}).Keys == matches.Keys - {key};
  }

  lemma OneOff(s: Books, i: string, o: string, j: string, l: string) returns (t: Books)
    requires Uncovered(s, i, o) && (j, l) in s.matches && (j, l) != (i, o)
    ensures IsUnmatch(s, j, l, t) && Uncovered(t, i, o) && SameRows(s, t, i) && |t.matches| < |s.matches|
  {
    var x;
    t, x := FirstRowLifted(s, j, l);
    StillUncovered(s, i, o, j, l, x);
    LiftKeepsFree(s, j, l, x, i);
    CoveredFrame(Lift(s, j, l, x), t, i, s.lines[o].postedAt, s.lines[o].amount);
    FewerMatches(s.matches, (j, l));
  }

  lemma OneMoreOff(s: Books, acts: seq<(Act, nat)>, i: string, o: string, now: nat) returns (more: seq<(Act, nat)>)
    requires Sound(s) && Uncovered(After(s, acts), i, o) && After(s, acts).matches.Keys != {(i, o)}
    ensures Uncovered(After(s, more), i, o) && SameRows(After(s, acts), After(s, more), i)
    ensures |After(s, more).matches| < |After(s, acts).matches|
  {
    var key :| key in After(s, acts).matches && key != (i, o);
    var t := OneOff(After(s, acts), i, o, key.0, key.1);
    UnmatchIsAnAct(After(s, acts), key.0, key.1, now, t);
    more := OneMoreAct(s, acts, Unapply(key.0, key.1), now, t);
  }

  /** Unmatch after unmatch, until only the one is left. */
  lemma {:induction false} OthersOff(s: Books, acts: seq<(Act, nat)>, i: string, o: string, now: nat)
    returns (more: seq<(Act, nat)>)
    requires Sound(s) && Uncovered(After(s, acts), i, o)
    ensures Uncovered(After(s, more), i, o) && SameRows(After(s, acts), After(s, more), i)
    ensures After(s, more).matches.Keys == {(i, o)}
    decreases |After(s, acts).matches|
  {
    if After(s, acts).matches.Keys == {(i, o)} {
      more := acts;
    } else {
      var next := OneMoreOff(s, acts, i, o, now);
      more := OthersOff(s, next, i, o, now);
    }
  }

  // ----- two lines of one fact, one named row -----

  /**
   Two lines of one fact on one invoice; `l` has a row of its name, which sorts first, and `m` has not, but there is
   a second row.
   */
  ghost predicate SharedFacts(s: Books, i: string, l: string, m: string) {
    && Sound(s) && Matchable(s, i, l) && l != m && (i, l) in s.matches && (i, m) in s.matches
    && Alike(s.lines[l], s.lines[m]) && PaymentIdFor(m) !in s.payments
    && IsFirst(FactPayments(s.payments, i, s.lines[l].postedAt, s.lines[l].amount), PaymentIdFor(l))
    && FactPayments(s.payments, i, s.lines[l].postedAt, s.lines[l].amount) != {PaymentIdFor(l)}
  }

  lemma PaidIsFreeAndApplied(s: Books, i: string, o: string)
    requires Keyed(s) && s.matches.Keys == {(i, o)}
    ensures PaidCents(s.payments, i) == FreePaid(s, i) + s.lines[o].amount
  {
    TotalRemove(s.matches, (i, o), AppliedTo(s.lines, i));
    assert s.matches - {(i, o)} == map[];
  }

  /** With only one match left, all the rows of its fact are late. */
  lemma AllLate(s: Books, i: string, o: string)
    requires Uncovered(s, i, o) && s.matches.Keys == {(i, o)}
    ensures forall p :: p in FactPayments(s.payments, i, s.lines[o].postedAt, s.lines[o].amount) ==> Late(p)
  {
    var day, cents := s.lines[o].postedAt, s.lines[o].amount;
    TotalRemove(s.matches, (i, o), MatchesFact(s.lines, i, day, cents));
    assert s.matches - {(i, o)} == map[];
    forall p | p in FactPayments(s.payments, i, day, cents) ensures Late(p) {
      TotalBounds(s.payments, p, TimelyFact(i, day, cents));
    }
  }

  lemma PrefixOfTails(prefix: string, x: string)
    requires prefix != [] && x != [] && prefix[0] == x[0]
    ensures prefix <= x <==> prefix[1..] <= x[1..]
  {
    assert prefix == [prefix[0]] + prefix[1..] && x == [x[0]] + x[1..];
  }

  lemma {:induction false} LateSortsBehind(prefix: string, x: string, l: string)
    requires !(prefix <= x) && !AtMost(x, prefix)
    ensures AtMost(prefix + l, x)
  {
    if prefix != [] && x != [] && prefix[0] == x[0] {
      assert (prefix + l)[1..] == prefix[1..] + l;
      PrefixOfTails(prefix, x);
      LateSortsBehind(prefix[1..], x[1..], l);
    }
  }

  lemma OnlyOneLeft(s: Books, i: string, o: string, m: string)
    requires Keyed(s) && s.matches.Keys == {(i, o)} && Matchable(s, i, m) && o != m && Alike(s.lines[o], s.lines[m])
    requires FreePaid(s, i) + 2 * s.lines[o].amount <= s.invoices[i].amount
    requires forall p :: p in s.payments ==> !Named(p)
    ensures !Applied(s, m) && s.lines[m].amount <= RowOf(s, i).balance && PaymentIdFor(m) !in s.payments
    ensures !CountedOut(RowOf(s, i).state)
  {
    PaidIsFreeAndApplied(s, i, o);
    OwnNameIsNamed(m);
    forall j ensures (j, m) !in s.matches {
      assert (j, m) in s.matches <==> (j, m) in s.matches.Keys;
    }
  }

  /** Then the like line can be matched, under a name that sorts before them. */
  lemma LikeMatched(s: Books, i: string, o: string, m: string, actor: Actor, evidence: string, now: nat)
    returns (t: Books)
    requires Uncovered(s, i, o) && s.matches.Keys == {(i, o)} && Matchable(s, i, m) && o != m
    requires Alike(s.lines[o], s.lines[m]) && FreePaid(s, i) + 2 * s.lines[o].amount <= s.invoices[i].amount
    ensures t == MatchLine(s, i, m, actor, evidence, now).books && SharedFacts(t, i, m, o)
  {
    OnlyOneLeft(s, i, o, m);
    MatchKeepsSound(s, i, m, actor, evidence, now);
    var row, p := Matched(s, i, m, actor, evidence, now);
    t := MatchLine(s, i, m, actor, evidence, now).books;
    MatchHasItsPayment(s, i, o);
    OwnNameIsNamed(o);
    if PaymentIdFor(o) == PaymentIdFor(m) { NamesApart(o, m); }
    LikeRows(s, i, o, m, p);
  }

  lemma LikeRows(s: Books, i: string, o: string, m: string, p: Payment)
    requires Uncovered(s, i, o) && s.matches.Keys == {(i, o)} && PaymentIdFor(m) !in s.payments
    requires IsFactPayment(p, i, s.lines[o].postedAt, s.lines[o].amount)
    ensures var rows := FactPayments(s.payments[PaymentIdFor(m) := p], i, s.lines[o].postedAt, s.lines[o].amount);
            IsFirst(rows, PaymentIdFor(m)) && rows != {PaymentIdFor(m)}
  {
    var day, cents := s.lines[o].postedAt, s.lines[o].amount;
    var rows := FactPayments(s.payments[PaymentIdFor(m) := p], i, day, cents);
    AllLate(s, i, o);
    AtMostReflexive(PaymentIdFor(m));
    forall q | q in rows ensures AtMost(PaymentIdFor(m), q) {
      if q != PaymentIdFor(m) {
        assert q in FactPayments(s.payments, i, day, cents);
        LateSortsBehind(MATCH_PREFIX, q, m);
      }
    }
    var x, undo := Unmatched(s, i, o);
    assert x in rows && x != PaymentIdFor(m);
  }

  // ----- both off, and one back -----

  /** `t` is `s` with the match of `l` and one payment row gone, and the unmatch logged. */
  ghost predicate LiftedOff(s: Books, t: Books, i: string, l: string, payment: string, undo: Undo) {
    && t.payments == s.payments - {payment} && t.matches == s.matches - {(i, l)}
    && t.invoices == s.invoices && t.clients == s.clients && t.lines == s.lines
    && t.log == s.log + [Entry("unmatch", Some(undo), false)]
  }

  /** The unnamed match is lifted with the other's row. */
  lemma FirstPickTakesTheOther(s: Books, i: string, l: string, m: string) returns (t: Books, undo: Undo)
    requires SharedFacts(s, i, l, m)
    ensures IsUnmatch(s, i, m, t) && LiftedOff(s, t, i, m, PaymentIdFor(l), undo) && PaymentIdFor(l) in s.payments
    ensures undo == UndoUnmatch(i, m, s.matches[(i, m)], PaymentIdFor(l), s.payments[PaymentIdFor(l)])
    ensures IsFactPayment(s.payments[PaymentIdFor(l)], i, s.lines[l].postedAt, s.lines[l].amount)
  {
    var rows := FactPayments(s.payments, i, s.lines[l].postedAt, s.lines[l].amount);
    FirstIsUnique(rows, PaymentIdFor(l));
    assert PaymentIdFor(l) in rows;
    t := Unmatch(s, i, m).books;
    undo := UndoUnmatch(i, m, s.matches[(i, m)], PaymentIdFor(l), s.payments[PaymentIdFor(l)]);
  }

  /** The tables once both lines are off: what they were paid with is owed again. */
  ghost predicate BothOff(s: Books, t: Books, i: string, l: string, m: string, x: string) {
    && l in s.lines && x in s.payments
    && IsFactPayment(s.payments[x], i, s.lines[l].postedAt, s.lines[l].amount)
    && x != PaymentIdFor(l) && t.payments == s.payments - {PaymentIdFor(l)} - {x}
    && t.matches == s.matches - {(i, m)} - {(i, l)}
    && t.invoices == s.invoices && t.clients == s.clients && t.lines == s.lines
  }

  /** Both lines taken off: the second with the first's row, the first with another. */
  lemma BothLifted(s: Books, i: string, l: string, m: string) returns (s1: Books, s2: Books, undo: Undo, x: string)
    requires SharedFacts(s, i, l, m)
    ensures IsUnmatch(s, i, m, s1) && IsUnmatch(s1, i, l, s2) && Sound(s2) && BothOff(s, s2, i, l, m, x)
    ensures |s2.log| > |s.log| && s2.log[|s.log|] == Entry("unmatch", Some(undo), false)
            && PaymentIdFor(l) in s.payments
    ensures undo == UndoUnmatch(i, m, s.matches[(i, m)], PaymentIdFor(l), s.payments[PaymentIdFor(l)])
    ensures IsFactPayment(s.payments[PaymentIdFor(l)], i, s.lines[l].postedAt, s.lines[l].amount)
  {
    s1, undo := FirstPickTakesTheOther(s, i, l, m);
    UnmatchKeepsSound(s, i, m);
    var undo2;
    x, undo2 := Unmatched(s1, i, l);
    UnmatchKeepsSound(s1, i, l);
    s2 := Unmatch(s1, i, l).books;
    assert s2.log[|s.log|] == s1.log[|s.log|];
  }

  lemma BalanceBack(s: Books, i: string, l: string, m: string, x: string, t: Books)
    requires SharedFacts(s, i, l, m) && Keyed(t) && BothOff(s, t, i, l, m, x)
    ensures RowOf(t, i).balance == RowOf(s, i).balance + 2 * s.lines[l].amount && RowOf(s, i).balance >= 0
  {
    assert PaymentIdFor(l) in FactPayments(s.payments, i, s.lines[l].postedAt, s.lines[l].amount);
    TotalRemove(s.payments, PaymentIdFor(l), PaidOn(i));
    TotalRemove(s.payments - {PaymentIdFor(l)}, x, PaidOn(i));
  }

  lemma NotAppliedAfter(s: Books, i: string, gone: string, t: Books)
    requires OneInvoicePerLine(s) && (i, gone) in s.matches
    requires forall j :: (j, gone) in t.matches ==> (j, gone) in s.matches && j != i
    ensures !Applied(t, gone)
  {
  }

  /** Undoing row `n + 1` puts a line back under a payment row named after `l`, which is in the pool and fits. */
  ghost predicate ReturnsNamed(t: Books, n: nat, undo: Undo, l: string) {
    && Keyed(t) && n < |t.log| && t.log[n] == Entry("unmatch", Some(undo), false)
    && undo.UndoUnmatch? && undo.line in t.lines && undo.line != l && !Applied(t, undo.line)
    && undo.payment == PaymentIdFor(l) && PaymentIdFor(l) !in t.payments
    && Matchable(t, undo.invoice, l) && !Applied(t, l) && undo.lifted.invoice == undo.invoice
    && undo.lifted.amount == t.lines[l].amount >= 0
    && 2 * t.lines[l].amount <= RowOf(t, undo.invoice).balance
  }

  /**
   Two unmatches lead from a sound state to one where the second line's undo is still to be taken, both lines
   are in the pool, and the row that undo restores bears the first line's name.
   */
  lemma DetourReady(s: Books, i: string, l: string, m: string) returns (s1: Books, s2: Books, undo: Undo)
    requires SharedFacts(s, i, l, m)
    ensures IsUnmatch(s, i, m, s1) && IsUnmatch(s1, i, l, s2) && Sound(s2)
    ensures ReturnsNamed(s2, |s.log|, undo, l) && undo.invoice == i && undo.line == m
  {
    var x;
    s1, s2, undo, x := BothLifted(s, i, l, m);
    BalanceBack(s, i, l, m, x, s2);
    NotAppliedAfter(s, i, m, s2);
    NotAppliedAfter(s, i, l, s2);
  }

  lemma PutBackOnly(s: Books, n: nat, undo: Undo) returns (t: Books)
    requires Sound(s) && n < |s.log| && s.log[n] == Entry("unmatch", Some(undo), false)
    requires undo.UndoUnmatch? && !Applied(s, undo.line) && undo.payment !in s.payments
    requires undo.invoice in s.invoices && undo.line in s.lines
    requires undo.lifted.amount <= RowOf(s, undo.invoice).balance
    ensures Sound(t) && t == UndoActivity(s, n + 1).books
    ensures t.payments == s.payments[undo.payment := undo.lifted]
    ensures t.matches == s.matches[(undo.invoice, undo.line) := undo.row]
    ensures t.invoices == s.invoices && t.clients == s.clients && t.lines == s.lines
  {
    UndoKeepsSound(s, n + 1);
    t := UndoActivity(s, n + 1).books;
  }

  lemma StillFits(s: Books, t: Books, i: string, payment: string, p: Payment)
    requires Keyed(s) && Keyed(t) && i in s.invoices && s.invoices[i].status != Void
    requires t.invoices == s.invoices && t.clients == s.clients
    requires payment !in s.payments && t.payments == s.payments[payment := p] && p.invoice == i
    ensures RowOf(t, i).balance == RowOf(s, i).balance - p.amount
  {
    TotalInsert(s.payments, payment, p, PaidOn(i));
  }

  lemma MatchMeetsItsName(t: Books, i: string, l: string, actor: Actor, evidence: string, now: nat)
    requires Keyed(t) && Matchable(t, i, l) && !Applied(t, l) && t.lines[l].amount <= RowOf(t, i).balance
    requires PaymentIdFor(l) in t.payments
    ensures MatchLine(t, i, l, actor, evidence, now) == Step(t, Aborted)
  {
  }

  /** `l` is in the pool, incoming and owed on `i`, and yet its match is aborted. */
  ghost predicate Defeated(t: Books, i: string, l: string, actor: Actor, evidence: string, now: nat) {
    && Sound(t) && Matchable(t, i, l) && !Applied(t, l) && t.lines[l].amount <= RowOf(t, i).balance
    && MatchLine(t, i, l, actor, evidence, now) == Step(t, Aborted)
  }

  /**
   Once that undo is taken, the first line - in the pool, fitting, owed - cannot be applied, because the row the
   undo restored bears its name.
   */
  lemma NamedRowBlocksItsLine(s: Books, n: nat, undo: Undo, l: string, actor: Actor, evidence: string, now: nat)
    returns (t: Books)
    requires Sound(s) && ReturnsNamed(s, n, undo, l)
    ensures IsUndo(s, n + 1, t) && Defeated(t, undo.invoice, l, actor, evidence, now)
  {
    t := PutBackOnly(s, n, undo);
    StillFits(s, t, undo.invoice, undo.payment, undo.lifted);
    assert !Applied(t, l);
    MatchMeetsItsName(t, undo.invoice, l, actor, evidence, now);
  }

  // ----- the run -----

  /** Off come both lines, and back goes the first of them. */
  lemma SharedIsDefeated(s: Books, i: string, l: string, m: string, actor: Actor, evidence: string, now: nat)
    returns (s2: Books, s3: Books, t: Books)
    requires SharedFacts(s, i, l, m)
    ensures IsUnmatch(s, i, m, s2) && IsUnmatch(s2, i, l, s3) && IsUndo(s3, |s.log| + 1, t)
    ensures Defeated(t, i, l, actor, evidence, now)
  {
    var undo;
    s2, s3, undo := DetourReady(s, i, l, m);
    t := NamedRowBlocksItsLine(s3, |s.log|, undo, l, actor, evidence, now);
  }

  lemma ThreeMore(s: Books, acts: seq<(Act, nat)>, i: string, l: string, m: string, s2: Books, s3: Books, n: nat,
                  t: Books, now: nat) returns (more: seq<(Act, nat)>)
    requires Sound(s) && IsUnmatch(After(s, acts), i, m, s2) && IsUnmatch(s2, i, l, s3) && IsUndo(s3, n, t)
    ensures After(s, more) == t
  {
    UnmatchIsAnAct(After(s, acts), i, m, now, s2);
    more := OneMoreAct(s, acts, Unapply(i, m), now, s2);
    UnmatchIsAnAct(s2, i, l, now, s3);
    more := OneMoreAct(s, more, Unapply(i, l), now, s3);
    UndoIsAnAct(s3, n, now, t);
    more := OneMoreAct(s, more, TakeBack(n), now, t);
  }

  lemma SharedRun(s: Books, acts: seq<(Act, nat)>, i: string, l: string, m: string, actor: Actor, evidence: string,
                  now: nat) returns (more: seq<(Act, nat)>)
    requires Sound(s) && SharedFacts(After(s, acts), i, l, m)
    ensures Defeated(After(s, more), i, l, actor, evidence, now)
  {
    var n := |After(s, acts).log| + 1;
    var s2, s3, t := SharedIsDefeated(After(s, acts), i, l, m, actor, evidence, now);
    more := ThreeMore(s, acts, i, l, m, s2, s3, n, t, now);
  }

  lemma LikeRun(s: Books, acts: seq<(Act, nat)>, i: string, o: string, m: string, actor: Actor, evidence: string,
                now: nat) returns (more: seq<(Act, nat)>)
    requires Sound(s) && Uncovered(After(s, acts), i, o) && After(s, acts).matches.Keys == {(i, o)}
    requires Matchable(After(s, acts), i, m) && o != m && Alike(After(s, acts).lines[o], After(s, acts).lines[m])
    requires FreePaid(After(s, acts), i) + 2 * After(s, acts).lines[o].amount <= After(s, acts).invoices[i].amount
    ensures SharedFacts(After(s, more), i, m, o)
  {
    var t := LikeMatched(After(s, acts), i, o, m, actor, evidence, now);
    more := OneMoreAct(s, acts, Match(i, m, actor, evidence), now, t);
  }

  /**
   A snag is enough: take every other match off, match the like line, take both lines off, and take the first of those
   two back; then the like line is in the pool, incoming and owed, and its match is aborted.
   */
  lemma SnagDefeatsAMatch(s: Books, i: string, o: string, m: string, actor: Actor, evidence: string, now: nat)
    returns (acts: seq<(Act, nat)>)
    requires Fresh(s) && Snag(s, i, o, m)
    ensures Defeated(After(s, acts), i, m, actor, evidence, now)
  {
    acts := OthersOff(s, [], i, o, now);
    acts := LikeRun(s, acts, i, o, m, actor, evidence, now);
    acts := SharedRun(s, acts, i, m, o, actor, evidence, now);
  }

  ghost predicate Aborts(s: Books, acts: seq<(Act, nat)>, i: string, l: string, actor: Actor, evidence: string,
                         now: nat)
    requires Sound(s)
  {
    MatchLine(After(s, acts), i, l, actor, evidence, now).answer == Aborted
  }

  /** Of fresh books some run comes to a match that is aborted if and only if they have a snag. */
  lemma AbortsExactlyAtSnags(s: Books)
    requires Fresh(s)
    ensures SnagFree(s) <==>
            forall acts, i, l, actor, evidence, now :: !Aborts(s, acts, i, l, actor, evidence, now)
  {
    if SnagFree(s) {
      forall acts, i, l, actor, evidence, now ensures !Aborts(s, acts, i, l, actor, evidence, now) {
        RunsNeverAbortAMatch(s, acts, i, l, actor, evidence, now);
      }
    } else {
      var i, o, m :| Snag(s, i, o, m);
      var acts := SnagDefeatsAMatch(s, i, o, m, User, "", 0);
      assert Aborts(s, acts, i, m, User, "", 0);
    }
  }

  /** So of whatever the seed draws. */
  lemma SeededAbortsExactlyAtSnags(draws: seq<Draw>)
    requires AllLegal(draws)
    ensures Sound(Seeded(draws))
    ensures SnagFree(Seeded(draws)) <==>
            forall acts, i, l, actor, evidence, now :: !Aborts(Seeded(draws), acts, i, l, actor, evidence, now)
  {
    SeededIsFresh(draws);
    AbortsExactlyAtSnags(Seeded(draws));
  }

  // ----- snags of the seed -----

  ghost predicate HasFacts(lines: map<string, BankLine>, l: string, p: Payment) {
    l in lines && lines[l].postedAt == p.paidAt && lines[l].amount == p.amount
  }

  /** Of two lines with a late row's day and amount, neither is a credit. */
  ghost predicate LateRowsLone(s: Books) {
    forall p, o, m ::
      p in s.payments && Late(p) && o != m && HasFacts(s.lines, o, s.payments[p]) && HasFacts(s.lines, m, s.payments[p])
      ==> s.lines[m].direction != In
  }

  function LateFact(i: string, day: Instant, cents: int): (string, Payment) -> int {
    (id: string, p: Payment) => if IsFactPayment(p, i, day, cents) && Late(id) then 1 else 0
  }

  /** A condition that is plainer, and enough: no credit shares a late row's day and amount with another line. */
  lemma LoneIsSnagFree(s: Books)
    requires Sound(s) && LateRowsLone(s)
    ensures SnagFree(s)
  {
    forall i, o, m ensures !Snag(s, i, o, m) {
      if (i, o) in s.matches && !Covered(s, i, s.lines[o].postedAt, s.lines[o].amount) {
        var day, cents := s.lines[o].postedAt, s.lines[o].amount;
        assert Total(s.matches, MatchesFact(s.lines, i, day, cents)) <= Total(s.payments, PaysFact(i, day, cents));
        TotalAdds(s.payments, TimelyFact(i, day, cents), LateFact(i, day, cents), PaysFact(i, day, cents));
        var p := TotalWitness(s.payments, LateFact(i, day, cents));
        assert HasFacts(s.lines, o, s.payments[p]);
        assert m in s.lines && Alike(s.lines[o], s.lines[m]) ==> HasFacts(s.lines, m, s.payments[p]);
      }
    }
  }

  /** The seed's instalments are its only late rows. */
  lemma SeedNameIsLate(payment: string)
    requires SeedName(payment)
    ensures Late(payment) <==> LateName(payment)
  {
    SeedNameIsUnnamed(payment);
    assert MATCH_PREFIX[4] == 'm';
    if LateName(payment) {
      assert payment[4] == "pay_solstice_"[4] == 's' && payment[..4] == "pay_solstice_"[..4] == MATCH_PREFIX[..4];
      EarlierLetterSortsFirst(MATCH_PREFIX, payment, 4);
      if AtMost(payment, MATCH_PREFIX) { AtMostAntisymmetric(payment, MATCH_PREFIX); }
    } else {
      assert payment[..4] == MATCH_PREFIX[..4];
      EarlierLetterSortsFirst(payment, MATCH_PREFIX, 4);
    }
  }

  /** An instalment of `bill`, matched to line `first`, and a second line with its day and amount. */
  datatype Twins = Twins(who: string, client: Client, bill: Invoice, payment: string, first: BankLine, twin: BankLine,
                         row: MatchRow)

  ghost predicate Fits(w: Twins) {
    && w.bill.client == w.who && w.bill.status == Sent && LateName(w.payment)
    && w.first.id != w.twin.id && w.twin.direction == In
    && 0 <= w.first.amount == w.twin.amount && w.first.postedAt == w.twin.postedAt
    && 2 * w.first.amount <= w.bill.amount
  }

  function PayDraw(w: Twins): Draw {
    DrawPayment(w.payment, w.bill.id, "transfer", "", w.first, 0, Some(w.row))
  }

  function TwinDraws(w: Twins): seq<Draw> {
    [] + [DrawClient(w.who, w.client)] + [DrawInvoice(w.bill, 0)] + [PayDraw(w)] + [DrawLine(w.twin, 0)]
  }

  lemma OneMoreDraw(draws: seq<Draw>, d: Draw)
    requires AllLegal(draws) && Legal(Drawn(draws), d)
    ensures AllLegal(draws + [d]) && Drawn(draws + [d]) == Draws(Drawn(draws), d)
  {
    assert (draws + [d])[..|draws + [d]| - 1] == draws;
  }

  ghost predicate TwinTables(s: Books, w: Twins) {
    && s.invoices == map[w.bill.id := w.bill] && s.lines == map[w.first.id := w.first, w.twin.id := w.twin]
    && s.matches == map[][(w.bill.id, w.first.id) := w.row] && s.payments == map[][w.payment := PaymentOf(PayDraw(w))]
  }

  lemma TwinsAreDrawn(w: Twins)
    requires Fits(w)
    ensures AllLegal(TwinDraws(w)) && TwinTables(Drawn(TwinDraws(w)), w)
  {
    assert AllLegal([]);
    var one := [] + [DrawClient(w.who, w.client)];
    OneMoreDraw([], DrawClient(w.who, w.client));
    var two := one + [DrawInvoice(w.bill, 0)];
    OneMoreDraw(one, DrawInvoice(w.bill, 0));
    TotalZeroOn(Drawn(two).payments, w.bill.id);
    OneMoreDraw(two, PayDraw(w));
    OneMoreDraw(two + [PayDraw(w)], DrawLine(w.twin, 0));
  }

  lemma TwinsSnag(s: Books, w: Twins)
    requires Fits(w) && TwinTables(s, w)
    ensures Snag(s, w.bill.id, w.first.id, w.twin.id)
  {
    var i, day, cents, p := w.bill.id, w.first.postedAt, w.first.amount, PaymentOf(PayDraw(w));
    SeedNameIsLate(w.payment);
    TotalInsert(map[], (i, w.first.id), w.row, MatchesFact(s.lines, i, day, cents));
    TotalInsert(map[], (i, w.first.id), w.row, AppliedTo(s.lines, i));
    TotalInsert(map[], w.payment, p, TimelyFact(i, day, cents));
    TotalInsert(map[], w.payment, p, PaidOn(i));
  }

  /** A snag can be drawn: one instalment, and one more credit of its day and amount that the bill has room for. */
  lemma SnagCanBeDrawn() returns (draws: seq<Draw>, i: string, o: string, m: string)
    ensures AllLegal(draws) && Snag(Seeded(draws), i, o, m)
  {
    var client := Client("Solstice Partners", "Ana", "ana@solstice.test", None);
    var bill := Invoice("inv_0920", "LB-2026-0920", "cl_08", "2026-06-23", 0, 1250000, "retainer", Sent);
    var first := BankLine("bl_1", 0, "PAYMENT 2 OF 3", 375000, In, "statement.csv");
    var w := Twins("cl_08", client, bill, "pay_solstice_2", first, first.(id := "bl_2"), MatchRow(0, System, ""));
    assert "bl_1"[3] != "bl_2"[3];
    TwinsAreDrawn(w);
    TwinsSnag(Seeded(TwinDraws(w)), w);
    draws, i, o, m := TwinDraws(w), bill.id, first.id, w.twin.id;
  }
}
