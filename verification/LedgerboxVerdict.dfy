/**
 When a chase must be blocked, and by which credit: told by the lines of the statement, the matches, and the scores
 alone, with no word of the table they are read from.
 */
module LedgerboxVerdict {
  import opened LedgerboxBooks
  import opened LedgerboxChase
  import opened LedgerboxMatch
  import opened LedgerboxReconcile
  import opened LedgerboxSettle
  import opened LedgerboxTypes
  import opened Lists
  import opened Options

  // ----- one credit against the open invoices -----

  /** The score of a line against an invoice, and nothing when it does not fit. */
  function ScoreOf(inv: OpenInvoice, line: BankLine): int {
    var hit := ScoreCandidate(inv.input, line);
    if hit.Some? then hit.value.score else 0
  }

  lemma ScoresOfHits(inv: OpenInvoice, line: BankLine, hit: Candidate)
    requires ScoreCandidate(inv.input, line) == Some(hit)
    ensures ScoreOf(inv, line) == hit.score >= 40 && (hit.confidence == Strong <==> hit.score >= 85)
  {
  }

  /** The invoice `id` scores at least 85, and at least 12 more than any other. */
  ghost predicate Dominates(open: seq<OpenInvoice>, line: BankLine, id: string) {
    exists inv :: inv in open && inv.id == id && ScoreOf(inv, line) >= 85
                  && forall other :: other in open && other.id != id ==>
                       ScoreOf(inv, line) - ScoreOf(other, line) >= 12
  }

  lemma {:induction false} FitIsThere(open: seq<OpenInvoice>, line: BankLine, inv: OpenInvoice, hit: Candidate)
    requires inv in open && ScoreCandidate(inv.input, line) == Some(hit)
    ensures Fit(inv.id, inv.input.number, inv.input.clientName, hit) in Fits(open, line)
  {
    if inv != open[|open| - 1] {
      FitIsThere(open[..|open| - 1], line, inv, hit);
    }
  }

  function Sorted(open: seq<OpenInvoice>, line: BankLine): seq<Fit> {
    SortDesc(Fits(open, line), FitScore)
  }

  /** Each sorted fit is an invoice's, with that invoice's score. */
  lemma SortedFit(open: seq<OpenInvoice>, line: BankLine, k: nat) returns (inv: OpenInvoice)
    requires k < |Sorted(open, line)|
    ensures var f := Sorted(open, line)[k];
            && inv in open && inv.id == f.invoice && ScoreCandidate(inv.input, line) == Some(f.hit)
            && ScoreOf(inv, line) == f.hit.score
  {
    var f := Sorted(open, line)[k];
    SortDescMember(Fits(open, line), FitScore, f);
    inv := FitComesFrom(open, line, f);
  }

  lemma FitIsSorted(open: seq<OpenInvoice>, line: BankLine, inv: OpenInvoice) returns (k: nat)
    requires inv in open && ScoreOf(inv, line) > 0
    ensures k < |Sorted(open, line)| && Sorted(open, line)[k].invoice == inv.id
    ensures Sorted(open, line)[k].hit.score == ScoreOf(inv, line)
    ensures ScoreCandidate(inv.input, line) == Some(Sorted(open, line)[k].hit)
  {
    var hit := ScoreCandidate(inv.input, line).value;
    var f := Fit(inv.id, inv.input.number, inv.input.clientName, hit);
    FitIsThere(open, line, inv, hit);
    SortDescMember(Fits(open, line), FitScore, f);
    k :| 0 <= k < |Sorted(open, line)| && Sorted(open, line)[k] == f;
  }

  /** The settling test reads the first two sorted fits. */
  lemma SettlesReadsTwo(open: seq<OpenInvoice>, line: BankLine, id: string)
    ensures var sorted := Sorted(open, line);
            Settles(id)(ReadingOf(open, line)) <==>
            && sorted != [] && sorted[0].invoice == id && sorted[0].hit.confidence == Strong
            && (|sorted| >= 2 ==> sorted[0].hit.score - sorted[1].hit.score >= 12)
  {
    var sorted := Sorted(open, line);
    if sorted != [] { assert Standings(sorted)[0] == OfferAt(sorted, 0); }
  }

  lemma SettlingDominates(open: seq<OpenInvoice>, line: BankLine, id: string)
    requires Settles(id)(ReadingOf(open, line))
    ensures Dominates(open, line, id)
  {
    var sorted := Sorted(open, line);
    SettlesReadsTwo(open, line, id);
    SortDescDescending(Fits(open, line), FitScore);
    var inv := SortedFit(open, line, 0);
    ScoresOfHits(inv, line, sorted[0].hit);
    forall other | other in open && other.id != id ensures ScoreOf(inv, line) - ScoreOf(other, line) >= 12 {
      if ScoreOf(other, line) > 0 {
        var k := FitIsSorted(open, line, other);
        assert FitScore(sorted[1]) >= FitScore(sorted[k]) || k == 1;
      }
    }
  }

  lemma TwoPass<T>(s: seq<T>, p: T -> bool)
    requires |s| >= 2 && p(s[0]) && p(s[1])
    ensures |Filter(s, p)| >= 2
  {
    assert s == s[..2] + s[2..];
    FilterConcat(s[..2], s[2..], p);
    FilterAll(s[..2], p);
  }

  /** With distinct invoices no invoice has two fits. */
  lemma SortedOnce(open: seq<OpenInvoice>, line: BankLine, id: string)
    requires DistinctInvoices(open) && |Sorted(open, line)| >= 2
    ensures !(Sorted(open, line)[0].invoice == id && Sorted(open, line)[1].invoice == id)
  {
    var sorted := Sorted(open, line);
    OneFitEach(open, line, id);
    FilterSortDesc(Fits(open, line), FitScore, ForInvoice(id));
    SortDescLength(Filter(Fits(open, line), ForInvoice(id)), FitScore);
    if sorted[0].invoice == id && sorted[1].invoice == id { TwoPass(sorted, ForInvoice(id)); }
  }

  lemma DominantSettles(open: seq<OpenInvoice>, line: BankLine, id: string)
    requires DistinctInvoices(open) && Dominates(open, line, id)
    ensures Settles(id)(ReadingOf(open, line))
  {
    var inv :| inv in open && inv.id == id && ScoreOf(inv, line) >= 85
               && forall other :: other in open && other.id != id ==> ScoreOf(inv, line) - ScoreOf(other, line) >= 12;
    var sorted := Sorted(open, line);
    SortDescDescending(Fits(open, line), FitScore);
    var k := FitIsSorted(open, line, inv);
    var top := SortedFit(open, line, 0);
    ScoresOfHits(top, line, sorted[0].hit);
    assert FitScore(sorted[0]) >= FitScore(sorted[k]);
    assert top.id == id;
    if |sorted| >= 2 {
      var next := SortedFit(open, line, 1);
      SortedOnce(open, line, id);
    }
    SettlesReadsTwo(open, line, id);
  }

  // ----- the books -----

  /** A line's score against an invoice of the books, when that takes a credit at all. */
  ghost function Score(s: Books, i: string, l: string): int
    requires Keyed(s) && i in s.invoices && l in s.lines
  {
    if TakesCredit(RowOf(s, i)) then ScoreOf(OpenInvoice(i, ScoreInputOf(RowOf(s, i))), s.lines[l]) else 0
  }

  /** An unapplied credit that scores at least 85 against this invoice, and at least 12 more than against any other. */
  ghost predicate SettlesAlone(s: Books, i: string, l: string)
    requires Keyed(s)
  {
    && i in s.invoices && l in s.lines && !LedgerboxBooks.Applied(s, l) && s.lines[l].direction == In
    && Score(s, i, l) >= 85
    && forall j :: j in s.invoices && j != i ==> Score(s, i, l) - Score(s, j, l) >= 12
  }

  ghost function Opens(s: Books): seq<OpenInvoice>
    requires Keyed(s)
  {
    OpenInvoices(s, s.dueOrder)
  }

  ghost function Pool(s: Books): seq<BankLine>
    requires Keyed(s)
  {
    PoolLines(s, s.statement)
  }

  lemma {:induction false} OpenThere(s: Books, order: seq<string>, i: string)
    requires Keyed(s) && (forall j :: j in order ==> j in s.invoices) && i in order && TakesCredit(RowOf(s, i))
    ensures OpenInvoice(i, ScoreInputOf(RowOf(s, i))) in OpenInvoices(s, order)
  {
    if i != order[|order| - 1] { OpenThere(s, order[..|order| - 1], i); }
  }

  lemma {:induction false} OpensDistinct(s: Books, order: seq<string>)
    requires Keyed(s) && Distinct(order) && forall j :: j in order ==> j in s.invoices
    ensures DistinctInvoices(OpenInvoices(s, order))
  {
    if order == [] {
    } else {
      var init, last := order[..|order| - 1], order[|order| - 1];
      OpensDistinct(s, init);
      forall inv | inv in OpenInvoices(s, init) ensures inv.id != last {
        OpenMember(s, init, inv);
        var k :| 0 <= k < |init| && init[k] == inv.id;
        assert order[k] != order[|order| - 1];
      }
    }
  }

  lemma {:induction false} PoolThere(s: Books, statement: seq<string>, l: string)
    requires Keyed(s) && (forall k :: k in statement ==> k in s.lines) && l in statement
    requires !LedgerboxBooks.Applied(s, l)
    ensures s.lines[l] in PoolLines(s, statement)
  {
    if l != statement[|statement| - 1] { PoolThere(s, statement[..|statement| - 1], l); }
  }

  lemma {:induction false} PoolDistinct(s: Books, statement: seq<string>)
    requires Keyed(s) && Distinct(statement) && forall k :: k in statement ==> k in s.lines
    ensures DistinctLines(PoolLines(s, statement))
    ensures forall line :: line in PoolLines(s, statement) ==> line.id in statement
  {
    if statement == [] {
    } else {
      var init, last := statement[..|statement| - 1], statement[|statement| - 1];
      PoolDistinct(s, init);
      forall line | line in PoolLines(s, init) ensures line.id != last && line.id in statement {
        var k :| 0 <= k < |init| && init[k] == line.id;
        assert statement[k] == line.id && statement[k] != statement[|statement| - 1];
      }
    }
  }

  /** An open invoice scores as its row does, and what is not open scores nothing. */
  lemma OpenScores(s: Books, l: string, inv: OpenInvoice)
    requires Keyed(s) && l in s.lines && inv in Opens(s)
    ensures inv.id in s.invoices && ScoreOf(inv, s.lines[l]) == Score(s, inv.id, l)
  {
    OpenMember(s, s.dueOrder, inv);
  }

  lemma DominatesIsSettlesAlone(s: Books, i: string, l: string)
    requires Keyed(s) && l in s.lines && !LedgerboxBooks.Applied(s, l) && s.lines[l].direction == In
    ensures Dominates(Opens(s), s.lines[l], i) <==> SettlesAlone(s, i, l)
  {
    if Dominates(Opens(s), s.lines[l], i) {
      var inv :| inv in Opens(s) && inv.id == i && ScoreOf(inv, s.lines[l]) >= 85
                 && forall other :: other in Opens(s) && other.id != i ==>
                      ScoreOf(inv, s.lines[l]) - ScoreOf(other, s.lines[l]) >= 12;
      OpenScores(s, l, inv);
      forall j | j in s.invoices && j != i ensures Score(s, i, l) - Score(s, j, l) >= 12 {
        if TakesCredit(RowOf(s, j)) { OpenThere(s, s.dueOrder, j); }
      }
    }
    if SettlesAlone(s, i, l) {
      OpenThere(s, s.dueOrder, i);
      forall other | other in Opens(s) && other.id != i
        ensures Score(s, i, l) - ScoreOf(other, s.lines[l]) >= 12
      {
        OpenScores(s, l, other);
      }
    }
  }

  /** A credit of the table settles the invoice exactly when its line does, by the scores. */
  lemma SettlesIsSettlesAlone(s: Books, i: string, r: Reading)
    requires Keyed(s) && r in CreditsOf(s)
    ensures r.line.id in s.lines && s.lines[r.line.id] == r.line && r.line in Pool(s)
    ensures Settles(i)(r) <==> SettlesAlone(s, i, r.line.id)
  {
    CreditComesFrom(Opens(s), Pool(s), r);
    PoolMember(s, s.statement, r.line);
    OpensDistinct(s, s.dueOrder);
    DominatesIsSettlesAlone(s, i, r.line.id);
    if Settles(i)(r) { SettlingDominates(Opens(s), r.line, i); }
    if Dominates(Opens(s), r.line, i) { DominantSettles(Opens(s), r.line, i); }
  }

  lemma {:induction false} CreditThere(open: seq<OpenInvoice>, lines: seq<BankLine>, line: BankLine)
    requires line in lines && line.direction == In
    ensures ReadingOf(open, line) in Credits(open, lines)
  {
    if line != lines[|lines| - 1] { CreditThere(open, lines[..|lines| - 1], line); }
  }

  // ----- which of them -----

  /** The settling credits, best score first. */
  ghost function Settling(s: Books, i: string): seq<Reading>
    requires Keyed(s)
  {
    SortDesc(Filter(CreditsOf(s), Settles(i)), TopScore)
  }

  /** The question finds the first of them. */
  lemma VerdictIsFirstSettling(s: Books, i: string)
    requires Keyed(s)
    ensures StatementVerdict(s, i).Blocked? <==> Settling(s, i) != []
    ensures Settling(s, i) != [] ==>
              Settling(s, i)[0].offers != [] && StatementVerdict(s, i) == Blocked(CreditOf(Settling(s, i)[0]))
  {
    var credits := CreditsOf(s);
    CreditsReadOnce(s, i);
    IndexMatchesQuestion(credits, i);
    FindIsFirstOfFilter(i, SortDesc(Filter(credits, TopIs(i)), TopScore));
    FilterSortDesc(Filter(credits, TopIs(i)), TopScore, Settles(i));
    FilterTwice(credits, TopIs(i), Settles(i), Settles(i));
  }

  lemma CreditsReadOnce(s: Books, i: string)
    requires Keyed(s)
    ensures var credits := CreditsOf(s);
            && (forall j, k :: 0 <= j < k < |credits| ==> credits[j].line.id != credits[k].line.id)
            && (forall r, o :: r in credits && o in r.offers ==> o.fit.hit.line == r.line)
            && OnePair(credits, i)
  {
    OpensDistinct(s, s.dueOrder);
    PoolDistinct(s, s.statement);
    CreditsDistinct(Opens(s), Pool(s));
    forall r, o | r in CreditsOf(s) && o in r.offers ensures o.fit.hit.line == r.line {
      OffersCarryTheirLine(Opens(s), Pool(s), r, o);
    }
    forall r | r in CreditsOf(s) ensures |Filter(r.offers, OfferedTo(i))| <= 1 {
      CreditComesFrom(Opens(s), Pool(s), r);
      OnePairEach(Opens(s), r.line, i);
    }
  }

  lemma {:induction false} CreditsPrecede(open: seq<OpenInvoice>, lines: seq<BankLine>, x: Reading, y: Reading)
    requires Precedes(Credits(open, lines), x, y)
    ensures Precedes(lines, x.line, y.line)
  {
    if lines == [] {
    } else {
      var init, last := lines[..|lines| - 1], lines[|lines| - 1];
      assert lines == init + [last];
      PrecedesSnoc(init, last, x.line, y.line);
      PrecedesSnoc(Credits(open, init), ReadingOf(open, last), x, y);
      if Precedes(Credits(open, init), x, y) {
        CreditsPrecede(open, init, x, y);
      } else if x in Credits(open, init) {
        CreditComesFrom(open, init, x);
      }
    }
  }

  lemma {:induction false} PoolPrecedes(s: Books, statement: seq<string>, x: BankLine, y: BankLine)
    requires Keyed(s) && (forall k :: k in statement ==> k in s.lines) && Precedes(PoolLines(s, statement), x, y)
    ensures Precedes(statement, x.id, y.id)
  {
    if statement == [] {
    } else {
      var init, last := statement[..|statement| - 1], statement[|statement| - 1];
      assert statement == init + [last];
      PrecedesSnoc(init, last, x.id, y.id);
      PrecedesSnoc(PoolLines(s, init), s.lines[last], x, y);
      if Precedes(PoolLines(s, init), x, y) {
        PoolPrecedes(s, init, x, y);
      } else if x in PoolLines(s, init) {
        PoolIds(s, init, x);
      }
    }
  }

  lemma {:induction false} PoolIds(s: Books, statement: seq<string>, line: BankLine)
    requires Keyed(s) && (forall k :: k in statement ==> k in s.lines) && line in PoolLines(s, statement)
    ensures line.id in statement
  {
    if line in PoolLines(s, statement[..|statement| - 1]) {
      PoolIds(s, statement[..|statement| - 1], line);
    }
  }

  lemma TopScoreIsScore(s: Books, i: string, r: Reading)
    requires Keyed(s) && r in CreditsOf(s) && Settles(i)(r)
    ensures r.line.id in s.lines && i in s.invoices && TopScore(r) == Score(s, i, r.line.id)
  {
    SettlesIsSettlesAlone(s, i, r);
    CreditComesFrom(Opens(s), Pool(s), r);
    var inv := OfferComesFrom(Opens(s), r.line, r.offers[0]);
    OpenScores(s, r.line.id, inv);
  }

  lemma SettlingMember(s: Books, i: string, r: Reading)
    requires Keyed(s)
    ensures r in Filter(CreditsOf(s), Settles(i)) <==> r in CreditsOf(s) && Settles(i)(r)
    ensures r in Settling(s, i) <==> r in CreditsOf(s) && Settles(i)(r)
  {
    FilterMember(CreditsOf(s), Settles(i), r);
    SortDescMember(Filter(CreditsOf(s), Settles(i)), TopScore, r);
  }

  lemma SettlingReading(s: Books, i: string, l: string) returns (r: Reading)
    requires Keyed(s) && SettlesAlone(s, i, l)
    ensures r in CreditsOf(s) && Settles(i)(r) && r.line == s.lines[l] && r.line.id == l
  {
    r := ReadingOf(Opens(s), s.lines[l]);
    PoolThere(s, s.statement, l);
    CreditThere(Opens(s), Pool(s), s.lines[l]);
    SettlesIsSettlesAlone(s, i, r);
  }

  /** Among those that settle it, the head comes before any other, by its score or by its place on the statement. */
  lemma HeadComesFirst(s: Books, i: string, head: Reading, r: Reading)
    requires Keyed(s) && Settling(s, i) != [] && head == Settling(s, i)[0]
    requires r in CreditsOf(s) && Settles(i)(r) && r.line.id != head.line.id
    ensures TopScore(r) < TopScore(head)
            || (TopScore(r) == TopScore(head) && Precedes(s.statement, head.line.id, r.line.id))
  {
    SettlingMember(s, i, r);
    SortDescHead(Filter(CreditsOf(s), Settles(i)), TopScore, r);
    if TopScore(r) == TopScore(head) {
      FilterPrecedes(CreditsOf(s), Settles(i), head, r);
      CreditsPrecede(Opens(s), Pool(s), head, r);
      PoolPrecedes(s, s.statement, head.line, r.line);
    }
  }

  /** A chase is blocked if and only if some unapplied credit settles the invoice alone. */
  lemma BlockedExactly(s: Books, i: string)
    requires Keyed(s)
    ensures StatementVerdict(s, i).Blocked? <==> exists l :: SettlesAlone(s, i, l)
  {
    VerdictIsFirstSettling(s, i);
    if Settling(s, i) != [] {
      var head := Settling(s, i)[0];
      SettlingMember(s, i, head);
      SettlesIsSettlesAlone(s, i, head);
    }
    if l :| SettlesAlone(s, i, l) {
      var r := SettlingReading(s, i, l);
      SettlingMember(s, i, r);
      assert r in Settling(s, i);
    }
  }

  /**
   And the credit it names is one of those: the best scoring, and of the best scoring the first on the statement. What
   is said of it is the line's own, and the shortfall is what the line leaves owed.
   */
  lemma BlockedNamesTheBest(s: Books, i: string, credit: SettlingCredit, l: string)
    requires Keyed(s) && StatementVerdict(s, i) == Blocked(credit)
    ensures SettlesAlone(s, i, credit.line)
    ensures var line := s.lines[credit.line];
            && credit.memo == line.memo && credit.amount == line.amount && credit.postedAt == line.postedAt
            && StatesShort(RowOf(s, i).balance, line.amount, credit.shortBy)
    ensures SettlesAlone(s, i, l) && l != credit.line ==>
              Score(s, i, l) < Score(s, i, credit.line)
              || (Score(s, i, l) == Score(s, i, credit.line) && Precedes(s.statement, credit.line, l))
  {
    VerdictIsFirstSettling(s, i);
    var head := Settling(s, i)[0];
    SettlingMember(s, i, head);
    SettlesIsSettlesAlone(s, i, head);
    TopScoreIsScore(s, i, head);
    BlockedCreditFits(s, i, credit);
    if SettlesAlone(s, i, l) && l != credit.line {
      var r := SettlingReading(s, i, l);
      TopScoreIsScore(s, i, r);
      HeadComesFirst(s, i, head, r);
    }
  }

  // ----- when a chase is warned of -----

  /** This invoice's own pair is contested and strong. */
  predicate ContestsStrongly(id: string, r: Reading) {
    var mine := FirstFor(r.offers, id);
    mine.Some? && mine.value.standing == Contested && mine.value.fit.hit.confidence == Strong
  }

  lemma {:induction false} FirstForAt(offers: seq<Offer>, id: string) returns (k: nat)
    ensures FirstFor(offers, id).None? <==> forall o :: o in offers ==> o.fit.invoice != id
    ensures FirstFor(offers, id).Some? ==>
              && k < |offers| && FirstFor(offers, id) == Some(offers[k]) && offers[k].fit.invoice == id
              && forall m :: 0 <= m < k ==> offers[m].fit.invoice != id
  {
    k := 0;
    if offers != [] && offers[0].fit.invoice != id {
      var rest := FirstForAt(offers[1..], id);
      k := rest + 1;
    }
  }

  lemma {:induction false} ContestedIsFound(id: string, credits: seq<Reading>) returns (r: Reading)
    requires FindContested(id, credits).Warned?
    ensures r in credits && ContestsStrongly(id, r)
    ensures FindContested(id, credits) == Warned(r.line.id, Map(Filter(r.offers, IsContested), OfferNumber))
  {
    r := credits[0];
    if !ContestsStrongly(id, r) { r := ContestedIsFound(id, credits[1..]); }
  }

  lemma {:induction false} ContestedIsMissed(id: string, credits: seq<Reading>, r: Reading)
    requires !FindContested(id, credits).Warned? && r in credits
    ensures !ContestsStrongly(id, r)
  {
    if r != credits[0] { ContestedIsMissed(id, credits[1..], r); }
  }

  lemma {:induction false} PairThere(credits: seq<Reading>, id: string, r: Reading, o: Offer)
    requires r in credits && o in r.offers && OfferedTo(id)(o)
    ensures Pair(r, o) in PairsFor(credits, id)
  {
    var init, last := credits[..|credits| - 1], credits[|credits| - 1];
    if r == last {
      FilterMember(r.offers, OfferedTo(id), o);
      var mine := Filter(r.offers, OfferedTo(id));
      var k :| 0 <= k < |mine| && mine[k] == o;
      assert Map(mine, Beside(r))[k] == Pair(r, o);
    } else {
      PairThere(init, id, r, o);
    }
  }

  lemma MapMember<T, U>(s: seq<T>, f: T -> U, x: T)
    requires x in s
    ensures f(x) in Map(s, f)
  {
    var k :| 0 <= k < |s| && s[k] == x;
    assert Map(s, f)[k] == f(x);
  }

  lemma MapSource<T, U>(s: seq<T>, f: T -> U, y: U) returns (x: T)
    requires y in Map(s, f)
    ensures x in s && f(x) == y
  {
    var k :| 0 <= k < |s| && Map(s, f)[k] == y;
    x := s[k];
  }

  ghost function ReadFor(s: Books, i: string): seq<Reading>
    requires Keyed(s)
  {
    ReadingsOf(CreditSide(CreditsOf(s)), InvoiceSide(CreditsOf(s), i))
  }

  lemma ReadIsPairs(s: Books, i: string)
    requires Keyed(s)
    ensures ReadFor(s, i) == Map(SortDesc(PairsFor(CreditsOf(s), i), PairScore), PairReading)
  {
    CreditsReadOnce(s, i);
    ChaseReadsPairs(CreditsOf(s), i);
  }

  lemma ReadIsCredit(s: Books, i: string, r: Reading)
    requires Keyed(s) && r in ReadFor(s, i)
    ensures r in CreditsOf(s)
  {
    ReadIsPairs(s, i);
    var p := MapSource(SortDesc(PairsFor(CreditsOf(s), i), PairScore), PairReading, r);
    SortDescMember(PairsFor(CreditsOf(s), i), PairScore, p);
    PairMember(CreditsOf(s), i, p);
  }

  /** The chase reads every credit that contests the invoice. */
  lemma ContestedIsRead(s: Books, i: string, r: Reading)
    requires Keyed(s) && r in CreditsOf(s) && ContestsStrongly(i, r)
    ensures r in ReadFor(s, i)
  {
    var k := FirstForAt(r.offers, i);
    var p := Pair(r, r.offers[k]);
    PairThere(CreditsOf(s), i, r, r.offers[k]);
    ReadIsPairs(s, i);
    SortDescMember(PairsFor(CreditsOf(s), i), PairScore, p);
    MapMember(SortDesc(PairsFor(CreditsOf(s), i), PairScore), PairReading, p);
  }

  lemma WarnedIsContested(s: Books, i: string)
    requires Keyed(s)
    ensures StatementVerdict(s, i).Warned? <==>
            !StatementVerdict(s, i).Blocked? && exists r :: r in CreditsOf(s) && ContestsStrongly(i, r)
  {
    if StatementVerdict(s, i).Warned? {
      var r := ContestedIsFound(i, ReadFor(s, i));
      ReadIsCredit(s, i, r);
    }
    if r :| !StatementVerdict(s, i).Blocked? && r in CreditsOf(s) && ContestsStrongly(i, r) {
      ContestedIsRead(s, i, r);
      if !StatementVerdict(s, i).Warned? { ContestedIsMissed(i, ReadFor(s, i), r); }
    }
  }

  /** The invoice scores within 12 of every other. */
  ghost predicate NearBest(open: seq<OpenInvoice>, line: BankLine, inv: OpenInvoice) {
    forall other :: other in open ==> ScoreOf(other, line) - ScoreOf(inv, line) < 12
  }

  /** It scores at least 85, within 12 of every other, and some other within 12 of it. */
  ghost predicate Contends(open: seq<OpenInvoice>, line: BankLine, id: string) {
    exists inv, rival ::
      && inv in open && inv.id == id && ScoreOf(inv, line) >= 85 && NearBest(open, line, inv)
      && rival in open && rival.id != id && ScoreOf(inv, line) - ScoreOf(rival, line) < 12
  }

  lemma TopIsBest(open: seq<OpenInvoice>, line: BankLine, inv: OpenInvoice)
    requires inv in open && Sorted(open, line) != []
    ensures ScoreOf(inv, line) <= Sorted(open, line)[0].hit.score
  {
    SortDescDescending(Fits(open, line), FitScore);
    var top := SortedFit(open, line, 0);
    if ScoreOf(inv, line) > 0 {
      var k := FitIsSorted(open, line, inv);
      assert FitScore(Sorted(open, line)[0]) >= FitScore(Sorted(open, line)[k]);
    }
  }

  /** Where the invoice first stands among the sorted fits, or past their end. */
  ghost predicate FirstAt(sorted: seq<Fit>, id: string, k: nat) {
    && k <= |sorted| && (forall m :: 0 <= m < k ==> sorted[m].invoice != id)
    && (k < |sorted| ==> sorted[k].invoice == id)
  }

  lemma StandsAt(sorted: seq<Fit>, k: nat)
    requires k < |sorted|
    ensures Standings(sorted)[k].fit == sorted[k]
    ensures Standings(sorted)[k].standing == Contested <==>
            |sorted| >= 2 && sorted[0].hit.score - sorted[1].hit.score < 12
            && (k == 0 || sorted[0].hit.score - sorted[k].hit.score < 12)
  {
    assert Standings(sorted)[k] == OfferAt(sorted, k);
  }

  lemma FirstAtOffers(sorted: seq<Fit>, id: string) returns (k: nat)
    ensures FirstAt(sorted, id, k)
    ensures FirstFor(Standings(sorted), id) == if k < |sorted| then Some(Standings(sorted)[k]) else None
  {
    var offers := Standings(sorted);
    forall m | 0 <= m < |sorted| ensures offers[m].fit == sorted[m] && offers[m] in offers { StandsAt(sorted, m); }
    k := FirstForAt(offers, id);
    if FirstFor(offers, id).None? {
      k := |sorted|;
    }
  }

  /** The contest reads the top two fits and the invoice's own. */
  lemma ContestReadsSorted(open: seq<OpenInvoice>, line: BankLine, id: string) returns (k: nat)
    ensures FirstAt(Sorted(open, line), id, k)
    ensures var sorted := Sorted(open, line);
            ContestsStrongly(id, ReadingOf(open, line)) <==>
            && |sorted| >= 2 && sorted[0].hit.score - sorted[1].hit.score < 12
            && k < |sorted| && sorted[k].hit.confidence == Strong
            && (k == 0 || sorted[0].hit.score - sorted[k].hit.score < 12)
  {
    var sorted := Sorted(open, line);
    k := FirstAtOffers(sorted, id);
    assert ReadingOf(open, line).offers == Standings(sorted);
    if k < |sorted| { StandsAt(sorted, k); }
  }

  lemma TopNearsBest(open: seq<OpenInvoice>, line: BankLine, inv: OpenInvoice)
    requires inv in open && Sorted(open, line) != []
    requires Sorted(open, line)[0].hit.score - ScoreOf(inv, line) < 12
    ensures NearBest(open, line, inv)
  {
    forall other | other in open ensures ScoreOf(other, line) - ScoreOf(inv, line) < 12 {
      TopIsBest(open, line, other);
    }
  }

  /** The fit that rivals the one at `k`: the second for the first, and the first for any other. */
  lemma RivalFit(open: seq<OpenInvoice>, line: BankLine, id: string, k: nat) returns (rival: OpenInvoice)
    requires DistinctInvoices(open) && FirstAt(Sorted(open, line), id, k) && k < |Sorted(open, line)|
    requires |Sorted(open, line)| >= 2 && Sorted(open, line)[0].hit.score - Sorted(open, line)[1].hit.score < 12
    ensures rival in open && rival.id != id && Sorted(open, line)[k].hit.score - ScoreOf(rival, line) < 12
  {
    var sorted := Sorted(open, line);
    SortedOnce(open, line, id);
    SortDescDescending(Fits(open, line), FitScore);
    assert FitScore(sorted[0]) >= FitScore(sorted[k]) || k == 0;
    rival := SortedFit(open, line, if k == 0 then 1 else 0);
  }

  lemma ContestingContends(open: seq<OpenInvoice>, line: BankLine, id: string)
    requires DistinctInvoices(open) && ContestsStrongly(id, ReadingOf(open, line))
    ensures Contends(open, line, id)
  {
    var k := ContestReadsSorted(open, line, id);
    var inv := SortedFit(open, line, k);
    ScoresOfHits(inv, line, Sorted(open, line)[k].hit);
    TopNearsBest(open, line, inv);
    var rival := RivalFit(open, line, id, k);
  }

  lemma ContendingContests(open: seq<OpenInvoice>, line: BankLine, id: string)
    requires DistinctInvoices(open) && Contends(open, line, id)
    ensures ContestsStrongly(id, ReadingOf(open, line))
  {
    var inv, rival :| && inv in open && inv.id == id && ScoreOf(inv, line) >= 85 && NearBest(open, line, inv)
                      && rival in open && rival.id != id && ScoreOf(inv, line) - ScoreOf(rival, line) < 12;
    var k := ContestReadsSorted(open, line, id);
    var there := FitIsSorted(open, line, inv);
    var m := FitIsSorted(open, line, rival);
    var mine := SortedFit(open, line, k);
    assert mine == inv;
    var top := SortedFit(open, line, 0);
    ContendedGaps(open, line, k, m);
    ScoresOfHits(inv, line, Sorted(open, line)[k].hit);
  }

  lemma ContendedGaps(open: seq<OpenInvoice>, line: BankLine, k: nat, m: nat)
    requires k != m && k < |Sorted(open, line)| && m < |Sorted(open, line)|
    ensures var sorted := Sorted(open, line);
            sorted[1].hit.score >= sorted[if k == 0 then m else k].hit.score
  {
    SortDescDescending(Fits(open, line), FitScore);
    var sorted := Sorted(open, line);
    assert FitScore(sorted[1]) >= FitScore(sorted[if k == 0 then m else k]) || (if k == 0 then m else k) == 1;
  }

  /** A credit that scores at least 85 against this invoice, within 12 of the best, and within 12 of it another's. */
  ghost predicate CouldBeAnothers(s: Books, i: string, l: string)
    requires Keyed(s)
  {
    && i in s.invoices && l in s.lines && !LedgerboxBooks.Applied(s, l) && s.lines[l].direction == In
    && Score(s, i, l) >= 85 && (forall j :: j in s.invoices ==> Score(s, j, l) - Score(s, i, l) < 12)
    && exists j :: j in s.invoices && j != i && Score(s, i, l) - Score(s, j, l) < 12
  }

  lemma ContendsIsInTheBooks(s: Books, i: string, l: string)
    requires Keyed(s) && l in s.lines && !LedgerboxBooks.Applied(s, l) && s.lines[l].direction == In
    requires Contends(Opens(s), s.lines[l], i)
    ensures CouldBeAnothers(s, i, l)
  {
    var inv, rival :|
      && inv in Opens(s) && inv.id == i && ScoreOf(inv, s.lines[l]) >= 85 && NearBest(Opens(s), s.lines[l], inv)
      && rival in Opens(s) && rival.id != i && ScoreOf(inv, s.lines[l]) - ScoreOf(rival, s.lines[l]) < 12;
    OpenScores(s, l, inv);
    OpenScores(s, l, rival);
    forall j | j in s.invoices ensures Score(s, j, l) - Score(s, i, l) < 12 {
      if TakesCredit(RowOf(s, j)) { OpenThere(s, s.dueOrder, j); }
    }
  }

  lemma BooksContend(s: Books, i: string, l: string)
    requires Keyed(s) && CouldBeAnothers(s, i, l)
    ensures Contends(Opens(s), s.lines[l], i)
  {
    var j :| j in s.invoices && j != i && Score(s, i, l) - Score(s, j, l) < 12;
    OpenThere(s, s.dueOrder, i);
    OpenThere(s, s.dueOrder, j);
    var inv, rival := OpenInvoice(i, ScoreInputOf(RowOf(s, i))), OpenInvoice(j, ScoreInputOf(RowOf(s, j)));
    forall other | other in Opens(s) ensures ScoreOf(other, s.lines[l]) - ScoreOf(inv, s.lines[l]) < 12 {
      OpenScores(s, l, other);
    }
    OpenScores(s, l, inv);
    OpenScores(s, l, rival);
    assert NearBest(Opens(s), s.lines[l], inv);
  }

  lemma ContestIsInTheBooks(s: Books, i: string, r: Reading)
    requires Keyed(s) && r in CreditsOf(s)
    ensures ContestsStrongly(i, r) <==> CouldBeAnothers(s, i, r.line.id)
  {
    CreditComesFrom(Opens(s), Pool(s), r);
    PoolMember(s, s.statement, r.line);
    OpensDistinct(s, s.dueOrder);
    if ContestsStrongly(i, r) {
      ContestingContends(Opens(s), r.line, i);
      ContendsIsInTheBooks(s, i, r.line.id);
    }
    if CouldBeAnothers(s, i, r.line.id) {
      BooksContend(s, i, r.line.id);
      ContendingContests(Opens(s), r.line, i);
    }
  }

  /** A chase that nothing blocks is warned of exactly when some credit could be this invoice's or another's. */
  lemma WarnedExactly(s: Books, i: string)
    requires Keyed(s)
    ensures StatementVerdict(s, i).Warned? <==>
            (forall l :: !SettlesAlone(s, i, l)) && exists l :: CouldBeAnothers(s, i, l)
    ensures StatementVerdict(s, i).Warned? ==> CouldBeAnothers(s, i, StatementVerdict(s, i).line)
  {
    BlockedExactly(s, i);
    WarnedIsContested(s, i);
    if StatementVerdict(s, i).Warned? {
      var r := ContestedIsFound(i, ReadFor(s, i));
      ReadIsCredit(s, i, r);
      ContestIsInTheBooks(s, i, r);
    }
    if l :| CouldBeAnothers(s, i, l) {
      PoolThere(s, s.statement, l);
      CreditThere(Opens(s), Pool(s), s.lines[l]);
      ContestIsInTheBooks(s, i, ReadingOf(Opens(s), s.lines[l]));
    }
  }
}
