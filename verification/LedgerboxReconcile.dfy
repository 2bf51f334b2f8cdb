/**
 The reconciliation table (`lib/reconcile.ts`): the fits of all credits with all open invoices, each with its
 standing, and the two ways the table is read, by credit and by invoice.
 */
module LedgerboxReconcile {
  import opened LedgerboxMatch
  import opened LedgerboxTypes
  import opened Lists
  import opened Options

  datatype OpenInvoice = OpenInvoice(id: string, input: ScoreInput)

  datatype Standing = Best | Contested | ClaimedElsewhere
  datatype ClaimedBy = ClaimedBy(invoice: string, number: string, score: int)

  /** A scored pair before its standing is known. */
  datatype Fit = Fit(invoice: string, number: string, clientName: string, hit: Candidate)

  datatype Offer = Offer(fit: Fit, standing: Standing, claimedBy: Option<ClaimedBy>)

  datatype Reading = Reading(line: BankLine, offers: seq<Offer>, ambiguous: bool)

  datatype Reconciliation = Reconciliation(
    credits: seq<Reading>, byCredit: map<string, Reading>, byInvoice: map<string, seq<Offer>>)
  {
    /** The invoice's side of the table, empty for an id it does not list. */
    function ByInvoice(id: string): seq<Offer> {
      if id in byInvoice then byInvoice[id] else []
    }
  }

  function FitScore(f: Fit): int { f.hit.score }

  function OfferScore(o: Offer): int { o.fit.hit.score }

  predicate Offered(o: Offer) {
    o.standing != ClaimedElsewhere
  }

  predicate IsAmbiguous(scores: seq<int>) {
    |scores| >= 2 && IsContender(scores[0], scores[1])
  }

  // ----- one credit -----

  /** Every invoice the line fits, in the invoices' order. */
  function Fits(open: seq<OpenInvoice>, line: BankLine): seq<Fit> {
    if open == [] then []
    else
      var inv := open[|open| - 1];
      var hit := ScoreCandidate(inv.input, line);
      Fits(open[..|open| - 1], line) +
      if hit.Some? then [Fit(inv.id, inv.input.number, inv.input.clientName, hit.value)] else []
  }

  function OfferAt(fits: seq<Fit>, i: nat): Offer
    requires i < |fits|
  {
    var top := fits[0];
    var contested := IsAmbiguous(Map(fits, FitScore));
    if i == 0 then Offer(fits[0], if contested then Contested else Best, None)
    else if contested && IsContender(top.hit.score, fits[i].hit.score) then Offer(fits[i], Contested, None)
    else Offer(fits[i], ClaimedElsewhere, Some(ClaimedBy(top.invoice, top.number, top.hit.score)))
  }

  function Standings(fits: seq<Fit>): (offers: seq<Offer>)
    ensures |offers| == |fits|
    ensures forall i :: 0 <= i < |fits| ==> offers[i] == OfferAt(fits, i)
  {
    seq(|fits|, i requires 0 <= i < |fits| => OfferAt(fits, i))
  }

  function ReadingOf(open: seq<OpenInvoice>, line: BankLine): Reading {
    var offers := Standings(SortDesc(Fits(open, line), FitScore));
    Reading(line, offers, IsAmbiguous(Map(offers, OfferScore)))
  }

  predicate Incoming(line: BankLine) {
    line.direction == In
  }

  /** One reading for each incoming line, keeping their order. */
  function Credits(open: seq<OpenInvoice>, lines: seq<BankLine>): seq<Reading> {
    if lines == [] then []
    else
      var line := lines[|lines| - 1];
      Credits(open, lines[..|lines| - 1]) + if Incoming(line) then [ReadingOf(open, line)] else []
  }

  // ----- the table's two sides -----

  function AllOffers(credits: seq<Reading>): seq<Offer> {
    if credits == [] then []
    else AllOffers(credits[..|credits| - 1]) + credits[|credits| - 1].offers
  }

  function OfferedTo(id: string): Offer -> bool {
    (o: Offer) => o.fit.invoice == id && Offered(o)
  }

  /** What the invoice's side must hold: its offered pairs, best first, ties in statement order. */
  function InvoiceSide(credits: seq<Reading>, id: string): seq<Offer> {
    SortDesc(Filter(AllOffers(credits), OfferedTo(id)), OfferScore)
  }

  function CreditSide(credits: seq<Reading>): map<string, Reading> {
    if credits == [] then map[]
    else
      var last := credits[|credits| - 1];
      CreditSide(credits[..|credits| - 1])[last.line.id := last]
  }

  method ScoreLine(open: seq<OpenInvoice>, line: BankLine) returns (scored: seq<Fit>)
    ensures scored == Fits(open, line)
  {
    scored := [];
    for i := 0 to |open|
      invariant scored == Fits(open[..i], line)
    {
      var hit := ScoreCandidate(open[i].input, line);
      if hit.Some? {
        scored := scored + [Fit(open[i].id, open[i].input.number, open[i].input.clientName, hit.value)];
      }
      assert open[..i + 1][..i] == open[..i];
    }
    assert open[..|open|] == open;
  }

  ghost predicate SideOf(lists: map<string, seq<Offer>>, offers: seq<Offer>) {
    forall id :: (if id in lists then lists[id] else []) == Filter(offers, OfferedTo(id))
  }

  lemma SideSnoc(offers: seq<Offer>, o: Offer, id: string)
    ensures Filter(offers + [o], OfferedTo(id)) ==
            if OfferedTo(id)(o) then Filter(offers, OfferedTo(id)) + [o] else Filter(offers, OfferedTo(id))
  {
    FilterSnoc(offers, o, OfferedTo(id));
  }

  function Push(lists: map<string, seq<Offer>>, o: Offer): map<string, seq<Offer>> {
    if Offered(o) then
      lists[o.fit.invoice := (if o.fit.invoice in lists then lists[o.fit.invoice] else []) + [o]]
    else lists
  }

  lemma PushKeepsSide(lists: map<string, seq<Offer>>, offers: seq<Offer>, o: Offer)
    requires SideOf(lists, offers)
    ensures SideOf(Push(lists, o), offers + [o])
  {
    var pushed := Push(lists, o);
    forall id ensures (if id in pushed then pushed[id] else []) == Filter(offers + [o], OfferedTo(id)) {
      SideSnoc(offers, o, id);
      assert (if id in lists then lists[id] else []) == Filter(offers, OfferedTo(id));
    }
  }

  /** Push each offered pair onto its invoice's list. */
  method PushOffers(lists: map<string, seq<Offer>>, offers: seq<Offer>, ghost before: seq<Offer>)
    returns (pushed: map<string, seq<Offer>>)
    requires SideOf(lists, before)
    ensures SideOf(pushed, before + offers)
  {
    pushed := lists;
    assert before + offers[..0] == before;
    for i := 0 to |offers|
      invariant SideOf(pushed, before + offers[..i])
    {
      PushKeepsSide(pushed, before + offers[..i], offers[i]);
      assert before + offers[..i + 1] == before + offers[..i] + [offers[i]];
      pushed := Push(pushed, offers[i]);
    }
    assert offers[..|offers|] == offers;
  }

  method SortLists(lists: map<string, seq<Offer>>) returns (sorted: map<string, seq<Offer>>)
    ensures sorted.Keys == lists.Keys
    ensures forall id :: id in lists ==> sorted[id] == SortDesc(lists[id], OfferScore)
  {
    sorted := lists;
    var left := lists.Keys;
    while left != {}
      invariant left <= lists.Keys && sorted.Keys == lists.Keys
      invariant forall id :: id in lists ==>
        sorted[id] == if id in left then lists[id] else SortDesc(lists[id], OfferScore)
      decreases |left|
    {
      var id :| id in left;
      sorted := sorted[id := SortDesc(sorted[id], OfferScore)];
      left := left - {id};
    }
  }

  method Reconcile(open: seq<OpenInvoice>, lines: seq<BankLine>) returns (table: Reconciliation)
    ensures table.credits == Credits(open, lines)
    ensures table.byCredit == CreditSide(table.credits)
    ensures forall id :: table.ByInvoice(id) == InvoiceSide(table.credits, id)
  {
    var credits: seq<Reading>, byCredit, byInvoice := [], map[], map[];
    for i := 0 to |lines|
      invariant credits == Credits(open, lines[..i])
      invariant byCredit == CreditSide(credits)
      invariant SideOf(byInvoice, AllOffers(credits))
    {
      assert lines[..i + 1][..i] == lines[..i];
      if Incoming(lines[i]) {
        var scored := ScoreLine(open, lines[i]);
        var offers := Standings(SortDesc(scored, FitScore));
        var reading := Reading(lines[i], offers, IsAmbiguous(Map(offers, OfferScore)));
        byInvoice := PushOffers(byInvoice, offers, AllOffers(credits));
        assert (credits + [reading])[..|credits|] == credits;
        credits := credits + [reading];
        byCredit := byCredit[reading.line.id := reading];
      }
    }
    assert lines[..|lines|] == lines;
    var sorted := SortLists(byInvoice);
    table := Reconciliation(credits, byCredit, sorted);
  }

  // ----- what the standings mean -----

  function FitOf(o: Offer): Fit { o.fit }

  predicate IsContested(o: Offer) {
    o.standing == Contested
  }

  lemma ReadingShape(open: seq<OpenInvoice>, line: BankLine)
    ensures var r := ReadingOf(open, line);
            && Map(r.offers, FitOf) == SortDesc(Fits(open, line), FitScore)
            && Map(r.offers, OfferScore) == Map(SortDesc(Fits(open, line), FitScore), FitScore)
            && Descending(r.offers, OfferScore)
  {
    SortDescDescending(Fits(open, line), FitScore);
  }

  lemma StandingsPrefix(fits: seq<Fit>, i: nat, j: nat)
    requires Descending(fits, FitScore) && i <= j < |fits| && Offered(Standings(fits)[j])
    ensures Offered(Standings(fits)[i])
  {
    assert FitScore(fits[i]) >= FitScore(fits[j]);
  }

  /** The offered pairs of a credit are a prefix of its sorted fits. */
  lemma OfferedIsPrefix(open: seq<OpenInvoice>, line: BankLine, i: nat, j: nat)
    requires i <= j < |ReadingOf(open, line).offers|
    requires Offered(ReadingOf(open, line).offers[j])
    ensures Offered(ReadingOf(open, line).offers[i])
  {
    var fits := Fits(open, line);
    SortDescDescending(fits, FitScore);
    StandingsPrefix(SortDesc(fits, FitScore), i, j);
  }

  lemma {:induction false} PrefixCount(offers: seq<Offer>)
    requires forall i, j :: 0 <= i <= j < |offers| && Offered(offers[j]) ==> Offered(offers[i])
    ensures |Filter(offers, Offered)| <= |offers|
    ensures forall i :: 0 <= i < |offers| ==> (Offered(offers[i]) <==> i < |Filter(offers, Offered)|)
  {
    if offers == [] {
    } else {
      PrefixCount(offers[..|offers| - 1]);
      if Offered(offers[|offers| - 1]) {
        FilterAll(offers[..|offers| - 1], Offered);
      }
    }
  }

  lemma ContestedPairs(offers: seq<Offer>)
    requires |offers| >= 2 && IsContested(offers[0]) && IsContested(offers[1])
    requires forall i :: 0 <= i < |offers| ==> offers[i].standing != Best
    ensures |Filter(offers, IsContested)| >= 2
    ensures Filter(offers, IsContested) == Filter(offers, Offered)
  {
    var front, rest := offers[..2], offers[2..];
    assert offers == front + rest;
    FilterConcat(front, rest, IsContested);
    FilterAll(front, IsContested);
    FilterSame(offers, IsContested, Offered);
  }

  lemma {:induction false} LonePair(offers: seq<Offer>)
    requires offers != [] && offers[0].standing == Best
    requires forall i :: 1 <= i < |offers| ==> offers[i].standing == ClaimedElsewhere
    ensures Filter(offers, IsContested) == [] && Filter(offers, Offered) == [offers[0]]
  {
    FilterNone(offers, IsContested);
    if |offers| > 1 {
      LonePair(offers[..|offers| - 1]);
    }
  }

  lemma StandingsAmbiguous(fits: seq<Fit>)
    ensures var offers := Standings(fits);
            if IsAmbiguous(Map(offers, OfferScore))
            then |Filter(offers, IsContested)| >= 2 && Filter(offers, IsContested) == Filter(offers, Offered)
            else |Filter(offers, IsContested)| == 0
                 && (offers != [] ==> Filter(offers, Offered) == [offers[0]] && offers[0].standing == Best)
  {
    var offers := Standings(fits);
    assert Map(offers, OfferScore) == Map(fits, FitScore);
    if IsAmbiguous(Map(fits, FitScore)) {
      ContestedPairs(offers);
    } else if offers != [] {
      LonePair(offers);
    }
  }

  /** A credit is ambiguous exactly when two or more of its pairs are contested; else one stands alone. */
  lemma AmbiguousMeansContested(open: seq<OpenInvoice>, line: BankLine)
    ensures var r := ReadingOf(open, line);
            && (r.ambiguous <==> |Filter(r.offers, IsContested)| >= 2)
            && (r.ambiguous ==> Filter(r.offers, IsContested) == Filter(r.offers, Offered))
            && (!r.ambiguous && r.offers != [] ==>
                Filter(r.offers, Offered) == [r.offers[0]] && r.offers[0].standing == Best)
  {
    StandingsAmbiguous(SortDesc(Fits(open, line), FitScore));
  }

  // ----- the suggestion cut (`lineSuggestions`) -----

  const LINE_SUGGESTIONS := 3

  function Suggestions(offers: seq<Offer>): seq<Offer> {
    var offered := |Filter(offers, Offered)|;
    var cut := if offered > LINE_SUGGESTIONS then offered else LINE_SUGGESTIONS;
    if cut < |offers| then offers[..cut] else offers
  }

  method LineSuggestions(table: Reconciliation) returns (out: map<string, seq<Offer>>)
    ensures forall id :: id in out <==> id in CreditSide(table.credits)
    ensures forall id :: id in out ==> out[id] == Suggestions(CreditSide(table.credits)[id].offers)
  {
    out := map[];
    for i := 0 to |table.credits|
      invariant forall id :: id in out <==> id in CreditSide(table.credits[..i])
      invariant forall id :: id in out ==> out[id] == Suggestions(CreditSide(table.credits[..i])[id].offers)
    {
      var reading := table.credits[i];
      assert table.credits[..i + 1][..i] == table.credits[..i];
      out := out[reading.line.id := Suggestions(reading.offers)];
    }
    assert table.credits[..|table.credits|] == table.credits;
  }

  /** The cut keeps the credit's order and never hides an offered pair. */
  lemma CutHidesNoOffer(open: seq<OpenInvoice>, line: BankLine, o: Offer)
    ensures var offers := ReadingOf(open, line).offers;
            && Suggestions(offers) <= offers
            && (o in offers && Offered(o) ==> o in Suggestions(offers))
            && |Suggestions(offers)| >= (if |offers| < 3 then |offers| else 3)
            && (|Suggestions(offers)| > 3 ==> |Suggestions(offers)| == |Filter(offers, Offered)|)
  {
    var offers := ReadingOf(open, line).offers;
    forall i, j | 0 <= i <= j < |offers| && Offered(offers[j]) ensures Offered(offers[i]) {
      OfferedIsPrefix(open, line, i, j);
    }
    PrefixCount(offers);
    if o in offers && Offered(o) {
      var k :| 0 <= k < |offers| && offers[k] == o;
      assert Suggestions(offers)[k] == o;
    }
  }

  // ----- the two sides agree -----

  lemma {:induction false} AllOffersMember(credits: seq<Reading>, o: Offer)
    ensures o in AllOffers(credits) <==> exists r :: r in credits && o in r.offers
  {
    if credits == [] {
    } else {
      AllOffersMember(credits[..|credits| - 1], o);
      assert credits == credits[..|credits| - 1] + [credits[|credits| - 1]];
    }
  }

  /** An invoice's side holds its own offered pairs, all of them and no others. */
  lemma InvoiceSideHolds(credits: seq<Reading>, id: string, o: Offer)
    ensures o in InvoiceSide(credits, id) <==>
            o.fit.invoice == id && Offered(o) && exists r :: r in credits && o in r.offers
    ensures Descending(InvoiceSide(credits, id), OfferScore)
  {
    AllOffersMember(credits, o);
    FilterMember(AllOffers(credits), OfferedTo(id), o);
    SortDescMember(Filter(AllOffers(credits), OfferedTo(id)), OfferScore, o);
    SortDescDescending(Filter(AllOffers(credits), OfferedTo(id)), OfferScore);
  }

  function SideCount(credits: seq<Reading>): string -> int {
    (id: string) => |InvoiceSide(credits, id)|
  }

  function PairCount(offers: seq<Offer>): string -> int {
    (id: string) => |Filter(offers, OfferedTo(id))|
  }

  function OfferedIn(r: Reading): int {
    |Filter(r.offers, Offered)|
  }

  lemma {:induction false} OneMore(ids: seq<string>, offers: seq<Offer>, o: Offer)
    requires Distinct(ids) && Offered(o)
    ensures Sum(ids, PairCount(offers + [o])) == Sum(ids, PairCount(offers)) + if o.fit.invoice in ids then 1 else 0
  {
    if ids == [] {
    } else {
      OneMore(ids[..|ids| - 1], offers, o);
      FilterSnoc(offers, o, OfferedTo(ids[|ids| - 1]));
      assert ids == ids[..|ids| - 1] + [ids[|ids| - 1]];
    }
  }

  lemma {:induction false} PairsAdd(ids: seq<string>, offers: seq<Offer>)
    requires Distinct(ids) && forall o :: o in offers ==> o.fit.invoice in ids
    ensures Sum(ids, PairCount(offers)) == |Filter(offers, Offered)|
  {
    if offers == [] {
      SumZero(ids, PairCount(offers));
    } else {
      var init, last := offers[..|offers| - 1], offers[|offers| - 1];
      assert offers == init + [last];
      PairsAdd(ids, init);
      if Offered(last) {
        OneMore(ids, init, last);
      } else {
        forall id | id in ids ensures PairCount(offers)(id) == PairCount(init)(id) {
          FilterSnoc(init, last, OfferedTo(id));
        }
        SumSame(ids, PairCount(offers), PairCount(init));
      }
    }
  }

  lemma {:induction false} OfferedByCredit(credits: seq<Reading>)
    ensures |Filter(AllOffers(credits), Offered)| == Sum(credits, OfferedIn)
  {
    if credits == [] {
    } else {
      OfferedByCredit(credits[..|credits| - 1]);
      FilterConcat(AllOffers(credits[..|credits| - 1]), credits[|credits| - 1].offers, Offered);
    }
  }

  /**
   The number of offers counted down the invoices is the number counted down the credits: no pair is
   counted on one side only, or twice.
   */
  lemma SidesAgree(credits: seq<Reading>, ids: seq<string>)
    requires Distinct(ids) && forall r, o :: r in credits && o in r.offers ==> o.fit.invoice in ids
    ensures Sum(ids, SideCount(credits)) == Sum(credits, OfferedIn)
  {
    forall o | o in AllOffers(credits) ensures o.fit.invoice in ids {
      AllOffersMember(credits, o);
    }
    PairsAdd(ids, AllOffers(credits));
    OfferedByCredit(credits);
    forall id | id in ids ensures SideCount(credits)(id) == PairCount(AllOffers(credits))(id) {
      SortDescLength(Filter(AllOffers(credits), OfferedTo(id)), OfferScore);
    }
    SumSame(ids, SideCount(credits), PairCount(AllOffers(credits)));
  }

  // ----- where an offer comes from -----

  function ForInvoice(id: string): Fit -> bool {
    (f: Fit) => f.invoice == id
  }

  lemma {:induction false} FitComesFrom(open: seq<OpenInvoice>, line: BankLine, f: Fit) returns (inv: OpenInvoice)
    requires f in Fits(open, line)
    ensures inv in open && inv.id == f.invoice && ScoreCandidate(inv.input, line) == Some(f.hit)
  {
    inv := open[|open| - 1];
    if f in Fits(open[..|open| - 1], line) {
      inv := FitComesFrom(open[..|open| - 1], line, f);
    }
  }

  /** Every pair a reading holds is that line scored against an invoice of the table. */
  lemma OfferComesFrom(open: seq<OpenInvoice>, line: BankLine, o: Offer) returns (inv: OpenInvoice)
    requires o in ReadingOf(open, line).offers
    ensures inv in open && inv.id == o.fit.invoice && ScoreCandidate(inv.input, line) == Some(o.fit.hit)
  {
    var fits := Fits(open, line);
    var sorted := SortDesc(fits, FitScore);
    var k :| 0 <= k < |sorted| && Standings(sorted)[k] == o;
    assert sorted[k] == o.fit;
    SortDescMember(fits, FitScore, o.fit);
    inv := FitComesFrom(open, line, o.fit);
  }

  lemma {:induction false} CreditComesFrom(open: seq<OpenInvoice>, lines: seq<BankLine>, r: Reading)
    requires r in Credits(open, lines)
    ensures r.line in lines && Incoming(r.line) && r == ReadingOf(open, r.line)
  {
    if r in Credits(open, lines[..|lines| - 1]) {
      CreditComesFrom(open, lines[..|lines| - 1], r);
    }
  }

  lemma {:induction false} OneFitEach(open: seq<OpenInvoice>, line: BankLine, id: string)
    requires forall i, j :: 0 <= i < j < |open| ==> open[i].id != open[j].id
    ensures |Filter(Fits(open, line), ForInvoice(id))| <= 1
    ensures (forall inv :: inv in open ==> inv.id != id) ==> Filter(Fits(open, line), ForInvoice(id)) == []
  {
    if open == [] {
    } else {
      var init, last := open[..|open| - 1], open[|open| - 1];
      OneFitEach(init, line, id);
      assert last in open;
      var hit := ScoreCandidate(last.input, line);
      if hit.Some? {
        var f := Fit(last.id, last.input.number, last.input.clientName, hit.value);
        assert Fits(open, line) == Fits(init, line) + [f];
        FilterSnoc(Fits(init, line), f, ForInvoice(id));
      } else {
        assert Fits(open, line) == Fits(init, line);
      }
    }
  }

  /** With distinct invoices, a reading has at most one pair for each. */
  lemma OnePairEach(open: seq<OpenInvoice>, line: BankLine, id: string)
    requires forall i, j :: 0 <= i < j < |open| ==> open[i].id != open[j].id
    ensures |Filter(ReadingOf(open, line).offers, OfferedTo(id))| <= 1
  {
    var offers := ReadingOf(open, line).offers;
    var mine := (o: Offer) => o.fit.invoice == id;
    OneFitEach(open, line, id);
    FilterSortDesc(Fits(open, line), FitScore, ForInvoice(id));
    SortDescLength(Filter(Fits(open, line), ForInvoice(id)), FitScore);
    ReadingShape(open, line);
    FilterMap(offers, FitOf, ForInvoice(id), mine);
    FilterTwice(offers, mine, Offered, OfferedTo(id));
    FilterLength(Filter(offers, mine), Offered);
  }
}
