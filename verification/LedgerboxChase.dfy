/**
 The chase question, asked of one invoice (`lib/chase.ts`), and the index that answers it for all of them in one
 pass (`settlingCredits` in `lib/db.ts`).
 */
module LedgerboxChase {
  import opened LedgerboxMatch
  import opened LedgerboxReconcile
  import opened LedgerboxTypes
  import opened Lists
  import opened Options

  /** The credit that stands against a reminder, with what it would leave owed. */
  datatype SettlingCredit = SettlingCredit(line: string, memo: string, amount: int, postedAt: Instant,
                                           shortBy: Option<int>)

  datatype Verdict = Blocked(credit: SettlingCredit) | Warned(line: string, numbers: seq<string>) | Clear

  /** This invoice tops the credit's offers, unrivalled and scoring strong. */
  function Settles(id: string): Reading -> bool {
    (r: Reading) =>
      r.offers != [] && r.offers[0].fit.invoice == id && r.offers[0].standing == Best
      && r.offers[0].fit.hit.confidence == Strong
  }

  function CreditOf(r: Reading): SettlingCredit
    requires r.offers != []
  {
    SettlingCredit(r.line.id, r.line.memo, r.line.amount, r.line.postedAt, r.offers[0].fit.hit.shortBy)
  }

  /** The first of `credits` that settles the invoice. */
  function FindSettling(id: string, credits: seq<Reading>): Option<SettlingCredit> {
    if credits == [] then None
    else if Settles(id)(credits[0]) then Some(CreditOf(credits[0]))
    else FindSettling(id, credits[1..])
  }

  /** The readings behind an invoice's offers, in their order. */
  function ReadingsOf(byCredit: map<string, Reading>, offers: seq<Offer>): seq<Reading> {
    if offers == [] then []
    else
      var line := offers[|offers| - 1].fit.hit.line.id;
      ReadingsOf(byCredit, offers[..|offers| - 1]) + if line in byCredit then [byCredit[line]] else []
  }

  function ChaseCredits(table: Reconciliation, id: string): seq<Reading> {
    ReadingsOf(table.byCredit, table.ByInvoice(id))
  }

  function FirstFor(offers: seq<Offer>, id: string): Option<Offer> {
    if offers == [] then None
    else if offers[0].fit.invoice == id then Some(offers[0])
    else FirstFor(offers[1..], id)
  }

  function OfferNumber(o: Offer): string { o.fit.number }

  /** The first credit that could be this invoice's or another's, when the fit is strong. */
  function FindContested(id: string, credits: seq<Reading>): (v: Verdict)
    ensures !v.Blocked?
  {
    if credits == [] then Clear
    else
      var mine := FirstFor(credits[0].offers, id);
      if mine.Some? && mine.value.standing == Contested && mine.value.fit.hit.confidence == Strong then
        Warned(credits[0].line.id, Map(Filter(credits[0].offers, IsContested), OfferNumber))
      else FindContested(id, credits[1..])
  }

  function ChaseVerdict(id: string, credits: seq<Reading>): Verdict {
    var settling := FindSettling(id, credits);
    if settling.Some? then Blocked(settling.value) else FindContested(id, credits)
  }

  // ----- the one-pass index -----

  function TopIs(id: string): Reading -> bool {
    (r: Reading) => r.offers != [] && r.offers[0].fit.invoice == id
  }

  function TopScore(r: Reading): int {
    if r.offers == [] then 0 else OfferScore(r.offers[0])
  }

  /** The credits grouped by the invoice their best pair names, in statement order. */
  method GroupByTop(credits: seq<Reading>) returns (byTop: map<string, seq<Reading>>)
    ensures forall id :: (if id in byTop then byTop[id] else []) == Filter(credits, TopIs(id))
  {
    byTop := map[];
    for i := 0 to |credits|
      invariant forall id :: (if id in byTop then byTop[id] else []) == Filter(credits[..i], TopIs(id))
    {
      var reading := credits[i];
      forall id ensures Filter(credits[..i + 1], TopIs(id)) ==
                        Filter(credits[..i], TopIs(id)) + if TopIs(id)(reading) then [reading] else []
      {
        assert credits[..i + 1] == credits[..i] + [reading];
        FilterSnoc(credits[..i], reading, TopIs(id));
      }
      if reading.offers != [] {
        var top := reading.offers[0].fit.invoice;
        byTop := byTop[top := (if top in byTop then byTop[top] else []) + [reading]];
      }
    }
    assert credits[..|credits|] == credits;
  }

  /** For every invoice at once, what `FindSettling` finds among the credits it tops, best score first. */
  method SettlingCredits(table: Reconciliation) returns (out: map<string, SettlingCredit>)
    ensures forall id :: (if id in out then Some(out[id]) else None) ==
                         FindSettling(id, SortDesc(Filter(table.credits, TopIs(id)), TopScore))
  {
    var byTop := GroupByTop(table.credits);
    out := map[];
    var left := byTop.Keys;
    while left != {}
      invariant left <= byTop.Keys && out.Keys <= byTop.Keys - left
      invariant forall id :: id in byTop.Keys - left ==>
        (if id in out then Some(out[id]) else None) == FindSettling(id, SortDesc(byTop[id], TopScore))
      decreases |left|
    {
      var id :| id in left;
      var credit := FindSettling(id, SortDesc(byTop[id], TopScore));
      if credit.Some? {
        out := out[id := credit.value];
      }
      left := left - {id};
    }
  }

  // ----- the index gives the per-invoice answer -----

  lemma {:induction false} FindIsFirstOfFilter(id: string, credits: seq<Reading>)
    ensures var settling := Filter(credits, Settles(id));
            && (settling != [] ==> settling[0].offers != [])
            && FindSettling(id, credits) == if settling == [] then None else Some(CreditOf(settling[0]))
  {
    if credits == [] {
    } else {
      FindIsFirstOfFilter(id, credits[1..]);
      assert credits == [credits[0]] + credits[1..];
      FilterConcat([credits[0]], credits[1..], Settles(id));
      FilterSnoc([], credits[0], Settles(id));
      assert [] + [credits[0]] == [credits[0]];
    }
  }

  /** A credit beside one of its pairs. */
  datatype Pair = Pair(reading: Reading, offer: Offer)

  function PairReading(p: Pair): Reading { p.reading }
  function PairOffer(p: Pair): Offer { p.offer }
  function PairScore(p: Pair): int { OfferScore(p.offer) }

  function Beside(r: Reading): Offer -> Pair {
    (o: Offer) => Pair(r, o)
  }

  function PairsFor(credits: seq<Reading>, id: string): seq<Pair> {
    if credits == [] then []
    else
      var r := credits[|credits| - 1];
      PairsFor(credits[..|credits| - 1], id) + Map(Filter(r.offers, OfferedTo(id)), Beside(r))
  }

  function PairSettles(id: string): Pair -> bool {
    (p: Pair) => Settles(id)(p.reading)
  }

  lemma {:induction false} PairsAreTheSide(credits: seq<Reading>, id: string)
    ensures Map(PairsFor(credits, id), PairOffer) == Filter(AllOffers(credits), OfferedTo(id))
  {
    if credits == [] {
    } else {
      var init, r := credits[..|credits| - 1], credits[|credits| - 1];
      PairsAreTheSide(init, id);
      FilterConcat(AllOffers(init), r.offers, OfferedTo(id));
      MapConcat(PairsFor(init, id), Map(Filter(r.offers, OfferedTo(id)), Beside(r)), PairOffer);
    }
  }

  lemma {:induction false} PairMember(credits: seq<Reading>, id: string, p: Pair)
    requires p in PairsFor(credits, id)
    ensures p.reading in credits && p.offer in p.reading.offers && OfferedTo(id)(p.offer)
  {
    var init, r := credits[..|credits| - 1], credits[|credits| - 1];
    if p in PairsFor(init, id) {
      PairMember(init, id, p);
    } else {
      FilterMember(r.offers, OfferedTo(id), p.offer);
    }
  }

  ghost predicate OnePair(credits: seq<Reading>, id: string) {
    forall r :: r in credits ==> |Filter(r.offers, OfferedTo(id))| <= 1
  }

  lemma SettledPair(r: Reading, id: string)
    requires Settles(id)(r) && |Filter(r.offers, OfferedTo(id))| <= 1
    ensures Filter(r.offers, OfferedTo(id)) == [r.offers[0]]
  {
    FilterHead(r.offers, OfferedTo(id));
  }

  /** The one settled pair of a reading that settles, and none of a reading that does not. */
  lemma SettledHere(r: Reading, id: string)
    requires |Filter(r.offers, OfferedTo(id))| <= 1
    ensures Filter(Map(Filter(r.offers, OfferedTo(id)), Beside(r)), PairSettles(id)) ==
            if Settles(id)(r) then [Pair(r, r.offers[0])] else []
  {
    var mine := Map(Filter(r.offers, OfferedTo(id)), Beside(r));
    if Settles(id)(r) {
      SettledPair(r, id);
      assert mine == [Pair(r, r.offers[0])];
      FilterAll(mine, PairSettles(id));
    } else {
      FilterNone(mine, PairSettles(id));
    }
  }

  lemma {:induction false} SettledPairs(credits: seq<Reading>, id: string)
    requires OnePair(credits, id)
    ensures Map(Filter(PairsFor(credits, id), PairSettles(id)), PairReading) == Filter(credits, Settles(id))
    ensures forall p :: p in Filter(PairsFor(credits, id), PairSettles(id)) ==> PairScore(p) == TopScore(p.reading)
    decreases |credits|
  {
    if credits == [] {
    } else {
      var init, r := FrontOfPairs(credits, id);
      SettledPairs(init, id);
      SettledPairsSnoc(init, r, id);
    }
  }

  lemma FrontOfPairs(credits: seq<Reading>, id: string) returns (init: seq<Reading>, r: Reading)
    requires OnePair(credits, id) && credits != []
    ensures credits == init + [r] && OnePair(init, id) && |Filter(r.offers, OfferedTo(id))| <= 1
  {
    init, r := credits[..|credits| - 1], credits[|credits| - 1];
    assert forall x :: x in init ==> x in credits;
  }

  lemma SettledPairsSnoc(init: seq<Reading>, r: Reading, id: string)
    requires |Filter(r.offers, OfferedTo(id))| <= 1
    requires Map(Filter(PairsFor(init, id), PairSettles(id)), PairReading) == Filter(init, Settles(id))
    requires forall p :: p in Filter(PairsFor(init, id), PairSettles(id)) ==> PairScore(p) == TopScore(p.reading)
    ensures Map(Filter(PairsFor(init + [r], id), PairSettles(id)), PairReading) == Filter(init + [r], Settles(id))
    ensures forall p :: p in Filter(PairsFor(init + [r], id), PairSettles(id)) ==> PairScore(p) == TopScore(p.reading)
  {
    SettledHere(r, id);
    var before := Filter(PairsFor(init, id), PairSettles(id));
    var mine := Map(Filter(r.offers, OfferedTo(id)), Beside(r));
    assert (init + [r])[..|init|] == init;
    assert PairsFor(init + [r], id) == PairsFor(init, id) + mine;
    FilterConcat(PairsFor(init, id), mine, PairSettles(id));
    FilterSnoc(init, r, Settles(id));
    MapConcat(before, Filter(mine, PairSettles(id)), PairReading);
  }

  lemma {:induction false} LookUp(credits: seq<Reading>, k: nat)
    requires k < |credits|
    requires forall i, j :: 0 <= i < j < |credits| ==> credits[i].line.id != credits[j].line.id
    ensures credits[k].line.id in CreditSide(credits) && CreditSide(credits)[credits[k].line.id] == credits[k]
  {
    if k < |credits| - 1 {
      LookUp(credits[..|credits| - 1], k);
    }
  }

  lemma {:induction false} ReadBack(byCredit: map<string, Reading>, pairs: seq<Pair>)
    requires forall p :: p in pairs ==> p.reading.line.id in byCredit && byCredit[p.reading.line.id] == p.reading
    requires forall p :: p in pairs ==> p.offer.fit.hit.line == p.reading.line
    ensures ReadingsOf(byCredit, Map(pairs, PairOffer)) == Map(pairs, PairReading)
  {
    if pairs == [] {
    } else {
      var init, last := pairs[..|pairs| - 1], pairs[|pairs| - 1];
      ReadBack(byCredit, init);
      assert Map(pairs, PairOffer)[..|pairs| - 1] == Map(init, PairOffer);
    }
  }

  /** What the invoice's chase reads, in terms of the pairs: the same readings, sorted by this invoice's score. */
  lemma ChaseReadsPairs(credits: seq<Reading>, id: string)
    requires forall i, j :: 0 <= i < j < |credits| ==> credits[i].line.id != credits[j].line.id
    requires forall r, o :: r in credits && o in r.offers ==> o.fit.hit.line == r.line
    ensures ReadingsOf(CreditSide(credits), InvoiceSide(credits, id)) ==
            Map(SortDesc(PairsFor(credits, id), PairScore), PairReading)
  {
    var pairs := PairsFor(credits, id);
    var sorted := SortDesc(pairs, PairScore);
    PairsAreTheSide(credits, id);
    SortDescMap(pairs, PairScore, PairOffer, OfferScore);
    forall p | p in sorted
      ensures p.reading.line.id in CreditSide(credits) && CreditSide(credits)[p.reading.line.id] == p.reading
      ensures p.offer.fit.hit.line == p.reading.line
    {
      SortDescMember(pairs, PairScore, p);
      PairMember(credits, id, p);
      var k :| 0 <= k < |credits| && credits[k] == p.reading;
      LookUp(credits, k);
    }
    ReadBack(CreditSide(credits), sorted);
  }

  /**
   The one-pass index and the per-invoice question have one answer: the settling credits in statement
   order, sorted by the score they have for this invoice, which is their top score.
   */
  lemma IndexMatchesQuestion(credits: seq<Reading>, id: string)
    requires forall i, j :: 0 <= i < j < |credits| ==> credits[i].line.id != credits[j].line.id
    requires forall r, o :: r in credits && o in r.offers ==> o.fit.hit.line == r.line
    requires OnePair(credits, id)
    ensures FindSettling(id, SortDesc(Filter(credits, TopIs(id)), TopScore)) ==
            FindSettling(id, ReadingsOf(CreditSide(credits), InvoiceSide(credits, id)))
  {
    var pairs := PairsFor(credits, id);
    var settled := Filter(pairs, PairSettles(id));
    // the index side
    FilterSortDesc(Filter(credits, TopIs(id)), TopScore, Settles(id));
    FilterTwice(credits, TopIs(id), Settles(id), Settles(id));
    FindIsFirstOfFilter(id, SortDesc(Filter(credits, TopIs(id)), TopScore));
    // the invoice side
    ChaseReadsPairs(credits, id);
    FilterMap(SortDesc(pairs, PairScore), PairReading, Settles(id), PairSettles(id));
    FilterSortDesc(pairs, PairScore, PairSettles(id));
    SettledPairs(credits, id);
    SortDescMap(settled, PairScore, PairReading, TopScore);
    FindIsFirstOfFilter(id, ReadingsOf(CreditSide(credits), InvoiceSide(credits, id)));
  }

  /** The lines of a statement, no two with one id. */
  ghost predicate DistinctLines(lines: seq<BankLine>) {
    forall i, j :: 0 <= i < j < |lines| ==> lines[i].id != lines[j].id
  }

  ghost predicate DistinctInvoices(open: seq<OpenInvoice>) {
    forall i, j :: 0 <= i < j < |open| ==> open[i].id != open[j].id
  }

  lemma {:induction false} CreditsDistinct(open: seq<OpenInvoice>, lines: seq<BankLine>)
    requires DistinctLines(lines)
    ensures forall i, j :: 0 <= i < j < |Credits(open, lines)| ==>
            Credits(open, lines)[i].line.id != Credits(open, lines)[j].line.id
  {
    if lines == [] {
    } else {
      var init, last := lines[..|lines| - 1], lines[|lines| - 1];
      CreditsDistinct(open, init);
      forall r | r in Credits(open, init) ensures r.line.id != last.id {
        CreditComesFrom(open, init, r);
      }
    }
  }

  lemma OffersCarryTheirLine(open: seq<OpenInvoice>, lines: seq<BankLine>, r: Reading, o: Offer)
    requires r in Credits(open, lines) && o in r.offers
    ensures o.fit.hit.line == r.line
  {
    CreditComesFrom(open, lines, r);
    var inv := OfferComesFrom(open, r.line, o);
  }

  /** For every invoice, the sheet's index and the action's question name the same settling credit, or none. */
  lemma IndexIsPerInvoice(open: seq<OpenInvoice>, lines: seq<BankLine>, table: Reconciliation, id: string)
    requires DistinctInvoices(open) && DistinctLines(lines)
    requires table.credits == Credits(open, lines) && table.byCredit == CreditSide(table.credits)
    requires table.ByInvoice(id) == InvoiceSide(table.credits, id)
    ensures FindSettling(id, SortDesc(Filter(table.credits, TopIs(id)), TopScore)) ==
            FindSettling(id, ChaseCredits(table, id))
  {
    CreditsDistinct(open, lines);
    forall r, o | r in table.credits && o in r.offers ensures o.fit.hit.line == r.line {
      OffersCarryTheirLine(open, lines, r, o);
    }
    forall r | r in table.credits ensures |Filter(r.offers, OfferedTo(id))| <= 1 {
      CreditComesFrom(open, lines, r);
      OnePairEach(open, r.line, id);
    }
    IndexMatchesQuestion(table.credits, id);
  }

  // ----- what a block names -----

  lemma {:induction false} FoundIsThere(id: string, credits: seq<Reading>) returns (r: Reading)
    requires FindSettling(id, credits).Some?
    ensures r in credits && Settles(id)(r) && FindSettling(id, credits) == Some(CreditOf(r))
  {
    if Settles(id)(credits[0]) {
      r := credits[0];
    } else {
      r := FoundIsThere(id, credits[1..]);
    }
  }

  lemma {:induction false} ReadingsKnown(byCredit: map<string, Reading>, offers: seq<Offer>, r: Reading)
    requires r in ReadingsOf(byCredit, offers)
    ensures r in byCredit.Values
  {
    var line := offers[|offers| - 1].fit.hit.line.id;
    if r in ReadingsOf(byCredit, offers[..|offers| - 1]) {
      ReadingsKnown(byCredit, offers[..|offers| - 1], r);
    } else {
      assert byCredit[line] == r;
    }
  }

  lemma {:induction false} SideIsCredits(credits: seq<Reading>, r: Reading)
    requires r in CreditSide(credits).Values
    ensures r in credits
  {
    var init, last := credits[..|credits| - 1], credits[|credits| - 1];
    assert credits == init + [last];
    if r != last {
      var id :| id in CreditSide(credits) && CreditSide(credits)[id] == r;
      assert CreditSide(init)[id] == r;
      SideIsCredits(init, r);
    }
  }

  /** A block names an incoming line of the pool that scored strong against this invoice. */
  lemma BlockNamesACredit(open: seq<OpenInvoice>, lines: seq<BankLine>, table: Reconciliation, id: string,
                          credit: SettlingCredit)
    returns (line: BankLine, inv: OpenInvoice, hit: Candidate)
    requires table.credits == Credits(open, lines) && table.byCredit == CreditSide(table.credits)
    requires ChaseVerdict(id, ChaseCredits(table, id)) == Blocked(credit)
    ensures line in lines && line.direction == In && line.id == credit.line && line.amount == credit.amount
    ensures inv in open && inv.id == id
    ensures ScoreCandidate(inv.input, line) == Some(hit) && hit.confidence == Strong && hit.shortBy == credit.shortBy
  {
    var r := FoundIsThere(id, ChaseCredits(table, id));
    ReadingsKnown(table.byCredit, table.ByInvoice(id), r);
    SideIsCredits(table.credits, r);
    CreditComesFrom(open, lines, r);
    line := r.line;
    inv := OfferComesFrom(open, line, r.offers[0]);
    hit := r.offers[0].fit.hit;
  }

  /** So what it names fits what is owed, and the shortfall it states is the credit's own. */
  lemma BlockStatesItsShort(open: seq<OpenInvoice>, lines: seq<BankLine>, table: Reconciliation, id: string,
                            credit: SettlingCredit)
    returns (line: BankLine, inv: OpenInvoice)
    requires table.credits == Credits(open, lines) && table.byCredit == CreditSide(table.credits)
    requires ChaseVerdict(id, ChaseCredits(table, id)) == Blocked(credit)
    ensures line in lines && line.direction == In && line.id == credit.line && line.amount == credit.amount
    ensures inv in open && inv.id == id
    ensures inv.input.balance > 0 ==> StatesShort(inv.input.balance, credit.amount, credit.shortBy)
  {
    var hit;
    line, inv, hit := BlockNamesACredit(open, lines, table, id, credit);
    if inv.input.balance > 0 { StrongMeansTheAmountFits(inv.input, line, hit); }
  }
}
