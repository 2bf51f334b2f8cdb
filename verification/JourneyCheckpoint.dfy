/**
 Saving the journey's record, cards and facts, and putting them back through the doors they came in by
 (`src/checkpoint.ts`).
 */
module JourneyCheckpoint {
  import opened JourneyDescribe
  import opened JourneyGate
  import opened JourneyRuns
  import opened Lists
  import opened Options

  datatype Checkpoint = Checkpoint(ledger: seq<Row>, approvals: seq<Card>, brain: seq<Fact>)

  function CardRows(cards: map<string, Card>, order: seq<string>): seq<Card>
    requires forall id :: id in order ==> id in cards
  {
    if order == [] then [] else CardRows(cards, order[..|order| - 1]) + [cards[order[|order| - 1]]]
  }

  ghost predicate Ordered(t: Table) {
    && Distinct(t.order) && (forall id :: id in t.order <==> id in t.cards)
    && forall id :: id in t.cards ==> t.cards[id].id == id
  }

  function Capture(g: Gate): Checkpoint
    requires forall id :: id in g.table.order ==> id in g.table.cards
  {
    Checkpoint(g.rows, CardRows(g.table.cards, g.table.order), g.facts)
  }

  function CardHead(card: Card): string {
    card.origin + "/" + card.tool + "("
  }

  /** `RequestCard` could have set this card next to those of `t`. */
  predicate CardFits(t: Table, card: Card) {
    && CardHead(card) <= card.describe
    && (card.consumedAt.Some? ==> card.status == Granted)
    && card.id !in t.cards
  }

  function RestoreCards(cards: seq<Card>): Option<Table> {
    if cards == [] then Some(Table(map[], []))
    else
      var before := RestoreCards(cards[..|cards| - 1]);
      if before.Some? && CardFits(before.value, cards[|cards| - 1])
      then Some(Set(before.value, cards[|cards| - 1]))
      else None
  }

  function RestoreRows(rows: seq<Row>): Option<seq<Row>> {
    if rows == [] then Some([])
    else
      var before := RestoreRows(rows[..|rows| - 1]);
      if before.Some? && rows[|rows| - 1].number == |rows| then Write(before.value, rows[|rows| - 1]) else None
  }

  function RestoreFacts(facts: seq<Fact>): Option<seq<Fact>> {
    if facts == [] then Some([])
    else
      var before, last := RestoreFacts(facts[..|facts| - 1]), facts[|facts| - 1];
      if before.None? then None
      else
        var admitted := Admit(before.value, last.claim, last.cites, last.learnedIn);
        if admitted.Some? && last.id == FactId(|facts|) then admitted else None
  }

  /** Every row a fact cites is in the restored record. */
  predicate CitesHold(facts: seq<Fact>, rows: seq<Row>) {
    forall k, i :: 0 <= k < |facts| && 0 <= i < |facts[k].cites| ==>
      var c := facts[k].cites[i]; 0 < c <= |rows| && rows[c - 1].number == c
  }

  /** Into empty holders, one after another; anything refused anywhere throws. */
  function RestoreState(cp: Checkpoint): Option<Gate> {
    var rows, table, facts := RestoreRows(cp.ledger), RestoreCards(cp.approvals), RestoreFacts(cp.brain);
    if rows.Some? && table.Some? && facts.Some? && CitesHold(facts.value, rows.value) then
      Some(Gate(table.value, rows.value, facts.value))
    else None
  }

  // ----- what is put back -----

  lemma {:induction false} RowsComeBack(rows: seq<Row>)
    ensures RestoreRows(rows) ==
            if forall k :: 0 <= k < |rows| ==> rows[k].number == k + 1 && Recordable(rows[k].reason)
            then Some(rows) else None
  {
    if rows == [] {
    } else {
      var init, last := rows[..|rows| - 1], rows[|rows| - 1];
      RowsComeBack(init);
      assert rows == init + [last];
      if last.number == |rows| { assert last.(number := |init| + 1) == last; }
    }
  }

  lemma {:induction false} FactsComeBack(facts: seq<Fact>)
    ensures RestoreFacts(facts) ==
            if forall k :: 0 <= k < |facts| ==> facts[k].id == FactId(k + 1) && facts[k].cites != []
            then Some(facts) else None
  {
    if facts == [] {
    } else {
      var init, last := facts[..|facts| - 1], facts[|facts| - 1];
      assert facts == init + [last];
      FactsComeBack(init);
      OneMoreFact(init, last);
    }
  }

  lemma OneMoreFact(init: seq<Fact>, last: Fact)
    ensures RestoreFacts(init + [last]) ==
            if RestoreFacts(init).None? then None
            else
              var admitted := Admit(RestoreFacts(init).value, last.claim, last.cites, last.learnedIn);
              if admitted.Some? && last.id == FactId(|init| + 1) then admitted else None
    ensures last.id == FactId(|init| + 1) && last.cites != [] ==>
              Admit(init, last.claim, last.cites, last.learnedIn) == Some(init + [last])
  {
    assert (init + [last])[..|init|] == init;
    if last.id == FactId(|init| + 1) {
      assert Fact(FactId(|init| + 1), last.claim, last.cites, last.learnedIn) == last;
    }
  }

  /** The part of a table that was set first. */
  function FirstCards(t: Table, n: nat): Table
    requires n <= |t.order|
  {
    Table(map id | id in t.order[..n] && id in t.cards :: t.cards[id], t.order[..n])
  }

  ghost predicate SpentGranted(cards: map<string, Card>, ids: seq<string>) {
    forall id :: id in ids && id in cards && cards[id].consumedAt.Some? ==> cards[id].status == Granted
  }

  ghost predicate HeadsRight(t: Table) {
    forall id :: id in t.cards ==> CardHead(t.cards[id]) <= t.cards[id].describe
  }

  lemma NextCard(t: Table, n: nat)
    requires Ordered(t) && n < |t.order|
    ensures t.order[n] !in FirstCards(t, n).cards
    ensures Set(FirstCards(t, n), t.cards[t.order[n]]) == FirstCards(t, n + 1)
  {
    assert t.order[..n + 1] == t.order[..n] + [t.order[n]];
    assert forall i :: 0 <= i < n ==> t.order[i] != t.order[n];
  }

  lemma {:induction false} CardsComeBack(t: Table, n: nat)
    requires Ordered(t) && HeadsRight(t) && n <= |t.order|
    ensures forall id :: id in t.order[..n] ==> id in t.cards
    ensures RestoreCards(CardRows(t.cards, t.order[..n])) ==
            if SpentGranted(t.cards, t.order[..n]) then Some(FirstCards(t, n)) else None
  {
    if n > 0 {
      CardsComeBack(t, n - 1);
      NextCard(t, n - 1);
      var last := t.cards[t.order[n - 1]];
      assert t.order[..n][..n - 1] == t.order[..n - 1] && t.order[..n] == t.order[..n - 1] + [t.order[n - 1]];
      var cards := CardRows(t.cards, t.order[..n]);
      assert cards == CardRows(t.cards, t.order[..n - 1]) + [last];
      assert cards[..|cards| - 1] == CardRows(t.cards, t.order[..n - 1]);
    } else {
      assert FirstCards(t, 0) == Table(map[], []);
    }
  }

  lemma WholeTable(t: Table)
    requires Ordered(t)
    ensures FirstCards(t, |t.order|) == t && t.order[..|t.order|] == t.order
  {
    assert FirstCards(t, |t.order|).cards == t.cards;
  }

  lemma DescribeStarts(origin: string, tool: string, params: seq<Field>)
    ensures origin + "/" + tool + "(" <= Describe(origin, tool, params)
  {
  }

  lemma SoundTable(w: World)
    requires CardsSound(w)
    ensures Ordered(w.gate.table) && HeadsRight(w.gate.table)
  {
    forall id | id in w.gate.table.cards
      ensures w.gate.table.cards[id].id == id && CardHead(w.gate.table.cards[id]) <= w.gate.table.cards[id].describe
    {
      assert CardAsAsked(w, id);
      var card := w.gate.table.cards[id];
      DescribeStarts(card.origin, card.tool, w.asked[id].params);
    }
  }

  ghost predicate NoneSpentUngranted(t: Table) {
    forall id :: id in t.cards && t.cards[id].consumedAt.Some? ==> t.cards[id].status == Granted
  }

  lemma SoundRecord(w: World)
    requires Sound(w)
    ensures RestoreRows(w.gate.rows) == Some(w.gate.rows) && RestoreFacts(w.gate.facts) == Some(w.gate.facts)
    ensures CitesHold(w.gate.facts, w.gate.rows)
  {
    forall k | 0 <= k < |w.gate.rows| ensures w.gate.rows[k].number == k + 1 && Recordable(w.gate.rows[k].reason) {
      assert RowSound(w, k);
    }
    RowsComeBack(w.gate.rows);
    forall k | 0 <= k < |w.gate.facts|
      ensures w.gate.facts[k].id == FactId(k + 1) && w.gate.facts[k].cites != []
      ensures forall i :: 0 <= i < |w.gate.facts[k].cites| ==> 0 < w.gate.facts[k].cites[i] <= |w.gate.rows|
    {
      assert FactSound(w.gate.facts, |w.gate.rows|, k);
      forall i | 0 <= i < |w.gate.facts[k].cites| ensures 0 < w.gate.facts[k].cites[i] <= |w.gate.rows| {
        assert w.gate.facts[k].cites[i] in w.gate.facts[k].cites;
      }
    }
    FactsComeBack(w.gate.facts);
  }

  /**
   A reachable state, captured and restored into empty holders, comes back equal, with its spent cards spent and
   every fact citing a row that is there. It is refused exactly when some spent card is no longer a granted one.
   */
  lemma RestoreGivesBack(w: World)
    requires Sound(w)
    ensures Ordered(w.gate.table)
    ensures RestoreState(Capture(w.gate)) == if NoneSpentUngranted(w.gate.table) then Some(w.gate) else None
  {
    SoundTable(w);
    var t := w.gate.table;
    CardsComeBack(t, |t.order|);
    WholeTable(t);
    SoundRecord(w);
    assert SpentGranted(t.cards, t.order) == NoneSpentUngranted(t);
  }

  /** Cards are answered only while they are pending. */
  ghost predicate AnswersPending(events: seq<Event>)
    requires Possible(events)
  {
    events == [] ||
    (&& AnswersPending(events[..|events| - 1])
     && var last, cards := events[|events| - 1], After(events[..|events| - 1]).gate.table.cards;
        last.Answered? && last.id in cards ==> cards[last.id].status == Pending)
  }

  lemma EnteringTable(w: World, n: nat, call: Call, v: Verdicts, now: nat)
    requires n !in w.calls
    ensures Next(w, Entering(n, call, v, now)).gate.table == Enter(w.gate, call, v, now).gate.table
  {
  }

  lemma EnterKeepsSpentGranted(g: Gate, call: Call, v: Verdicts, now: nat)
    requires NoneSpentUngranted(g.table)
    ensures NoneSpentUngranted(Enter(g, call, v, now).gate.table)
  {
    EnterSpends(g, call, v, now);
  }

  lemma StepKeepsSpentGranted(w: World, e: Event)
    requires Sound(w) && Enabled(w, e) && NoneSpentUngranted(w.gate.table)
    requires e.Answered? && e.id in w.gate.table.cards ==> w.gate.table.cards[e.id].status == Pending
    ensures NoneSpentUngranted(Next(w, e).gate.table)
  {
    match e
    case Asked(id, ask) =>
    case Answered(id, status) =>
    case Entering(n, call, v, now) =>
      EnteringTable(w, n, call, v, now);
      EnterKeepsSpentGranted(w.gate, call, v, now);
    case _ => assert Next(w, e).gate.table == w.gate.table;
  }

  lemma {:induction false} RunsSpendGranted(events: seq<Event>)
    requires Possible(events) && AnswersPending(events)
    ensures NoneSpentUngranted(After(events).gate.table)
  {
    if events == [] {
    } else {
      var init := events[..|events| - 1];
      RunsSpendGranted(init);
      StepKeepsSpentGranted(After(init), events[|events| - 1]);
    }
  }

  /** Every run that answers cards only while they are pending can be saved and put back as it was. */
  lemma CheckpointRoundTrip(events: seq<Event>)
    requires Possible(events) && AnswersPending(events)
    ensures Ordered(After(events).gate.table)
    ensures RestoreState(Capture(After(events).gate)) == Some(After(events).gate)
  {
    RunsSpendGranted(events);
    RestoreGivesBack(After(events));
  }

  /** A card declined after it was spent makes every later checkpoint one that restore refuses. */
  lemma LateDeclineIsRefused(w: World, id: string)
    requires Sound(w) && id in w.gate.table.cards && w.gate.table.cards[id].consumedAt.Some?
    ensures Enabled(w, Answered(id, Denied)) && Ordered(Next(w, Answered(id, Denied)).gate.table)
    ensures RestoreState(Capture(Next(w, Answered(id, Denied)).gate)) == None
  {
    NextKeepsSound(w, Answered(id, Denied));
    RestoreGivesBack(Next(w, Answered(id, Denied)));
    assert id in Next(w, Answered(id, Denied)).gate.table.cards;
  }

  lemma OneMore(events: seq<Event>, e: Event)
    requires Possible(events) && Enabled(After(events), e)
    ensures Possible(events + [e]) && After(events + [e]) == Next(After(events), e)
  {
    assert (events + [e])[..|events + [e]| - 1] == events;
  }

  /** Ask for a card, grant it, and run the call it was asked for. */
  function Spend(id: string, ask: Ask, now: nat): seq<Event> {
    [] + [Asked(id, ask)] + [Answered(id, Granted)]
    + [Entering(0, Call(ask.origin, ask.origin, 1, ask.tool, true, ask.params, Some(id), None),
                Verdicts(false, false, None), now)]
  }

  lemma SpendGrants(id: string, ask: Ask)
    requires id != ""
    ensures var events := [] + [Asked(id, ask)] + [Answered(id, Granted)];
            && Possible(events) && After(events).calls == map[] && id in After(events).gate.table.cards
            && After(events).gate.table.cards[id] ==
               Card(id, ask.origin, ask.tool, Describe(ask.origin, ask.tool, ask.params), Granted, None)
  {
    assert Possible([]);
    OneMore([], Asked(id, ask));
    OneMore([] + [Asked(id, ask)], Answered(id, Granted));
  }

  lemma SpendSpends(id: string, ask: Ask, now: nat)
    requires id != ""
    ensures Possible(Spend(id, ask, now))
    ensures var t := After(Spend(id, ask, now)).gate.table; id in t.cards && t.cards[id].consumedAt == Some(now)
  {
    SpendGrants(id, ask);
    var events := [] + [Asked(id, ask)] + [Answered(id, Granted)];
    var w, call := After(events), Call(ask.origin, ask.origin, 1, ask.tool, true, ask.params, Some(id), None);
    var v := Verdicts(false, false, None);
    OneMore(events, Entering(0, call, v, now));
    EnteringTable(w, 0, call, v, now);
    EnterSpends(w.gate, call, v, now);
    GatedNeedsItsCard(w.gate, call, v, now);
  }

  /** Such a run, for any card: asked for, granted, spent, and then declined. */
  lemma LateDeclineHappens(id: string, ask: Ask, now: nat)
    requires id != ""
    ensures Possible(Spend(id, ask, now) + [Answered(id, Denied)])
    ensures Ordered(After(Spend(id, ask, now) + [Answered(id, Denied)]).gate.table)
    ensures RestoreState(Capture(After(Spend(id, ask, now) + [Answered(id, Denied)]).gate)) == None
  {
    SpendSpends(id, ask, now);
    LateDeclineIsRefused(After(Spend(id, ask, now)), id);
    OneMore(Spend(id, ask, now), Answered(id, Denied));
  }

  // ----- what a checkpoint can put in -----

  ghost predicate Lawful(t: Table) {
    Ordered(t) && HeadsRight(t) && NoneSpentUngranted(t)
  }

  lemma SetIsLawful(t: Table, card: Card)
    requires Lawful(t) && CardFits(t, card)
    ensures Lawful(Set(t, card)) && Set(t, card) == Table(t.cards[card.id := card], t.order + [card.id])
  {
    assert card.id !in t.order;
  }

  lemma OneMoreCard(t: Table, card: Card)
    requires Ordered(t) && card.id !in t.cards
    ensures forall id :: id in t.order + [card.id] ==> id in t.cards[card.id := card]
    ensures CardRows(t.cards[card.id := card], t.order + [card.id]) == CardRows(t.cards, t.order) + [card]
  {
    assert (t.order + [card.id])[..|t.order|] == t.order;
    SameCards(t.cards, t.cards[card.id := card], t.order);
  }

  /** `t` is a lawful table holding just these cards, in this order. */
  ghost predicate Holds(t: Table, cards: seq<Card>) {
    Lawful(t) && CardRows(t.cards, t.order) == cards
  }

  lemma {:induction false} RestoredCards(cards: seq<Card>, t: Table)
    requires RestoreCards(cards) == Some(t)
    ensures Holds(t, cards)
    decreases |cards|
  {
    if cards == [] {
      NothingRestored(t);
    } else {
      var before, init, last := LastWasSet(cards, t);
      RestoredCards(init, before);
      RestoredSnoc(before, init, last);
    }
  }

  lemma NothingRestored(t: Table)
    requires RestoreCards([]) == Some(t)
    ensures Holds(t, [])
  {
  }

  lemma LastWasSet(cards: seq<Card>, t: Table) returns (before: Table, init: seq<Card>, last: Card)
    requires cards != [] && RestoreCards(cards) == Some(t)
    ensures |init| < |cards| && cards == init + [last]
    ensures RestoreCards(init) == Some(before) && CardFits(before, last) && t == Set(before, last)
  {
    init, last := cards[..|cards| - 1], cards[|cards| - 1];
    before := RestoreCards(init).value;
  }

  lemma RestoredSnoc(before: Table, init: seq<Card>, last: Card)
    requires Holds(before, init) && CardFits(before, last)
    ensures Holds(Set(before, last), init + [last])
  {
    SetIsLawful(before, last);
    OneMoreCard(before, last);
  }

  lemma {:induction false} SameCards(a: map<string, Card>, b: map<string, Card>, order: seq<string>)
    requires forall id :: id in order ==> id in a && id in b && a[id] == b[id]
    ensures CardRows(a, order) == CardRows(b, order)
  {
    if order == [] {
    } else {
      SameCards(a, b, order[..|order| - 1]);
    }
  }

  /** Whatever was written into a checkpoint by hand, what restores is lawful, and is all the checkpoint said. */
  lemma RestoredIsLawful(cp: Checkpoint)
    requires RestoreState(cp).Some?
    ensures var g := RestoreState(cp).value;
            && Ordered(g.table) && Capture(g) == cp && NoneSpentUngranted(g.table)
            && (forall k :: 0 <= k < |g.rows| ==> g.rows[k].number == k + 1 && Recordable(g.rows[k].reason))
            && FactsSound(g.facts, |g.rows|)
  {
    RestoredCards(cp.approvals, RestoreCards(cp.approvals).value);
    RowsComeBack(cp.ledger);
    FactsComeBack(cp.brain);
    var g := RestoreState(cp).value;
    forall k | 0 <= k < |g.facts| ensures FactSound(g.facts, |g.rows|, k) {
    }
  }
}
