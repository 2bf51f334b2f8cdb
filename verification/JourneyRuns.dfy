/**
 Every run of the gate: cards asked for and answered, and calls that enter, wait on their transport while
 others run, and leave. The history kept beside the state is what the properties speak of.
 */
module JourneyRuns {
  import opened JourneyDescribe
  import opened JourneyGate
  import opened Lists
  import opened Options

  /** What a card was asked for. */
  datatype Ask = Ask(origin: string, tool: string, params: seq<Field>)

  /**
   The gate and its history: what each card was asked for, every call, the card each gated call passed with (as
   it was found), the calls still awaiting their transport, how the others ended, and whose row each row is.
   */
  datatype World = World(
    gate: Gate, asked: map<string, Ask>, calls: map<nat, Call>, passes: map<nat, Card>,
    waiting: map<nat, Option<string>>, ended: map<nat, Option<string>>, owners: seq<nat>)

  const EMPTY := World(Gate(Table(map[], []), [], []), map[], map[], map[], map[], map[], [])

  datatype Event =
    | Asked(id: string, ask: Ask)
    | Answered(id: string, status: Status)
    | Entering(n: nat, call: Call, verdicts: Verdicts, now: nat)
    | Leaving(n: nat, answer: TransportAnswer)
    | Learned(claim: string, cites: seq<nat>, app: string)

  /** Ids are fresh and non-empty, a call enters once, its transport answers once, and a fact cites rows there are. */
  predicate Enabled(w: World, e: Event) {
    match e
    case Asked(id, _) => id != "" && id !in w.gate.table.cards
    case Answered(_, status) => status != Pending
    case Entering(n, _, _, _) => n !in w.calls
    case Leaving(n, _) => n in w.waiting && n in w.calls
    case Learned(_, cites, _) => forall c :: c in cites ==> 0 < c <= |w.gate.rows|
  }

  function Ended(w: World, n: nat, gate: Gate, reason: Option<string>): World {
    w.(gate := gate, waiting := w.waiting - {n}, ended := w.ended[n := reason],
       owners := if Recordable(reason) then w.owners + [n] else w.owners)
  }

  /** The card a call passed the approval with, if it was a gated call and got past it. */
  function PassedWith(w: World, call: Call, entered: Entered): Option<Card> {
    if call.gated && !(entered.Turned? && (entered.stage == Validate || entered.stage == Approval))
       && call.approval.Some? && call.approval.value in w.gate.table.cards
    then Some(w.gate.table.cards[call.approval.value]) else None
  }

  function EnterCall(w: World, n: nat, call: Call, entered: Entered): World {
    var passed := PassedWith(w, call, entered);
    var known := w.(calls := w.calls[n := call],
                    passes := if passed.Some? then w.passes[n := passed.value] else w.passes);
    match entered
    case Turned(gate, _, reason) => Ended(known, n, gate, Some(reason))
    case Waiting(gate, card) => known.(gate := gate, waiting := w.waiting[n := card])
  }

  function Next(w: World, e: Event): World
    requires Enabled(w, e)
  {
    match e
    case Asked(id, ask) =>
      w.(gate := w.gate.(table := Request(w.gate.table, id, ask.origin, ask.tool, ask.params)),
         asked := w.asked[id := ask])
    case Answered(id, status) =>
      (match Answer(w.gate.table, id, status)
       case Some(table) => w.(gate := w.gate.(table := table))
       case None => w)
    case Entering(n, call, v, now) => EnterCall(w, n, call, Enter(w.gate, call, v, now))
    case Leaving(n, answer) => Ended(w, n, Leave(w.gate, w.calls[n], w.waiting[n], answer), EndReason(answer))
    case Learned(claim, cites, app) =>
      (match Admit(w.gate.facts, claim, cites, app)
       case Some(facts) => w.(gate := w.gate.(facts := facts))
       case None => w)
  }

  // ----- the invariant -----

  /** A card is what it was asked to be. */
  ghost predicate CardAsAsked(w: World, id: string)
    requires id in w.gate.table.cards
  {
    var card := w.gate.table.cards[id];
    && id != "" && card.id == id && id in w.asked
    && card.origin == w.asked[id].origin && card.tool == w.asked[id].tool
    && card.describe == Describe(card.origin, card.tool, w.asked[id].params)
  }

  ghost predicate CardsSound(w: World) {
    && (forall id :: id in w.gate.table.cards ==> CardAsAsked(w, id))
    && Distinct(w.gate.table.order) && (forall id :: id in w.gate.table.order <==> id in w.gate.table.cards)
  }

  /** A call past the approval had its own granted, unspent card, now spent. */
  ghost predicate PassSound(w: World, n: nat)
    requires n in w.passes
  {
    var card := w.passes[n];
    && n in w.calls && w.calls[n].gated && w.calls[n].approval == Some(card.id)
    && card.status == Granted && card.consumedAt.None?
    && card.describe == Describe(w.calls[n].origin, w.calls[n].name, w.calls[n].params)
    && card.id in w.gate.table.cards && w.gate.table.cards[card.id].consumedAt.Some?
    && w.gate.table.cards[card.id].describe == card.describe
  }

  ghost predicate PassesSound(w: World) {
    && (forall n :: n in w.passes ==> PassSound(w, n))
    && (forall j, k :: j in w.passes && k in w.passes && w.passes[j].id == w.passes[k].id ==> j == k)
  }

  ghost predicate CallSound(w: World, n: nat)
    requires n in w.calls
  {
    && (n in w.waiting <==> n !in w.ended)
    && (n in w.waiting ==>
          if w.calls[n].gated then n in w.passes && w.waiting[n] == Some(w.passes[n].id) else w.waiting[n] == None)
    && (n in w.ended && w.ended[n].None? && w.calls[n].gated ==> n in w.passes)
  }

  ghost predicate CallsSound(w: World) {
    && (forall n :: n in w.calls ==> CallSound(w, n))
    && (forall n :: n in w.waiting || n in w.ended || n in w.passes ==> n in w.calls)
  }

  /** The row a call that ended for this reason leaves. */
  function RowFor(w: World, n: nat): Row
    requires n in w.calls && n in w.ended
  {
    if w.ended[n].Some? then RefusalRow(w.calls[n], w.ended[n].value)
    else OkRow(w.calls[n], if n in w.passes then Some(w.passes[n].id) else None)
  }

  ghost predicate RowSound(w: World, k: nat)
    requires k < |w.owners| == |w.gate.rows|
  {
    && w.owners[k] in w.calls && w.owners[k] in w.ended && Recordable(w.ended[w.owners[k]])
    && w.gate.rows[k] == RowFor(w, w.owners[k]).(number := k + 1)
  }

  ghost predicate RowsSound(w: World) {
    && |w.owners| == |w.gate.rows| && Distinct(w.owners)
    && (forall k :: 0 <= k < |w.owners| ==> RowSound(w, k))
    && (forall n :: n in w.ended && Recordable(w.ended[n]) ==> n in w.owners)
  }

  ghost predicate FactSound(facts: seq<Fact>, rows: nat, k: nat)
    requires k < |facts|
  {
    && facts[k].id == FactId(k + 1) && facts[k].cites != []
    && forall c :: c in facts[k].cites ==> 0 < c <= rows
  }

  ghost predicate FactsSound(facts: seq<Fact>, rows: nat) {
    forall k :: 0 <= k < |facts| ==> FactSound(facts, rows, k)
  }

  ghost predicate Sound(w: World) {
    CardsSound(w) && PassesSound(w) && CallsSound(w) && RowsSound(w) && FactsSound(w.gate.facts, |w.gate.rows|)
  }

  // ----- frames -----

  lemma CallsFrame(w: World, t: World)
    requires CallsSound(w) && t.calls == w.calls && t.waiting == w.waiting && t.ended == w.ended && t.passes == w.passes
    ensures CallsSound(t)
  {
    forall n | n in t.calls ensures CallSound(t, n) { assert CallSound(w, n); }
  }

  lemma RowsFrame(w: World, t: World)
    requires RowsSound(w) && t.calls == w.calls && t.ended == w.ended && t.passes == w.passes
    requires t.owners == w.owners && t.gate.rows == w.gate.rows
    ensures RowsSound(t)
  {
    forall k | 0 <= k < |t.owners| ensures RowSound(t, k) { assert RowSound(w, k); }
  }

  /** Every card of `w` is in `t`, no less spent and described the same. */
  ghost predicate CardsRemain(w: World, t: World) {
    forall id :: id in w.gate.table.cards ==>
      && id in t.gate.table.cards && t.gate.table.cards[id].describe == w.gate.table.cards[id].describe
      && (w.gate.table.cards[id].consumedAt.Some? ==> t.gate.table.cards[id].consumedAt.Some?)
  }

  lemma PassesFrame(w: World, t: World)
    requires PassesSound(w) && t.passes == w.passes && t.calls == w.calls && CardsRemain(w, t)
    ensures PassesSound(t)
  {
    forall n | n in t.passes ensures PassSound(t, n) { assert PassSound(w, n); }
  }

  lemma CardsFrame(w: World, t: World)
    requires CardsSound(w) && t.gate.table == w.gate.table && t.asked == w.asked
    ensures CardsSound(t) && CardsRemain(w, t)
  {
    forall x | x in t.gate.table.cards ensures CardAsAsked(t, x) { assert CardAsAsked(w, x); }
  }

  lemma MoreRowsKeepFacts(facts: seq<Fact>, rows: nat, more: nat)
    requires FactsSound(facts, rows) && rows <= more
    ensures FactsSound(facts, more)
  {
    forall k | 0 <= k < |facts| ensures FactSound(facts, more, k) {
      assert FactSound(facts, rows, k);
    }
  }

  // ----- each event keeps it -----

  lemma AskedKeepsCards(w: World, id: string, ask: Ask)
    requires CardsSound(w) && Enabled(w, Asked(id, ask))
    ensures CardsSound(Next(w, Asked(id, ask))) && CardsRemain(w, Next(w, Asked(id, ask)))
  {
    var t := Next(w, Asked(id, ask));
    forall x | x in t.gate.table.cards ensures CardAsAsked(t, x) {
      if x != id { assert CardAsAsked(w, x); }
    }
  }

  lemma AskedKeepsSound(w: World, id: string, ask: Ask)
    requires Sound(w) && Enabled(w, Asked(id, ask))
    ensures Sound(Next(w, Asked(id, ask)))
  {
    AskedKeepsCards(w, id, ask);
    TableMoved(w, Next(w, Asked(id, ask)));
  }

  lemma AnsweredKeepsCards(w: World, id: string, status: Status)
    requires CardsSound(w) && Enabled(w, Answered(id, status))
    ensures CardsSound(Next(w, Answered(id, status))) && CardsRemain(w, Next(w, Answered(id, status)))
  {
    if id in w.gate.table.cards {
      ReanswerKeepsCards(w, id, status);
    }
  }

  lemma ReanswerKeepsCards(w: World, id: string, status: Status)
    requires CardsSound(w) && id in w.gate.table.cards
    ensures var table := w.gate.table.(cards := w.gate.table.cards[id := w.gate.table.cards[id].(status := status)]);
            var t := w.(gate := w.gate.(table := table)); CardsSound(t) && CardsRemain(w, t)
  {
    var table := w.gate.table.(cards := w.gate.table.cards[id := w.gate.table.cards[id].(status := status)]);
    var t := w.(gate := w.gate.(table := table));
    forall x | x in t.gate.table.cards ensures CardAsAsked(t, x) { assert CardAsAsked(w, x); }
  }

  /** Only the approval table moved. */
  lemma TableMoved(w: World, t: World)
    requires Sound(w) && CardsSound(t) && CardsRemain(w, t)
    requires t.calls == w.calls && t.passes == w.passes && t.waiting == w.waiting && t.ended == w.ended
             && t.owners == w.owners
    requires t.gate.rows == w.gate.rows && t.gate.facts == w.gate.facts
    ensures Sound(t)
  {
    PassesFrame(w, t);
    CallsFrame(w, t);
    RowsFrame(w, t);
  }

  lemma AnsweredKeepsSound(w: World, id: string, status: Status)
    requires Sound(w) && Enabled(w, Answered(id, status))
    ensures Sound(Next(w, Answered(id, status)))
  {
    if id in w.gate.table.cards {
      AnsweredKeepsCards(w, id, status);
      TableMoved(w, Next(w, Answered(id, status)));
    }
  }

  lemma AdmitKeepsFacts(facts: seq<Fact>, rows: nat, claim: string, cites: seq<nat>, app: string)
    requires FactsSound(facts, rows) && forall c :: c in cites ==> 0 < c <= rows
    ensures Admit(facts, claim, cites, app).Some? ==> FactsSound(Admit(facts, claim, cites, app).value, rows)
  {
    if cites == [] {
    } else {
      var more := Admit(facts, claim, cites, app).value;
      forall k | 0 <= k < |more| ensures FactSound(more, rows, k) {
        if k < |facts| { assert FactSound(facts, rows, k); }
      }
    }
  }

  lemma FactsMoved(w: World, facts: seq<Fact>)
    requires Sound(w) && FactsSound(facts, |w.gate.rows|)
    ensures Sound(w.(gate := w.gate.(facts := facts)))
  {
    var t := w.(gate := w.gate.(facts := facts));
    CardsFrame(w, t);
    PassesFrame(w, t);
    CallsFrame(w, t);
    RowsFrame(w, t);
  }

  lemma LearnedKeepsSound(w: World, claim: string, cites: seq<nat>, app: string)
    requires Sound(w) && Enabled(w, Learned(claim, cites, app))
    ensures Sound(Next(w, Learned(claim, cites, app)))
  {
    if cites == [] {
    } else {
      AdmitKeepsFacts(w.gate.facts, |w.gate.rows|, claim, cites, app);
      FactsMoved(w, Admit(w.gate.facts, claim, cites, app).value);
    }
  }

  /** A call ends: its row, if the record takes it, is the one row it leaves. */
  lemma EndKeepsRows(w: World, n: nat, gate: Gate, reason: Option<string>, row: Row)
    requires RowsSound(w) && n in w.calls && n !in w.ended && gate.rows == Recorded(w.gate, row).rows
    requires row == RowFor(w.(ended := w.ended[n := reason]), n) && row.reason == reason
    ensures RowsSound(Ended(w, n, gate, reason))
  {
    var t := Ended(w, n, gate, reason);
    forall k | 0 <= k < |t.owners| ensures RowSound(t, k) {
      if k < |w.owners| { EarlierRow(w, n, gate, reason, k); }
    }
    assert n !in w.owners by {
      forall k | 0 <= k < |w.owners| ensures w.owners[k] != n { assert RowSound(w, k); }
    }
    if Recordable(reason) {
      assert t.owners[|w.owners|] == n;
    }
  }

  lemma EarlierRow(w: World, n: nat, gate: Gate, reason: Option<string>, k: nat)
    requires RowsSound(w) && n in w.calls && n !in w.ended && k < |w.owners|
    requires |gate.rows| == |Ended(w, n, gate, reason).owners| && gate.rows[k] == w.gate.rows[k]
    ensures RowSound(Ended(w, n, gate, reason), k)
  {
    assert RowSound(w, k);
  }

  lemma LeavingKeepsCalls(w: World, n: nat, gate: Gate, reason: Option<string>)
    requires CallsSound(w) && n in w.waiting && n in w.calls
    ensures CallsSound(Ended(w, n, gate, reason))
  {
    var t := Ended(w, n, gate, reason);
    assert CallSound(w, n);
    forall m | m in t.calls ensures CallSound(t, m) { assert CallSound(w, m); }
  }

  lemma LeavingKeepsSound(w: World, n: nat, answer: TransportAnswer)
    requires Sound(w) && Enabled(w, Leaving(n, answer))
    ensures Sound(Next(w, Leaving(n, answer)))
  {
    var t, reason := Next(w, Leaving(n, answer)), EndReason(answer);
    assert CallSound(w, n);
    var row := if reason.None? then OkRow(w.calls[n], w.waiting[n]) else RefusalRow(w.calls[n], reason.value);
    EndKeepsRows(w, n, t.gate, reason, row);
    LeavingKeepsCalls(w, n, t.gate, reason);
    CardsFrame(w, t);
    PassesFrame(w, t);
    MoreRowsKeepFacts(w.gate.facts, |w.gate.rows|, |t.gate.rows|);
  }

  /** The gate spends at most the card the call cites, and touches no other. */
  lemma EnterSpends(g: Gate, call: Call, v: Verdicts, now: nat)
    ensures var e := Enter(g, call, v, now);
            && e.gate.facts == g.facts
            && (if call.gated && !(e.Turned? && (e.stage == Validate || e.stage == Approval))
                then && call.approval.Some? && call.approval.value in g.table.cards
                     && var id := call.approval.value; var card := g.table.cards[id];
                        && card.status == Granted && card.consumedAt.None?
                        && card.describe == Describe(call.origin, call.name, call.params)
                        && e.gate.table == g.table.(cards := g.table.cards[id := card.(consumedAt := Some(now))])
                        && (e.Waiting? ==> e.card == Some(id))
                else e.gate.table == g.table && (e.Waiting? ==> !call.gated && e.card == None))
  {
  }

  lemma EnterRecords(g: Gate, call: Call, v: Verdicts, now: nat)
    ensures var e := Enter(g, call, v, now);
            if e.Turned? then e.gate == Recorded(g.(table := e.gate.table), RefusalRow(call, e.reason))
            else e.gate.rows == g.rows
  {
  }

  /** The world once the call is known and its card spent, before it ends or waits. */
  function Known(w: World, n: nat, call: Call, entered: Entered): World {
    var passed := PassedWith(w, call, entered);
    w.(gate := w.gate.(table := entered.gate.table), calls := w.calls[n := call],
       passes := if passed.Some? then w.passes[n := passed.value] else w.passes)
  }

  lemma EnteringKeepsCards(w: World, n: nat, call: Call, v: Verdicts, now: nat)
    requires Sound(w) && n !in w.calls
    ensures var t := Known(w, n, call, Enter(w.gate, call, v, now)); CardsSound(t)
  {
    EnterSpends(w.gate, call, v, now);
    var t := Known(w, n, call, Enter(w.gate, call, v, now));
    forall x | x in t.gate.table.cards ensures CardAsAsked(t, x) { assert CardAsAsked(w, x); }
  }

  /** The new pass is the call's own card, found granted and unspent. */
  lemma NewPass(w: World, n: nat, call: Call, v: Verdicts, now: nat)
    requires CardsSound(w) && n !in w.calls
    ensures var entered := Enter(w.gate, call, v, now);
            var t, passed := Known(w, n, call, entered), PassedWith(w, call, entered);
            && CardsRemain(w, t)
            && (passed.Some? ==>
                  && PassSound(t, n) && call.approval == Some(passed.value.id)
                  && w.gate.table.cards[passed.value.id] == passed.value)
  {
    EnterSpends(w.gate, call, v, now);
    if call.approval.Some? && call.approval.value in w.gate.table.cards { assert CardAsAsked(w, call.approval.value); }
  }

  lemma JoinsPasses(w: World, n: nat, t: World)
    requires PassesSound(w) && CardsRemain(w, t) && n !in w.passes
    requires forall m :: m in w.calls && m != n ==> m in t.calls && t.calls[m] == w.calls[m]
    requires t.passes == w.passes || (n in t.passes && t.passes == w.passes[n := t.passes[n]])
    requires n in t.passes ==> PassSound(t, n) && forall k :: k in w.passes ==> w.passes[k].id != t.passes[n].id
    ensures PassesSound(t)
  {
    forall m | m in t.passes ensures PassSound(t, m) {
      if m != n { OlderPass(w, t, m); }
    }
  }

  lemma EnteringKeepsPasses(w: World, n: nat, call: Call, v: Verdicts, now: nat)
    requires CardsSound(w) && PassesSound(w) && n !in w.calls && n !in w.passes
    ensures PassesSound(Known(w, n, call, Enter(w.gate, call, v, now)))
  {
    var t := Known(w, n, call, Enter(w.gate, call, v, now));
    NewPass(w, n, call, v, now);
    if n in t.passes {
      UnspentIsNew(w, t.passes[n].id);
    }
    JoinsPasses(w, n, t);
  }

  lemma UnspentIsNew(w: World, id: string)
    requires PassesSound(w) && id in w.gate.table.cards && w.gate.table.cards[id].consumedAt.None?
    ensures forall k :: k in w.passes ==> w.passes[k].id != id
  {
    forall k | k in w.passes ensures w.passes[k].id != id { assert PassSound(w, k); }
  }

  lemma OlderPass(w: World, t: World, m: nat)
    requires PassesSound(w) && CardsRemain(w, t) && m in w.passes && m in t.passes && t.passes[m] == w.passes[m]
    requires m in w.calls ==> m in t.calls && t.calls[m] == w.calls[m]
    ensures PassSound(t, m)
  {
    assert PassSound(w, m);
  }

  lemma KnownKeepsRows(w: World, n: nat, call: Call, entered: Entered)
    requires CallsSound(w) && RowsSound(w) && n !in w.calls
    ensures RowsSound(Known(w, n, call, entered))
  {
    var t := Known(w, n, call, entered);
    forall k | 0 <= k < |t.owners| ensures RowSound(t, k) { assert RowSound(w, k); }
  }

  /** Where the call goes from there: it ends with its refusal, or waits. */
  lemma EnteringKeepsRows(w: World, n: nat, call: Call, v: Verdicts, now: nat)
    requires CallsSound(w) && RowsSound(w) && n !in w.calls
    ensures RowsSound(EnterCall(w, n, call, Enter(w.gate, call, v, now)))
  {
    var entered := Enter(w.gate, call, v, now);
    var known, t := Known(w, n, call, entered), EnterCall(w, n, call, entered);
    EnterRecords(w.gate, call, v, now);
    KnownKeepsRows(w, n, call, entered);
    if entered.Turned? {
      EndKeepsRows(known, n, entered.gate, Some(entered.reason), RefusalRow(call, entered.reason));
      RowsFrame(Ended(known, n, entered.gate, Some(entered.reason)), t);
    } else {
      RowsFrame(known, t);
    }
  }

  lemma EnteringKeepsTable(w: World, n: nat, call: Call, v: Verdicts, now: nat)
    requires Sound(w) && n !in w.calls
    ensures var t := EnterCall(w, n, call, Enter(w.gate, call, v, now)); CardsSound(t) && PassesSound(t)
  {
    EnteringKeepsCards(w, n, call, v, now);
    EnteringKeepsPasses(w, n, call, v, now);
    KnownTable(w, n, call, Enter(w.gate, call, v, now));
  }

  lemma KnownTable(w: World, n: nat, call: Call, entered: Entered)
    requires CardsSound(Known(w, n, call, entered)) && PassesSound(Known(w, n, call, entered))
    ensures CardsSound(EnterCall(w, n, call, entered)) && PassesSound(EnterCall(w, n, call, entered))
  {
    var known, t := Known(w, n, call, entered), EnterCall(w, n, call, entered);
    CardsFrame(known, t);
    PassesFrame(known, t);
  }

  lemma EnteringKeepsFacts(w: World, n: nat, call: Call, v: Verdicts, now: nat)
    requires FactsSound(w.gate.facts, |w.gate.rows|)
    ensures var t := EnterCall(w, n, call, Enter(w.gate, call, v, now)); FactsSound(t.gate.facts, |t.gate.rows|)
  {
    var t := EnterCall(w, n, call, Enter(w.gate, call, v, now));
    EnterSpends(w.gate, call, v, now);
    EnterRecords(w.gate, call, v, now);
    MoreRowsKeepFacts(w.gate.facts, |w.gate.rows|, |t.gate.rows|);
  }

  lemma EnteringKeepsSound(w: World, n: nat, call: Call, v: Verdicts, now: nat)
    requires Sound(w) && Enabled(w, Entering(n, call, v, now))
    ensures Sound(Next(w, Entering(n, call, v, now)))
  {
    EnteringKeepsTable(w, n, call, v, now);
    EnteringKeepsRows(w, n, call, v, now);
    EnteringKeepsCalls(w, n, call, v, now);
    EnteringKeepsFacts(w, n, call, v, now);
  }

  lemma NewCall(w: World, n: nat, call: Call, v: Verdicts, now: nat)
    requires CardsSound(w) && CallsSound(w) && n !in w.calls
    ensures CallSound(EnterCall(w, n, call, Enter(w.gate, call, v, now)), n)
  {
    EnterSpends(w.gate, call, v, now);
    if call.approval.Some? && call.approval.value in w.gate.table.cards { assert CardAsAsked(w, call.approval.value); }
  }

  lemma JoinsCalls(w: World, n: nat, call: Call, entered: Entered)
    requires CallsSound(w) && n !in w.calls && CallSound(EnterCall(w, n, call, entered), n)
    ensures CallsSound(EnterCall(w, n, call, entered))
  {
    var t := EnterCall(w, n, call, entered);
    forall m | m in t.calls ensures CallSound(t, m) {
      if m != n { assert CallSound(w, m); }
    }
  }

  lemma EnteringKeepsCalls(w: World, n: nat, call: Call, v: Verdicts, now: nat)
    requires CardsSound(w) && CallsSound(w) && n !in w.calls
    ensures CallsSound(EnterCall(w, n, call, Enter(w.gate, call, v, now)))
  {
    NewCall(w, n, call, v, now);
    JoinsCalls(w, n, call, Enter(w.gate, call, v, now));
  }

  lemma NextKeepsSound(w: World, e: Event)
    requires Sound(w) && Enabled(w, e)
    ensures Sound(Next(w, e))
  {
    match e
    case Asked(id, ask) => AskedKeepsSound(w, id, ask);
    case Answered(id, status) => AnsweredKeepsSound(w, id, status);
    case Entering(n, call, v, now) => EnteringKeepsSound(w, n, call, v, now);
    case Leaving(n, answer) => LeavingKeepsSound(w, n, answer);
    case Learned(claim, cites, app) => LearnedKeepsSound(w, claim, cites, app);
  }

  // ----- runs -----

  /** The events can happen one after another, from nothing. */
  ghost predicate Possible(events: seq<Event>)
    decreases |events|, 0
  {
    events == [] || (Possible(events[..|events| - 1]) && Enabled(After(events[..|events| - 1]), events[|events| - 1]))
  }

  ghost function After(events: seq<Event>): (w: World)
    requires Possible(events)
    ensures Sound(w)
    decreases |events|, 1
  {
    if events == [] then EMPTY
    else
      NextKeepsSound(After(events[..|events| - 1]), events[|events| - 1]);
      Next(After(events[..|events| - 1]), events[|events| - 1])
  }

  /**
   In every run a card lets at most one call past the approval, and no gated call reaches its transport without
   getting past it, on a card found granted, unspent and described as the call is.
   */
  lemma SpentOnce(events: seq<Event>, j: nat, k: nat)
    requires Possible(events)
    ensures var w := After(events);
            && (j in w.passes && k in w.passes && w.passes[j].id == w.passes[k].id ==> j == k)
            && (j in w.calls && w.calls[j].gated && (j in w.waiting || (j in w.ended && w.ended[j] == None)) ==>
                  && j in w.passes && w.passes[j].status == Granted && w.passes[j].consumedAt == None
                  && w.passes[j].describe == Describe(w.calls[j].origin, w.calls[j].name, w.calls[j].params))
  {
    var w := After(events);
    if j in w.calls { assert CallSound(w, j); }
    if j in w.passes { assert PassSound(w, j); }
  }

  predicate SameNaming(origin: string, tool: string, origin': string, tool': string) {
    (SlugNamed(origin, tool) && SlugNamed(origin', tool')) || (UrlNamed(origin, tool) && UrlNamed(origin', tool'))
  }

  /** A gated row marked ok cites a card a person granted for exactly that origin, tool and arguments. */
  lemma OkRowWasGranted(events: seq<Event>, k: nat)
    requires Possible(events) && k < |After(events).gate.rows|
    requires After(events).gate.rows[k].gated && After(events).gate.rows[k].outcome == Ok
    ensures var w := After(events);
            && |w.owners| == |w.gate.rows| && w.owners[k] in w.calls && w.owners[k] in w.passes
            && w.gate.rows[k].approval == Some(w.passes[w.owners[k]].id) && w.passes[w.owners[k]].id in w.asked
            && w.passes[w.owners[k]].status == Granted
    ensures var w := After(events);
            var row, call, ask := w.gate.rows[k], w.calls[w.owners[k]], w.asked[w.passes[w.owners[k]].id];
            && Arguments(call.params) && Arguments(ask.params)
            && SameNaming(ask.origin, ask.tool, call.origin, call.name) ==>
              ask.origin == call.origin && ask.tool == row.tool && SameArguments(ask.params, call.params)
    ensures var w := After(events);
            var row, call, ask := w.gate.rows[k], w.calls[w.owners[k]], w.asked[w.passes[w.owners[k]].id];
            && Arguments(call.params) && Arguments(ask.params)
            && BracketFree(ask.origin, ask.tool) && BracketFree(call.origin, call.name) ==>
              ask.origin + "/" + ask.tool == call.origin + "/" + row.tool && SameArguments(ask.params, call.params)
  {
    var w := After(events);
    var n := w.owners[k];
    assert RowSound(w, k) && CallSound(w, n) && PassSound(w, n);
    assert CardAsAsked(w, w.passes[n].id);
    var call, ask := w.calls[n], w.asked[w.passes[n].id];
    if Arguments(call.params) && Arguments(ask.params) && SameNaming(ask.origin, ask.tool, call.origin, call.name) {
      DescribeBinds(ask.origin, ask.tool, ask.params, call.origin, call.name, call.params);
    }
    if Arguments(call.params) && Arguments(ask.params) && BracketFree(ask.origin, ask.tool)
       && BracketFree(call.origin, call.name) {
      DescribeBindsPath(ask.origin, ask.tool, ask.params, call.origin, call.name, call.params);
    }
  }

  lemma {:induction false} CountDistinct(owners: seq<nat>, n: nat)
    requires Distinct(owners)
    ensures multiset(owners)[n] == if n in owners then 1 else 0
  {
    if owners == [] {
    } else {
      var init, last := owners[..|owners| - 1], owners[|owners| - 1];
      assert owners == init + [last];
      CountDistinct(init, n);
      assert last !in init;
    }
  }

  /** A call has exactly one row once it has ended for a reason in the closed set, and none otherwise. */
  lemma OneRowEach(events: seq<Event>, n: nat)
    requires Possible(events)
    ensures var w := After(events);
            multiset(w.owners)[n] == if n in w.ended && Recordable(w.ended[n]) then 1 else 0
    ensures var w := After(events);
            |w.owners| == |w.gate.rows| &&
            forall k :: 0 <= k < |w.gate.rows| ==>
              && w.owners[k] in w.calls && w.owners[k] in w.ended
              && w.gate.rows[k] == RowFor(w, w.owners[k]).(number := k + 1)
  {
    var w := After(events);
    CountDistinct(w.owners, n);
    forall k | 0 <= k < |w.gate.rows|
      ensures w.owners[k] in w.ended && Recordable(w.ended[w.owners[k]]) && w.owners[k] in w.calls
              && w.gate.rows[k] == RowFor(w, w.owners[k]).(number := k + 1)
    {
      assert RowSound(w, k);
    }
  }

  /**
   Whatever the gate itself refuses is recorded: only an admission or a transport can name a reason the record throws
   at.
   */
  lemma GateReasonsAreRecorded(g: Gate, call: Call, v: Verdicts, now: nat)
    ensures var e := Enter(g, call, v, now);
            e.Turned? && e.stage != Admission ==> |e.gate.rows| == |g.rows| + 1
    ensures var e := Enter(g, call, v, now);
            e.Turned? && e.stage == Admission ==>
              (|e.gate.rows| == |g.rows| + 1 <==> v.notAdmitted.Some? && v.notAdmitted.value in REFUSAL_REASONS)
  {
    assert REFUSAL_REASONS[0] == "user_denied" && REFUSAL_REASONS[2] == "pending_approval"
           && REFUSAL_REASONS[3] == "foreign_origin";
    assert REFUSAL_REASONS[5] == "unknown_ref" && REFUSAL_REASONS[6] == "validator_failed"
           && REFUSAL_REASONS[8] == "approval_spent";
  }
}
