/**
 The journey's state holders as they run: a table of card objects that answers and spends rewrite in place, a
 record and a memory that only grow, and the gate that drives them. Each does what its function says.
 */
module JourneyHolders {
  import opened BridgeBudget
  import opened JourneyCheckpoint
  import opened JourneyDescribe
  import opened JourneyGate
  import opened Options

  class CardCell {
    const id: string
    const origin: string
    const tool: string
    const describe: string
    var status: Status
    var consumedAt: Option<nat>

    function Value(): Card
      reads this
    {
      Card(id, origin, tool, describe, status, consumedAt)
    }

    constructor (card: Card)
      ensures Value() == card
    {
      id, origin, tool, describe, status, consumedAt :=
        card.id, card.origin, card.tool, card.describe, card.status, card.consumedAt;
    }
  }

  class Approvals {
    var cards: map<string, CardCell>
    var order: seq<string>

    ghost predicate Valid()
      reads this, cards.Values
    {
      (forall id :: id in cards ==> cards[id].id == id) && forall id :: id in order ==> id in cards
    }

    ghost function View(): Table
      reads this, cards.Values
    {
      Table(map id | id in cards :: cards[id].Value(), order)
    }

    constructor ()
      ensures Valid() && View() == Table(map[], []) && cards == map[]
    {
      cards, order := map[], [];
    }

    method SetCard(card: Card) returns (cell: CardCell)
      requires Valid()
      modifies this
      ensures Valid() && fresh(cell) && cards == old(cards)[card.id := cell] && View() == Set(old(View()), card)
    {
      cell := new CardCell(card);
      order := if card.id in cards then order else order + [card.id];
      cards := cards[card.id := cell];
    }

    method RequestCard(id: string, origin: string, tool: string, params: seq<Field>) returns (cell: CardCell)
      requires Valid()
      modifies this
      ensures Valid() && fresh(cell) && cards == old(cards)[id := cell]
      ensures View() == Request(old(View()), id, origin, tool, params)
    {
      cell := SetCard(Card(id, origin, tool, Describe(origin, tool, params), Pending, None));
    }

    method AnswerCard(id: string, status: Status) returns (found: bool)
      requires Valid()
      modifies cards.Values
      ensures Valid() && found == (id in cards)
      ensures View() == if found then Answer(old(View()), id, status).value else old(View())
    {
      if id !in cards { return false; }
      cards[id].status := status;
      found := true;
    }

    /** Spends the cited card when every check passes, and otherwise changes no card. */
    method ProveCard(cited: Option<string>, origin: string, tool: string, params: seq<Field>, now: nat)
      returns (refused: Option<string>, card: Option<string>)
      requires Valid()
      modifies cards.Values
      ensures Valid()
      ensures match Prove(old(View()), cited, origin, tool, params, now)
              case NotProved(reason) => refused == Some(reason) && View() == old(View())
              case Spent(t, c) => refused == None && card == Some(c) && View() == t
    {
      if cited.None? || cited.value == "" { return Some("pending_approval"), None; }
      if cited.value !in cards { return Some("unknown_ref"), None; }
      var cell := cards[cited.value];
      if cell.status == Pending { return Some("pending_approval"), None; }
      if cell.status == Denied { return Some("user_denied"), None; }
      if cell.describe != Describe(origin, tool, params) { return Some("validator_failed"), None; }
      if cell.consumedAt.Some? { return Some("approval_spent"), None; }
      cell.consumedAt := Some(now);
      return None, Some(cited.value);
    }

    method Snapshot() returns (rows: seq<Card>)
      requires Valid()
      ensures rows == CardRows(View().cards, View().order)
    {
      rows := [];
      for k := 0 to |order|
        invariant rows == CardRows(View().cards, order[..k])
      {
        assert order[..k + 1][..k] == order[..k];
        rows := rows + [cards[order[k]].Value()];
      }
      assert order[..|order|] == order;
    }

    method Restore(saved: seq<Card>) returns (ok: bool)
      requires Valid()
      modifies this
      ensures Valid()
      ensures old(cards) != map[] ==> !ok && View() == old(View())
      ensures old(cards) == map[] ==> ok == RestoreCards(saved).Some? && (ok ==> View() == RestoreCards(saved).value)
    {
      if cards != map[] { return false; }
      order := [];
      for k := 0 to |saved|
        invariant Valid() && RestoreCards(saved[..k]) == Some(View())
      {
        assert saved[..k + 1][..k] == saved[..k];
        if !CardFits(Table(map id | id in cards :: cards[id].Value(), order), saved[k]) {
          RestoreStops(saved, k + 1);
          return false;
        }
        var _ := SetCard(saved[k]);
      }
      assert saved[..|saved|] == saved;
      ok := true;
    }
  }

  lemma {:induction false} RestoreStops(cards: seq<Card>, k: nat)
    requires k <= |cards| && RestoreCards(cards[..k]) == None
    ensures RestoreCards(cards) == None
  {
    if k < |cards| {
      assert cards[..|cards| - 1][..k] == cards[..k];
      RestoreStops(cards[..|cards| - 1], k);
    } else {
      assert cards[..k] == cards;
    }
  }

  lemma {:induction false} RowsStop(rows: seq<Row>, k: nat)
    requires k <= |rows| && RestoreRows(rows[..k]) == None
    ensures RestoreRows(rows) == None
  {
    if k < |rows| {
      assert rows[..|rows| - 1][..k] == rows[..k];
      RowsStop(rows[..|rows| - 1], k);
    } else {
      assert rows[..k] == rows;
    }
  }

  lemma {:induction false} FactsStop(facts: seq<Fact>, k: nat)
    requires k <= |facts| && RestoreFacts(facts[..k]) == None
    ensures RestoreFacts(facts) == None
  {
    if k < |facts| {
      assert facts[..|facts| - 1][..k] == facts[..k];
      FactsStop(facts[..|facts| - 1], k);
    } else {
      assert facts[..k] == facts;
    }
  }

  class Ledger {
    var rows: seq<Row>

    constructor ()
      ensures rows == []
    {
      rows := [];
    }

    method WriteRow(row: Row) returns (ok: bool)
      modifies this
      ensures ok == Write(old(rows), row).Some? && rows == if ok then Write(old(rows), row).value else old(rows)
    {
      if row.reason.Some? && row.reason.value !in REFUSAL_REASONS { return false; }
      rows := rows + [row.(number := |rows| + 1)];
      ok := true;
    }

    method Restore(saved: seq<Row>) returns (ok: bool)
      modifies this
      ensures old(rows) != [] ==> !ok && rows == old(rows)
      ensures old(rows) == [] ==> ok == RestoreRows(saved).Some? && (ok ==> rows == RestoreRows(saved).value)
    {
      if rows != [] { return false; }
      for k := 0 to |saved|
        invariant |rows| == k && RestoreRows(saved[..k]) == Some(rows)
      {
        assert saved[..k + 1][..k] == saved[..k];
        if saved[k].number != k + 1 {
          RowsStop(saved, k + 1);
          return false;
        }
        var written := WriteRow(saved[k]);
        if !written {
          RowsStop(saved, k + 1);
          return false;
        }
      }
      assert saved[..|saved|] == saved;
      ok := true;
    }
  }

  class Brain {
    var facts: seq<Fact>

    constructor ()
      ensures facts == []
    {
      facts := [];
    }

    method WriteFact(claim: string, cites: seq<nat>, learnedIn: string) returns (ok: bool)
      modifies this
      ensures ok == (cites != [])
      ensures facts == if ok then Admit(old(facts), claim, cites, learnedIn).value else old(facts)
    {
      if cites == [] { return false; }
      facts := facts + [Fact(FactId(|facts| + 1), claim, cites, learnedIn)];
      ok := true;
    }

    method Restore(saved: seq<Fact>) returns (ok: bool)
      modifies this
      ensures old(facts) != [] ==> !ok && facts == old(facts)
      ensures old(facts) == [] ==> ok == RestoreFacts(saved).Some? && (ok ==> facts == RestoreFacts(saved).value)
    {
      if facts != [] { return false; }
      for k := 0 to |saved|
        invariant |facts| == k && RestoreFacts(saved[..k]) == Some(facts)
      {
        assert saved[..k + 1][..k] == saved[..k];
        var admitted := WriteFact(saved[k].claim, saved[k].cites, saved[k].learnedIn);
        if !admitted || facts[k].id != saved[k].id {
          FactsStop(saved, k + 1);
          return false;
        }
      }
      assert saved[..|saved|] == saved;
      ok := true;
    }
  }

  /** What happens past the approval concerns the record alone. */
  lemma RowsAlone(t: Table, facts: seq<Fact>, rows: seq<Row>, call: Call, card: Option<string>, v: Verdicts)
    ensures var e := PastApproval(Gate(t, rows, facts), call, card, v);
            var r := PastApproval(Gate(Table(map[], []), rows, []), call, card,
                                  Verdicts(false, v.barred, v.notAdmitted));
            && e.gate == Gate(t, r.gate.rows, facts) && e.Turned? == r.Turned?
            && (e.Turned? ==> e.reason == r.reason) && (e.Waiting? ==> e.card == card)
  {
  }

  lemma EnterInTwo(g: Gate, call: Call, v: Verdicts, now: nat)
    ensures var first := Enter(g, call, Verdicts(v.badArguments, false, None), now);
            Enter(g, call, v, now) == if first.Turned? then first else PastApproval(first.gate, call, first.card, v)
  {
  }

  /** The holders one journey shares. */
  class Journey {
    const approvals: Approvals
    const ledger: Ledger
    const brain: Brain

    ghost predicate Valid()
      reads this, approvals, approvals.cards.Values
    {
      approvals.Valid()
    }

    ghost function View(): Gate
      reads this, approvals, approvals.cards.Values, ledger, brain
    {
      Gate(approvals.View(), ledger.rows, brain.facts)
    }

    constructor ()
      ensures Valid() && View() == Gate(Table(map[], []), [], [])
      ensures fresh(approvals) && fresh(ledger) && fresh(brain)
    {
      approvals := new Approvals();
      ledger := new Ledger();
      brain := new Brain();
    }

    method Refuse(call: Call, reason: string)
      modifies ledger
      ensures ledger.rows == Recorded(Gate(Table(map[], []), old(ledger.rows), []), RefusalRow(call, reason)).rows
    {
      var _ := ledger.WriteRow(RefusalRow(call, reason));
    }

    /** What the budget, when the surface has one, says of the next call of this origin. */
    ghost function Admission(budget: Budget?, origin: string): Option<string>
      reads budget
    {
      if budget != null && !Admits(budget.limit, budget.spent, origin) then Some("budget_exhausted") else None
    }

    /** The last two checks, the budget's after the origin's: a barred call takes nothing from its window. */
    method LetOut(call: Call, card: Option<string>, barred: bool, budget: Budget?) returns (refused: Option<string>)
      modifies ledger, budget
      ensures var e := PastApproval(Gate(Table(map[], []), old(ledger.rows), []), call, card,
                                    Verdicts(false, barred, old(Admission(budget, call.origin))));
              && ledger.rows == e.gate.rows && refused == (if e.Turned? then Some(e.reason) else None)
              && (budget != null ==>
                    budget.spent == if call.target.Some? && barred then old(budget.spent)
                                    else Claim(budget.limit, old(budget.spent), call.origin))
    {
      if call.target.Some? && barred {
        Refuse(call, "foreign_origin");
        return Some("foreign_origin");
      }
      if budget != null {
        var taken := budget.TakeOne(call.origin);
        if !taken {
          Refuse(call, "budget_exhausted");
          return Some("budget_exhausted");
        }
      }
      refused := None;
    }

    /** The arguments and the card: the gate with nothing to say against the call after them. */
    method CheckCard(call: Call, badArguments: bool, now: nat) returns (refused: Option<string>, card: Option<string>)
      requires Valid()
      modifies ledger, approvals.cards.Values
      ensures Valid()
      ensures var e := Enter(old(View()), call, Verdicts(badArguments, false, None), now);
              && View() == e.gate && refused == (if e.Turned? then Some(e.reason) else None)
              && (e.Waiting? ==> card == e.card)
    {
      refused, card := None, None;
      if badArguments {
        Refuse(call, "validator_failed");
        return Some("validator_failed"), None;
      }
      if call.gated {
        refused, card := approvals.ProveCard(call.approval, call.origin, call.name, call.params, now);
        if refused.Some? {
          Refuse(call, refused.value);
        }
      }
    }

    /** All checks before the transport, first refusal first. */
    method EnterGate(call: Call, badArguments: bool, barred: bool, budget: Budget?, now: nat)
      returns (refused: Option<string>, card: Option<string>)
      requires Valid()
      modifies ledger, approvals.cards.Values, budget
      ensures Valid()
      ensures var e := Enter(old(View()), call, Verdicts(badArguments, barred, old(Admission(budget, call.origin))),
                             now);
              && View() == e.gate && refused == (if e.Turned? then Some(e.reason) else None)
              && (e.Waiting? ==> card == e.card)
      ensures budget != null ==>
                budget.spent ==
                if refused == None then Claim(budget.limit, old(budget.spent), call.origin) else old(budget.spent)
    {
      ghost var v := Verdicts(badArguments, barred, Admission(budget, call.origin));
      refused, card := CheckCard(call, badArguments, now);
      EnterInTwo(old(View()), call, v, now);
      if refused.Some? { return refused, None; }
      ghost var passed := View();
      refused := LetOut(call, card, barred, budget);
      RowsAlone(passed.table, passed.facts, passed.rows, call, card, v);
    }

    /** The rest of the gate, once the transport has answered. */
    method LeaveGate(call: Call, card: Option<string>, answer: TransportAnswer)
      modifies ledger
      ensures ledger.rows == Leave(old(View()), call, card, answer).rows
    {
      match answer
      case Output(_) => var _ := ledger.WriteRow(OkRow(call, card));
      case Failed(reason) => Refuse(call, if reason.Some? then reason.value else "unknown");
      case Threw => Refuse(call, "unknown");
    }

    /** A checkpoint into these holders, each through its own door, and then the citations across them. */
    method RestoreAll(cp: Checkpoint) returns (ok: bool)
      requires Valid()
      modifies approvals, ledger, brain
      ensures Valid()
      ensures old(View()) == Gate(Table(map[], []), [], []) ==>
                ok == RestoreState(cp).Some? && (ok ==> View() == RestoreState(cp).value)
    {
      var rows := ledger.Restore(cp.ledger);
      if !rows { return false; }
      var cards := approvals.Restore(cp.approvals);
      if !cards { return false; }
      var facts := brain.Restore(cp.brain);
      if !facts { return false; }
      ok := CheckCites();
    }

    method CheckCites() returns (ok: bool)
      ensures ok == CitesHold(brain.facts, ledger.rows)
    {
      for k := 0 to |brain.facts|
        invariant CitesHold(brain.facts[..k], ledger.rows)
      {
        for i := 0 to |brain.facts[k].cites|
          invariant forall j :: 0 <= j < i ==>
            var c := brain.facts[k].cites[j]; 0 < c <= |ledger.rows| && ledger.rows[c - 1].number == c
        {
          var c := brain.facts[k].cites[i];
          if c == 0 || c > |ledger.rows| || ledger.rows[c - 1].number != c { return false; }
        }
      }
      assert brain.facts[..|brain.facts|] == brain.facts;
      ok := true;
    }
  }
}
