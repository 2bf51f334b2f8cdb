/**
 What a run of the gate leaves behind, said of the events alone: which row each transport's answer leaves, which
 calls get past the approval, and which check a call that does not is turned away at.
 */
module JourneyOutcomes {
  import opened JourneyDescribe
  import opened JourneyGate
  import opened JourneyRuns
  import opened Options

  // ----- what the transport answered -----

  /** The row says of the call what was asked, and under which card. */
  predicate RowNames(row: Row, call: Call) {
    && row.app == call.app && row.tier == call.tier && row.tool == call.name && row.gated == call.gated
    && row.target == call.target && row.approval == if call.gated then call.approval else None
  }

  /** The row says how the transport answered: a failure keeps its stated reason, and `unknown` stands for none. */
  predicate RowTells(row: Row, answer: TransportAnswer) {
    && (row.outcome == Ok <==> answer.Output?) && (answer.Output? ==> row.reason == None)
    && (!answer.Output? ==> row.outcome == Refused)
    && (answer.Threw? ==> row.reason == Some("unknown"))
    && (answer.Failed? && answer.reason.None? ==> row.reason == Some("unknown"))
    && (answer.Failed? && answer.reason.Some? ==> row.reason == answer.reason)
  }

  /** The transport failed for a reason of its own, outside the closed list. */
  predicate Unrecordable(answer: TransportAnswer) {
    answer.Failed? && answer.reason.Some? && answer.reason.value !in REFUSAL_REASONS
  }

  lemma {:induction false} CallsAreEntered(events: seq<Event>, n: nat)
    requires Possible(events)
    ensures n in After(events).calls ==>
              exists v, now :: Entering(n, After(events).calls[n], v, now) in events
    ensures forall call, v, now :: Entering(n, call, v, now) in events ==>
              n in After(events).calls && After(events).calls[n] == call
  {
    if events != [] {
      var init, last := events[..|events| - 1], events[|events| - 1];
      assert events == init + [last];
      CallsAreEntered(init, n);
      CallsStep(After(init), last, n);
      if n in After(events).calls {
        if n in After(init).calls {
          var v, now :| Entering(n, After(init).calls[n], v, now) in init;
          assert Entering(n, After(events).calls[n], v, now) in events;
        } else {
          assert Entering(n, After(events).calls[n], last.verdicts, last.now) in events;
        }
      }
    }
  }

  /** A call stays the call it entered as; only its own entering makes it known. */
  lemma CallsStep(w: World, e: Event, n: nat)
    requires Enabled(w, e)
    ensures n in w.calls ==>
              n in Next(w, e).calls && Next(w, e).calls[n] == w.calls[n] && !(e.Entering? && e.n == n)
    ensures n !in w.calls ==>
              (n in Next(w, e).calls <==> e.Entering? && e.n == n)
              && (n in Next(w, e).calls ==> Next(w, e).calls[n] == e.call)
  {
  }

  /** Why a call has ended: for what its transport answered, or for the check that turned it away. */
  ghost predicate EndTold(events: seq<Event>, n: nat, reason: Option<string>) {
    || (exists answer :: Leaving(n, answer) in events && RowReason(reason, answer))
    || (reason.Some? && forall answer :: Leaving(n, answer) !in events)
  }

  predicate RowReason(reason: Option<string>, answer: TransportAnswer) {
    && (reason.None? <==> answer.Output?) && (answer.Threw? ==> reason == Some("unknown"))
    && (answer.Failed? ==> reason == if answer.reason.Some? then answer.reason else Some("unknown"))
  }

  /** A call that has ended stays so, for the same reason, and does not leave again. */
  lemma EndStays(w: World, e: Event, n: nat)
    requires CallsSound(w) && Enabled(w, e) && n in w.ended
    ensures n in Next(w, e).ended && Next(w, e).ended[n] == w.ended[n] && !(e.Leaving? && e.n == n)
  {
    assert n in w.calls && CallSound(w, n);
  }

  /** A call ends by its own leaving, or turned away as it enters. */
  lemma EndStep(w: World, e: Event, n: nat)
    requires Enabled(w, e) && n !in w.ended
    ensures n in Next(w, e).ended ==>
              || (e.Leaving? && e.n == n && RowReason(Next(w, e).ended[n], e.answer))
              || (e.Entering? && e.n == n && n !in w.calls && Next(w, e).ended[n].Some?)
    ensures e.Leaving? && e.n == n ==> n in Next(w, e).calls && n in Next(w, e).ended
  {
  }

  lemma {:induction false} EndsAsTold(events: seq<Event>, n: nat)
    requires Possible(events)
    ensures n in After(events).ended ==> EndTold(events, n, After(events).ended[n])
    ensures forall answer :: Leaving(n, answer) in events ==>
              n in After(events).calls && n in After(events).ended && RowReason(After(events).ended[n], answer)
  {
    if events != [] {
      var init, last := events[..|events| - 1], events[|events| - 1];
      assert events == init + [last];
      EndsAsTold(init, n);
      CallsStep(After(init), last, n);
      if n in After(init).ended {
        EndStays(After(init), last, n);
        EndToldStill(init, last, n, After(init).ended[n]);
      } else {
        EndStep(After(init), last, n);
        if n in After(events).ended && last.Leaving? {
          assert Leaving(n, last.answer) in events;
        }
      }
    }
  }

  lemma EndToldStill(init: seq<Event>, last: Event, n: nat, reason: Option<string>)
    requires EndTold(init, n, reason) && !(last.Leaving? && last.n == n)
    ensures EndTold(init + [last], n, reason)
  {
    if answer :| Leaving(n, answer) in init && RowReason(reason, answer) {
      assert Leaving(n, answer) in init + [last];
    }
  }

  lemma RowNamesItsCall(w: World, k: nat)
    requires Sound(w) && k < |w.gate.rows|
    ensures |w.owners| == |w.gate.rows| && w.owners[k] in w.calls && w.owners[k] in w.ended
    ensures w.gate.rows[k].number == k + 1 && RowNames(w.gate.rows[k], w.calls[w.owners[k]])
    ensures w.gate.rows[k].reason == w.ended[w.owners[k]]
            && w.gate.rows[k].outcome == if w.ended[w.owners[k]].Some? then Refused else Ok
  {
    assert RowSound(w, k);
    var n := w.owners[k];
    assert CallSound(w, n);
    if n in w.passes { assert PassSound(w, n); }
  }

  lemma OkMeansOutput(events: seq<Event>, n: nat)
    requires Possible(events) && n in After(events).ended
    ensures After(events).ended[n].None? <==> exists text :: Leaving(n, Output(text)) in events
  {
    EndsAsTold(events, n);
    if After(events).ended[n].None? {
      var answer :| Leaving(n, answer) in events && RowReason(After(events).ended[n], answer);
      assert answer == Output(answer.text);
    }
  }

  /**
   In every run a row is `Ok` exactly when its call left with an output, a call that left otherwise has the reason
   its transport stated (or `unknown`), and the row names the call that entered.
   */
  lemma RowTellsTheAnswer(events: seq<Event>, k: nat)
    requires Possible(events) && k < |After(events).gate.rows|
    ensures var w := After(events);
            && |w.owners| == |w.gate.rows| && w.gate.rows[k].number == k + 1
            && (w.gate.rows[k].outcome == Ok <==> exists text :: Leaving(w.owners[k], Output(text)) in events)
            && (forall answer :: Leaving(w.owners[k], answer) in events ==> RowTells(w.gate.rows[k], answer))
            && (exists call, v, now :: Entering(w.owners[k], call, v, now) in events && RowNames(w.gate.rows[k], call))
  {
    var w := After(events);
    RowNamesItsCall(w, k);
    OkMeansOutput(events, w.owners[k]);
    EndsAsTold(events, w.owners[k]);
    CallsAreEntered(events, w.owners[k]);
  }

  /** An answer leaves a row unless it fails for a reason outside the closed list. */
  lemma AnswerLeavesItsRow(events: seq<Event>, n: nat, answer: TransportAnswer)
    requires Possible(events) && Leaving(n, answer) in events
    ensures multiset(After(events).owners)[n] == if Unrecordable(answer) then 0 else 1
  {
    EndsAsTold(events, n);
    OneRowEach(events, n);
    assert REFUSAL_REASONS[17] == "unknown";
  }

  /** A transport answers once. */
  lemma {:induction false} AnswersOnce(events: seq<Event>, j: nat, k: nat)
    requires Possible(events) && j < k < |events| && events[j].Leaving? && events[k].Leaving?
    ensures events[j].n != events[k].n
  {
    var init, last := events[..|events| - 1], events[|events| - 1];
    if k == |events| - 1 {
      assert init[j] == events[j] && Leaving(events[j].n, events[j].answer) in init;
      EndsAsTold(init, events[j].n);
      EndStays(After(init), last, events[j].n);
    } else {
      assert init[j] == events[j] && init[k] == events[k];
      AnswersOnce(init, j, k);
    }
  }

  // ----- who gets past the approval -----

  /** The person's last answer to a card, as the events have it: pending once asked for, none before. */
  function StatusTold(events: seq<Event>, id: string): Option<Status> {
    if events == [] then None
    else
      var told, last := StatusTold(events[..|events| - 1], id), events[|events| - 1];
      if last.Asked? && last.id == id then Some(Pending)
      else if last.Answered? && last.id == id && told.Some? then Some(last.status)
      else told
  }

  /** What an event does to one card: asked for it is pending, answered it takes the answer, else it keeps both. */
  lemma CardStep(w: World, e: Event, id: string)
    requires Enabled(w, e)
    ensures id in Next(w, e).gate.table.cards <==> id in w.gate.table.cards || (e.Asked? && e.id == id)
    ensures id in Next(w, e).gate.table.cards ==>
              Next(w, e).gate.table.cards[id].status ==
              if e.Asked? && e.id == id then Pending
              else if e.Answered? && e.id == id then e.status
              else w.gate.table.cards[id].status
    ensures id in w.gate.table.cards ==> !(e.Asked? && e.id == id)
  {
    if e.Entering? { EnterSpends(w.gate, e.call, e.verdicts, e.now); }
  }

  lemma {:induction false} StatusIsTold(events: seq<Event>, id: string)
    requires Possible(events)
    ensures id in After(events).gate.table.cards <==> StatusTold(events, id).Some?
    ensures id in After(events).gate.table.cards ==>
              StatusTold(events, id) == Some(After(events).gate.table.cards[id].status)
  {
    if events != [] {
      StatusIsTold(events[..|events| - 1], id);
      CardStep(After(events[..|events| - 1]), events[|events| - 1], id);
    }
  }

  lemma AskStep(w: World, e: Event, id: string)
    requires CardsSound(w) && Enabled(w, e)
    ensures id in Next(w, e).gate.table.cards ==>
              id in Next(w, e).asked
              && (if e.Asked? && e.id == id then Next(w, e).asked[id] == e.ask
                  else id in w.gate.table.cards && id in w.asked && Next(w, e).asked[id] == w.asked[id])
  {
    if id in w.gate.table.cards { assert CardAsAsked(w, id); }
    CardStep(w, e, id);
  }

  /** A card is asked for once, and stays what it was asked for. */
  lemma {:induction false} AskIsTold(events: seq<Event>, id: string, ask: Ask)
    requires Possible(events)
    ensures Asked(id, ask) in events <==>
            id in After(events).gate.table.cards && id in After(events).asked && After(events).asked[id] == ask
  {
    if events != [] {
      var init, last := events[..|events| - 1], events[|events| - 1];
      assert events == init + [last];
      AskIsTold(init, id, ask);
      AskStep(After(init), last, id);
      CardStep(After(init), last, id);
    }
  }

  lemma EnteringSpends(w: World, n: nat, call: Call, entered: Entered, id: string)
    requires CardsSound(w) && id in w.gate.table.cards && w.gate.table.cards[id].consumedAt.None?
    requires entered.gate.table.cards == w.gate.table.cards || PassedWith(w, call, entered).Some?
    requires forall x :: x in entered.gate.table.cards && call.approval != Some(x) && x in w.gate.table.cards ==>
               entered.gate.table.cards[x] == w.gate.table.cards[x]
    requires id in entered.gate.table.cards && entered.gate.table.cards[id].consumedAt.Some?
    ensures var t := EnterCall(w, n, call, entered); n in t.passes && t.passes[n].id == id
  {
    assert CardAsAsked(w, id);
  }

  /** Only a call entering changes whether a card is spent. */
  lemma SpentOnlyEntering(w: World, e: Event, id: string)
    requires Enabled(w, e) && !e.Entering?
    requires id in Next(w, e).gate.table.cards && Next(w, e).gate.table.cards[id].consumedAt.Some?
    ensures id in w.gate.table.cards && w.gate.table.cards[id].consumedAt.Some?
  {
  }

  /** A card is spent by the call that passes on it, and by nothing else. */
  lemma SpendStep(w: World, e: Event, id: string)
    requires CardsSound(w) && Enabled(w, e)
    requires id in Next(w, e).gate.table.cards && Next(w, e).gate.table.cards[id].consumedAt.Some?
    ensures id in w.gate.table.cards
    ensures || w.gate.table.cards[id].consumedAt.Some?
            || (e.Entering? && e.n in Next(w, e).passes && Next(w, e).passes[e.n].id == id)
  {
    if !e.Entering? {
      SpentOnlyEntering(w, e, id);
    } else {
      EnterSpends(w.gate, e.call, e.verdicts, e.now);
      if w.gate.table.cards[id].consumedAt.None? {
        EnteringSpends(w, e.n, e.call, Enter(w.gate, e.call, e.verdicts, e.now), id);
      }
    }
  }

  lemma PassStays(w: World, e: Event, m: nat)
    requires PassesSound(w) && Enabled(w, e) && m in w.passes
    ensures m in Next(w, e).passes && Next(w, e).passes[m] == w.passes[m]
  {
    assert PassSound(w, m);
  }

  lemma {:induction false} SpentHasAPass(events: seq<Event>, id: string) returns (m: nat)
    requires Possible(events)
    requires id in After(events).gate.table.cards && After(events).gate.table.cards[id].consumedAt.Some?
    ensures m in After(events).passes && After(events).passes[m].id == id
  {
    var init, last := events[..|events| - 1], events[|events| - 1];
    SpendStep(After(init), last, id);
    if After(init).gate.table.cards[id].consumedAt.Some? {
      m := SpentHasAPass(init, id);
      PassStays(After(init), last, m);
    } else {
      m := last.n;
    }
  }

  /** The card a call may pass on: granted last, asked for exactly as described, and passed on by no call before. */
  ghost predicate Admits(events: seq<Event>, call: Call)
    requires Possible(events)
  {
    && call.approval.Some? && StatusTold(events, call.approval.value) == Some(Granted)
    && (exists ask :: Asked(call.approval.value, ask) in events
                      && Describe(ask.origin, ask.tool, ask.params) == Describe(call.origin, call.name, call.params))
    && (forall m :: m in After(events).passes ==> After(events).passes[m].id != call.approval.value)
  }

  ghost predicate HasItsCard(t: Table, call: Call) {
    && call.approval.Some? && call.approval.value != "" && call.approval.value in t.cards
    && var card := t.cards[call.approval.value];
       && card.status == Granted && card.consumedAt.None?
       && card.describe == Describe(call.origin, call.name, call.params)
  }

  lemma AdmitsIsHasItsCard(events: seq<Event>, call: Call)
    requires Possible(events)
    ensures Admits(events, call) <==> HasItsCard(After(events).gate.table, call)
  {
    var w := After(events);
    if call.approval.Some? {
      var id := call.approval.value;
      StatusIsTold(events, id);
      if id in w.gate.table.cards {
        assert CardAsAsked(w, id);
        AskIsTold(events, id, w.asked[id]);
        forall ask | Asked(id, ask) in events ensures ask == w.asked[id] { AskIsTold(events, id, ask); }
        if w.gate.table.cards[id].consumedAt.Some? {
          var m := SpentHasAPass(events, id);
        } else {
          UnspentIsNew(w, id);
        }
      }
    }
  }

  lemma PassesWithItsCard(w: World, n: nat, call: Call, v: Verdicts, now: nat)
    requires CardsSound(w) && n !in w.passes
    ensures n in EnterCall(w, n, call, Enter(w.gate, call, v, now)).passes <==>
            call.gated && !v.badArguments && HasItsCard(w.gate.table, call)
  {
    if call.gated && !v.badArguments { GatedNeedsItsCard(w.gate, call, v, now); }
  }

  /** A call spends its card exactly when its arguments fit and the card admits it, whatever the later checks say. */
  lemma PassesExactly(events: seq<Event>, n: nat, call: Call, v: Verdicts, now: nat)
    requires Possible(events) && Enabled(After(events), Entering(n, call, v, now))
    ensures n in Next(After(events), Entering(n, call, v, now)).passes <==>
            call.gated && !v.badArguments && Admits(events, call)
  {
    AdmitsIsHasItsCard(events, call);
    assert n !in After(events).passes;
    PassesWithItsCard(After(events), n, call, v, now);
  }

  lemma WaitsWithItsCard(w: World, n: nat, call: Call, v: Verdicts, now: nat)
    requires n !in w.waiting
    ensures n in EnterCall(w, n, call, Enter(w.gate, call, v, now)).waiting <==>
            && !v.badArguments && (call.gated ==> HasItsCard(w.gate.table, call))
            && !(call.target.Some? && v.barred) && v.notAdmitted.None?
  {
  }

  /** A call waits on its transport exactly when every check before it lets it through. */
  lemma WaitsExactly(events: seq<Event>, n: nat, call: Call, v: Verdicts, now: nat)
    requires Possible(events) && Enabled(After(events), Entering(n, call, v, now))
    ensures n in Next(After(events), Entering(n, call, v, now)).waiting <==>
            && !v.badArguments && (call.gated ==> Admits(events, call))
            && !(call.target.Some? && v.barred) && v.notAdmitted.None?
  {
    AdmitsIsHasItsCard(events, call);
    assert n !in After(events).waiting;
    WaitsWithItsCard(After(events), n, call, v, now);
  }

  /** The reason an approval is refused for, by what the events say of the card cited. */
  ghost predicate CardRefusal(events: seq<Event>, call: Call, reason: string) {
    if call.approval.None? || call.approval.value == "" then reason == "pending_approval"
    else
      match StatusTold(events, call.approval.value)
      case None => reason == "unknown_ref"
      case Some(Pending) => reason == "pending_approval"
      case Some(Denied) => reason == "user_denied"
      case Some(Granted) =>
        if exists ask :: Asked(call.approval.value, ask) in events
                         && Describe(ask.origin, ask.tool, ask.params) == Describe(call.origin, call.name, call.params)
        then reason == "approval_spent" else reason == "validator_failed"
  }

  lemma RefusedByItsCard(events: seq<Event>, call: Call, now: nat)
    requires Possible(events) && !HasItsCard(After(events).gate.table, call)
    ensures var proof := Prove(After(events).gate.table, call.approval, call.origin, call.name, call.params, now);
            proof.NotProved? && CardRefusal(events, call, proof.reason)
  {
    var w := After(events);
    if call.approval.Some? {
      var id := call.approval.value;
      StatusIsTold(events, id);
      if id in w.gate.table.cards {
        assert CardAsAsked(w, id);
        AskIsTold(events, id, w.asked[id]);
        forall ask | Asked(id, ask) in events ensures ask == w.asked[id] { AskIsTold(events, id, ask); }
      }
    }
  }

  lemma TurnedInOrder(w: World, n: nat, call: Call, v: Verdicts, now: nat)
    requires n !in w.waiting && n !in EnterCall(w, n, call, Enter(w.gate, call, v, now)).waiting
    ensures var t := EnterCall(w, n, call, Enter(w.gate, call, v, now));
            && n in t.ended && t.ended[n].Some?
            && (if v.badArguments then t.ended[n] == Some("validator_failed")
                else if call.gated && !HasItsCard(w.gate.table, call) then
                  Prove(w.gate.table, call.approval, call.origin, call.name, call.params, now)
                  == NotProved(t.ended[n].value)
                else if call.target.Some? && v.barred then t.ended[n] == Some("foreign_origin")
                else t.ended[n] == v.notAdmitted)
  {
  }

  /**
   A call that does not wait ends where it enters, for the reason of the first check it fails: its arguments, its
   card, the allow-list, and the last admission, in that order.
   */
  lemma TurnedForTheFirstCheck(events: seq<Event>, n: nat, call: Call, v: Verdicts, now: nat)
    requires Possible(events) && Enabled(After(events), Entering(n, call, v, now))
    requires n !in Next(After(events), Entering(n, call, v, now)).waiting
    ensures var t := Next(After(events), Entering(n, call, v, now));
            && n in t.ended && t.ended[n].Some?
            && (if v.badArguments then t.ended[n] == Some("validator_failed")
                else if call.gated && !Admits(events, call) then CardRefusal(events, call, t.ended[n].value)
                else if call.target.Some? && v.barred then t.ended[n] == Some("foreign_origin")
                else t.ended[n] == v.notAdmitted)
  {
    AdmitsIsHasItsCard(events, call);
    assert n !in After(events).waiting;
    TurnedInOrder(After(events), n, call, v, now);
    if !v.badArguments && call.gated && !Admits(events, call) { RefusedByItsCard(events, call, now); }
  }
}
