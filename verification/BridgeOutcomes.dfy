/**
 What the page's replies say, told by the events: the first word on a request is its answer, in the tool's own text
 and under the reasons a page may give, and a call that ends after its deadline is still heard.
 */
module BridgeOutcomes {
  import opened BridgeRelay
  import opened Options

  // ----- the first word on a request -----

  /** The answer repeats how the tool settled: its text, or its error under a reason a page may give. */
  predicate Says(answer: Answer, o: Outcome) {
    match o
    case Fulfilled(text) => answer == Output(text)
    case Unrenderable(error) => answer == Failure(None, error)
    case Rejected(reason, error) =>
      && answer.Failure? && answer.error == error
      && (reason == Some("validator_failed") || reason == Some("timeout") || reason == Some("cancelled") ==>
            answer.reason == reason)
      && (reason != Some("validator_failed") && reason != Some("timeout") && reason != Some("cancelled") ==>
            answer.reason == None)
  }

  /** An event that can settle what this request is answered: a word before the tool runs, the tool, or the deadline. */
  predicate Decides(e: Event, q: nat) {
    (e.Decide? || e.ToolSettles? || e.DeadlinePasses?) && e.request == q
  }

  /** The first of them. */
  function FirstWord(events: seq<Event>, q: nat): Option<Event> {
    if events == [] then None
    else
      var before, last := FirstWord(events[..|events| - 1], q), events[|events| - 1];
      if before.Some? then before else if Decides(last, q) then Some(last) else None
  }

  /** The deadline passed over a tool that gave no output as it was cancelled. */
  predicate CutsOff(e: Event) {
    e.DeadlinePasses? && !(e.onAbort.Some? && e.onAbort.value.Fulfilled?)
  }

  predicate AnswersAs(e: Event, kind: Kind, answer: Answer) {
    && (e.Decide? ==> answer == e.answer)
    && (e.ToolSettles? ==> Says(answer, e.outcome))
    && (e.DeadlinePasses? && !CutsOff(e) ==> answer == Output(e.onAbort.value.text))
    && (CutsOff(e) ==> kind.CallTool? && answer == Failure(Some("timeout"), kind.name + " did not answer in time"))
  }

  function AnswerAt(w: World, q: nat): Option<Answer> {
    if q in w.handled then w.handled[q].answer else None
  }

  lemma AnswerOfSays(o: Outcome)
    ensures Says(AnswerOf(o), o)
  {
    assert PAGE_MINTABLE[0] == "validator_failed" && PAGE_MINTABLE[1] == "timeout" && PAGE_MINTABLE[2] == "cancelled";
  }

  lemma AnswerStays(w: World, e: Event, q: nat)
    requires HandledSound(w) && Enabled(w, e) && AnswerAt(w, q).Some?
    ensures AnswerAt(Next(w, e), q) == AnswerAt(w, q)
  {
    assert HandlingSound(w.handled[q]);
  }

  lemma AnswerComes(w: World, e: Event, q: nat)
    requires HandledSound(w) && IdsSound(w) && Enabled(w, e) && AnswerAt(w, q).None?
    ensures AnswerAt(Next(w, e), q).Some? <==> Decides(e, q)
    ensures Decides(e, q) ==> q < |w.sent| && AnswersAs(e, w.sent[q].kind, AnswerAt(Next(w, e), q).value)
  {
    if q in w.handled { assert HandlingSound(w.handled[q]); }
    if e.ToolSettles? { AnswerOfSays(e.outcome); }
  }

  lemma SentStays(w: World, e: Event, q: nat)
    requires Enabled(w, e) && q < |w.sent|
    ensures q < |Next(w, e).sent| && Next(w, e).sent[q] == w.sent[q]
  {
  }

  lemma {:induction false} AnsweredByTheFirst(events: seq<Event>, q: nat)
    requires Possible(events)
    ensures AnswerAt(After(events), q).Some? <==> FirstWord(events, q).Some?
    ensures FirstWord(events, q).Some? ==>
              && q < |After(events).sent|
              && AnswersAs(FirstWord(events, q).value, After(events).sent[q].kind, AnswerAt(After(events), q).value)
  {
    if events != [] {
      var init, last := events[..|events| - 1], events[|events| - 1];
      AnsweredByTheFirst(init, q);
      if AnswerAt(After(init), q).Some? { AnswerStays(After(init), last, q); }
      else { AnswerComes(After(init), last, q); }
      if q < |After(init).sent| { SentStays(After(init), last, q); }
    }
  }

  /**
   Under every interleaving a reply says the first word there was on its request: what was decided before the tool
   ran, how the tool settled, or that it did not in time.
   */
  lemma RepliesSayTheFirstWord(events: seq<Event>, k: nat)
    requires Possible(events) && k < |After(events).posted| && After(events).posted[k].Reply?
    ensures var w := After(events);
            && |w.owners| == |w.posted| && w.owners[k].Some?
            && var q := w.owners[k].value;
               && q < |w.sent| && w.posted[k].id == w.sent[q].id && FirstWord(events, q).Some?
               && AnswersAs(FirstWord(events, q).value, w.sent[q].kind, w.posted[k].answer)
  {
    var w := After(events);
    assert PostSound(w, k);
    AnsweredByTheFirst(events, w.owners[k].value);
  }

  // ----- heard late -----

  predicate CutOff(events: seq<Event>, q: nat) {
    FirstWord(events, q).Some? && CutsOff(FirstWord(events, q).value)
  }

  ghost predicate NoLate(w: World, q: nat)
    requires |w.posted| == |w.owners|
  {
    forall k :: !IsLateOf(w, k, q)
  }

  /** The tool still runs past its deadline, watched when there is an id to name, and nothing late is out. */
  ghost predicate StillRuns(w: World, q: nat)
    requires |w.posted| == |w.owners|
  {
    && q in w.handled && q < |w.sent| && w.handled[q].phase == Expired(w.sent[q].id.Some?) && NoLate(w, q)
  }

  /** What a tool that settles late says, when there is an id to name and something to say, and else nothing. */
  ghost predicate Heard(w: World, q: nat, o: Outcome)
    requires |w.posted| == |w.owners|
  {
    && q < |w.sent|
    && if w.sent[q].id.Some? && !o.Unrenderable?
       then exists k :: IsLateOf(w, k, q) && Says(w.posted[k].body, o) else NoLate(w, q)
  }

  /** A call's standing, by what there has been: cut off and waiting, cut off and heard, or answered and done. */
  ghost predicate LateTold(events: seq<Event>, w: World, q: nat)
    requires |w.posted| == |w.owners|
  {
    if CutOff(events, q) then
      || (StillRuns(w, q) && forall o :: ToolSettles(q, o) !in events)
      || (At(w, q, Answered) && (exists o :: ToolSettles(q, o) in events)
          && forall o :: ToolSettles(q, o) in events ==> Heard(w, q, o))
    else NoLate(w, q) && (FirstWord(events, q).Some? ==> At(w, q, Answered))
  }

  lemma {:induction false} NoWordNoEvent(events: seq<Event>, q: nat)
    ensures FirstWord(events, q).None? <==> forall e :: e in events ==> !Decides(e, q)
  {
    if events != [] {
      var init, last := events[..|events| - 1], events[|events| - 1];
      assert events == init + [last];
      NoWordNoEvent(init, q);
    }
  }

  /** Posted messages stay, and only a tool of this request's own can post its late event. */
  lemma PostsStay(w: World, e: Event, q: nat)
    requires |w.posted| == |w.owners| && Enabled(w, e)
    ensures var t := Next(w, e);
            && |t.posted| == |t.owners| && w.posted <= t.posted
            && (forall k :: IsLateOf(w, k, q) ==> IsLateOf(t, k, q))
            && (!(e.ToolSettles? && e.request == q) ==> forall k :: IsLateOf(t, k, q) ==> IsLateOf(w, k, q))
  {
  }

  /** Only its own events move a request that has its answer. */
  lemma PhaseStays(w: World, e: Event, q: nat)
    requires HandledSound(w) && Enabled(w, e) && AnswerAt(w, q).Some? && !(e.ToolSettles? && e.request == q)
    ensures q in Next(w, e).handled && Next(w, e).handled[q].phase == w.handled[q].phase
  {
    assert HandlingSound(w.handled[q]);
  }

  lemma HeardStays(w: World, e: Event, q: nat, o: Outcome)
    requires |w.posted| == |w.owners| && Enabled(w, e) && !(e.ToolSettles? && e.request == q) && Heard(w, q, o)
    ensures |Next(w, e).posted| == |Next(w, e).owners| && Heard(Next(w, e), q, o)
  {
    PostsStay(w, e, q);
    SentStays(w, e, q);
    if w.sent[q].id.Some? && !o.Unrenderable? {
      var k :| IsLateOf(w, k, q) && Says(w.posted[k].body, o);
      assert IsLateOf(Next(w, e), k, q) && Next(w, e).posted[k] == w.posted[k];
    }
  }

  /** The tool of a call cut off settles: it is heard at once. */
  lemma SettlingIsHeard(w: World, q: nat, o: Outcome)
    requires |w.posted| == |w.owners| && StillRuns(w, q) && Enabled(w, ToolSettles(q, o))
    ensures var t := Next(w, ToolSettles(q, o));
            |t.posted| == |t.owners| && At(t, q, Answered) && Heard(t, q, o)
  {
    var t := Next(w, ToolSettles(q, o));
    AnswerOfSays(o);
    if w.sent[q].id.Some? && !o.Unrenderable? {
      assert IsLateOf(t, |w.posted|, q) && Says(t.posted[|w.posted|].body, o);
    } else {
      forall k ensures !IsLateOf(t, k, q) { assert !IsLateOf(w, k, q); }
    }
  }

  /** The first word of a longer run. */
  lemma FirstWordSnoc(init: seq<Event>, e: Event, q: nat)
    ensures FirstWord(init + [e], q) ==
            if FirstWord(init, q).Some? then FirstWord(init, q) else if Decides(e, q) then Some(e) else None
  {
    assert (init + [e])[..|init + [e]| - 1] == init;
  }

  lemma FirstWordTells(init: seq<Event>, w: World, e: Event, q: nat)
    requires Sound(w) && Enabled(w, e) && FirstWord(init, q).None? && AnswerAt(w, q).None?
    requires LateTold(init, w, q)
    ensures |Next(w, e).posted| == |Next(w, e).owners| && LateTold(init + [e], Next(w, e), q)
  {
    NoWordNoEvent(init, q);
    FirstWordSnoc(init, e, q);
    PostsStay(w, e, q);
    if q in w.handled { assert HandlingSound(w.handled[q]); }
  }

  lemma LaterWordTells(init: seq<Event>, w: World, e: Event, q: nat)
    requires Sound(w) && Enabled(w, e) && FirstWord(init, q).Some? && AnswerAt(w, q).Some?
    requires LateTold(init, w, q) && !(e.ToolSettles? && e.request == q)
    ensures |Next(w, e).posted| == |Next(w, e).owners| && LateTold(init + [e], Next(w, e), q)
  {
    FirstWordSnoc(init, e, q);
    PostsStay(w, e, q);
    PhaseStays(w, e, q);
    SentAndHeardStay(init, w, e, q);
  }

  lemma SentAndHeardStay(init: seq<Event>, w: World, e: Event, q: nat)
    requires |w.posted| == |w.owners| && Enabled(w, e) && !(e.ToolSettles? && e.request == q)
    ensures q < |w.sent| ==> q < |Next(w, e).sent| && Next(w, e).sent[q] == w.sent[q]
    ensures |Next(w, e).posted| == |Next(w, e).owners|
    ensures forall o :: ToolSettles(q, o) in init + [e] <==> ToolSettles(q, o) in init
    ensures forall o :: Heard(w, q, o) ==> Heard(Next(w, e), q, o)
  {
    if q < |w.sent| { SentStays(w, e, q); }
    PostsStay(w, e, q);
    forall o | Heard(w, q, o) ensures Heard(Next(w, e), q, o) { HeardStays(w, e, q, o); }
  }

  lemma OwnToolTells(init: seq<Event>, w: World, q: nat, o: Outcome)
    requires Sound(w) && Enabled(w, ToolSettles(q, o)) && FirstWord(init, q).Some? && LateTold(init, w, q)
    ensures var t := Next(w, ToolSettles(q, o));
            |t.posted| == |t.owners| && LateTold(init + [ToolSettles(q, o)], t, q)
  {
    FirstWordSnoc(init, ToolSettles(q, o), q);
    if CutOff(init, q) && StillRuns(w, q) { SettlingIsHeard(w, q, o); }
    assert ToolSettles(q, o) in init + [ToolSettles(q, o)];
  }

  lemma {:induction false} LateIsTold(events: seq<Event>, q: nat)
    requires Possible(events)
    ensures LateTold(events, After(events), q)
  {
    if events != [] {
      var init, last := events[..|events| - 1], events[|events| - 1];
      assert events == init + [last];
      LateIsTold(init, q);
      AnsweredByTheFirst(init, q);
      if FirstWord(init, q).None? { FirstWordTells(init, After(init), last, q); }
      else if last.ToolSettles? && last.request == q { OwnToolTells(init, After(init), q, last.outcome); }
      else { LaterWordTells(init, After(init), last, q); }
    }
  }

  /**
   Under every interleaving a tool that ends after its call was cut off is heard, in its own words, exactly when the
   call had an id to name and its output can be put into text; and a late event is posted in no other case.
   */
  lemma LateSaysTheTool(events: seq<Event>, q: nat)
    requires Possible(events)
    ensures var w := After(events);
            && |w.posted| == |w.owners|
            && (forall o :: CutOff(events, q) && ToolSettles(q, o) in events ==> Heard(w, q, o))
            && ((exists k :: IsLateOf(w, k, q)) ==>
                  CutOff(events, q) && exists o :: ToolSettles(q, o) in events && Heard(w, q, o))
  {
    LateIsTold(events, q);
  }
}
