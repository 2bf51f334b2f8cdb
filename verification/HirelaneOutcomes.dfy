/**
 When each act on the board is done, and all that it does: told by the applicants, the slots, and the history, both
 ways, with every row the act does not name left as it was.
 */
module HirelaneOutcomes {
  import opened HirelaneActs
  import opened HirelaneBoard
  import opened HirelaneInvariants
  import opened Lists
  import opened Options

  // ----- stages -----

  predicate Undecided(b: Board, a: string) {
    a in b.applicants && b.applicants[a] != Offer && b.applicants[a] != Rejected
  }

  /**
   The applicant stands at `to`, one event more says they came there from where they stood, it is the latest of
   theirs, and no other applicant, event or slot has changed.
   */
  ghost predicate Restaged(b: Board, t: Board, a: string, to: Stage) {
    && a in b.applicants && t.applicants == b.applicants[a := to]
    && b.nextEvent !in b.events && t.events == b.events[b.nextEvent := StageEvent(a, Some(b.applicants[a]), to)]
    && Latest(t, a) == Some(b.nextEvent)
    && t.slots == b.slots && t.calendar == b.calendar
  }

  lemma WritingRestages(b: Board, t: Board, a: string, to: Stage)
    requires Keyed(b) && a in b.applicants && t == WriteStage(b, a, to).(log := t.log)
    ensures Restaged(b, t, a, to)
  {
    assert b.nextEvent in EventsOf(t, a);
    assert forall e :: e in EventsOf(t, a) ==> e <= b.nextEvent;
  }

  /** A decision is made exactly when it is one, on an applicant nothing is decided about. */
  lemma DecidedExactly(b: Board, a: string, to: Stage)
    ensures var decided := DecideStage(b, a, to);
            && (decided.answer.Done? <==> Undecided(b, a) && (to == Offer || to == Rejected))
            && (!decided.answer.Done? ==> decided.board == b)
  {
  }

  /** And then the stage recorded is the one asked for, with no way back in the log. */
  lemma DecisionLands(b: Board, a: string, to: Stage)
    requires Keyed(b) && DecideStage(b, a, to).answer.Done?
    ensures var t := DecideStage(b, a, to).board;
            Restaged(b, t, a, to) && t.log == b.log + [Entry("decide_stage", a, None, false)]
  {
    WritingRestages(b, DecideStage(b, a, to).board, a, to);
  }

  /** A move is made exactly when it is one, on an applicant nothing is decided about. */
  lemma MovedExactly(b: Board, a: string, to: Stage)
    ensures var moved := MoveStage(b, a, to);
            && (moved.answer.Done? <==> Undecided(b, a) && (to == Screening || to == Interview))
            && (!moved.answer.Done? ==> moved.board == b)
  {
  }

  /** And then the log can take it back to the stage it came from, and answers by which row. */
  lemma MoveLands(b: Board, a: string, to: Stage)
    requires Keyed(b) && MoveStage(b, a, to).answer.Done?
    ensures var moved := MoveStage(b, a, to);
            && Restaged(b, moved.board, a, to) && moved.answer == Done(Some(|b.log| + 1))
            && moved.board.log ==
               b.log + [Entry("move_stage", a, Some(UndoStage(a, b.applicants[a], b.nextEvent)), false)]
  {
    WritingRestages(b, MoveStage(b, a, to).board, a, to);
  }

  /** A rejection is sent exactly when its wording is one of three and nothing is decided about the applicant. */
  lemma RejectedExactly(b: Board, a: string, template: string)
    ensures var sent := SendRejectionWorded(b, a, template);
            && (sent.answer.Done? <==>
                Undecided(b, a) && (template == "standard" || template == "encouraging" || template == "keep_in_touch"))
            && (!sent.answer.Done? ==> sent.board == b)
  {
  }

  lemma RejectionLands(b: Board, a: string, template: string)
    requires Keyed(b) && SendRejectionWorded(b, a, template).answer.Done?
    ensures var t := SendRejectionWorded(b, a, template).board;
            Restaged(b, t, a, Rejected) && t.log == b.log + [Entry("send_rejection", a, None, false)]
  {
    WritingRestages(b, SendRejection(b, a).board, a, Rejected);
  }

  /** Only the person and the agent are heard; what either asks for is what is done. */
  lemma HeardExactly(actor: string, b: Board, step: Step)
    requires !step.answer.Done? ==> step.board == b
    ensures var heard := AskedBy(actor, b, step);
            && (heard.answer.Done? <==> (actor == "user" || actor == "athena") && step.answer.Done?)
            && (heard.answer.Done? ==> heard == step) && (!heard.answer.Done? ==> heard.board == b)
  {
  }

  // ----- slots -----

  /** The slots held for an applicant. */
  ghost function HeldIn(b: Board, a: string): set<string> {
    set id | id in b.slots && b.slots[id].status == Proposed && b.slots[id].applicant == Some(a)
  }

  predicate IsOpen(b: Board, id: string) {
    id in b.slots && b.slots[id].status == Open
  }

  lemma {:induction false} RowAt(slots: map<string, Slot>, calendar: seq<string>, k: nat)
    requires (forall id :: id in calendar ==> id in slots) && k < |calendar|
    ensures |SlotRows(slots, calendar)| == |calendar| && SlotRows(slots, calendar)[k] == slots[calendar[k]]
  {
    if k < |calendar| - 1 {
      RowAt(slots, calendar[..|calendar| - 1], k);
    } else if |calendar| > 1 {
      RowAt(slots, calendar[..|calendar| - 1], 0);
    }
  }

  ghost function HeldAmong(slots: map<string, Slot>, calendar: seq<string>, a: string): set<string> {
    set id | id in calendar && id in slots && HeldBy(a)(slots[id])
  }

  lemma HeldAmongSnoc(slots: map<string, Slot>, init: seq<string>, last: string, a: string)
    requires last !in init && last in slots
    ensures |HeldAmong(slots, init + [last], a)|
            == |HeldAmong(slots, init, a)| + if HeldBy(a)(slots[last]) then 1 else 0
  {
    assert HeldAmong(slots, init + [last], a)
        == HeldAmong(slots, init, a) + if HeldBy(a)(slots[last]) then {last} else {};
  }

  lemma {:induction false} HeldCount(slots: map<string, Slot>, calendar: seq<string>, a: string)
    requires Distinct(calendar) && forall id :: id in calendar ==> id in slots
    ensures |HeldFor(SlotRows(slots, calendar), a)| == |HeldAmong(slots, calendar, a)|
  {
    if calendar == [] {
    } else {
      var init, last := calendar[..|calendar| - 1], calendar[|calendar| - 1];
      HeldCount(slots, init, a);
      FilterSnoc(SlotRows(slots, init), slots[last], HeldBy(a));
      HeldAmongSnoc(slots, init, last, a);
      assert calendar == init + [last];
    }
  }

  lemma HeldForIsHeldIn(b: Board, a: string)
    requires Keyed(b)
    ensures |HeldFor(SlotRows(b.slots, b.calendar), a)| == |HeldIn(b, a)|
  {
    HeldCount(b.slots, b.calendar, a);
    assert HeldAmong(b.slots, b.calendar, a) == HeldIn(b, a);
  }

  lemma FreeIsOpen(b: Board, r: Slot)
    requires Keyed(b) && SlotsShaped(b)
    ensures r in Filter(SlotRows(b.slots, b.calendar), IsFree) <==> IsOpen(b, r.id) && r == b.slots[r.id]
  {
    FilterMember(SlotRows(b.slots, b.calendar), IsFree, r);
    RowMember(b.slots, b.calendar, r);
  }

  /** Slots are proposed exactly at Interview, while fewer than three are held and one is open. */
  lemma ProposedExactly(b: Board, a: string)
    requires Keyed(b) && SlotsShaped(b)
    ensures var proposed := ProposeSlots(b, a);
            && (proposed.answer.Done? <==>
                && a in b.applicants && b.applicants[a] == Interview && |HeldIn(b, a)| < 3
                && exists id :: IsOpen(b, id))
            && (!proposed.answer.Done? ==> proposed.board == b)
  {
    var free := Filter(SlotRows(b.slots, b.calendar), IsFree);
    HeldForIsHeldIn(b, a);
    if id :| IsOpen(b, id) { FreeIsOpen(b, b.slots[id]); }
    if free != [] {
      FreeIsOpen(b, free[0]);
      assert IsOpen(b, free[0].id);
    }
  }

  lemma RowsPrecede(b: Board, x: Slot, y: Slot)
    requires Keyed(b) && Precedes(SlotRows(b.slots, b.calendar), x, y)
    ensures Precedes(b.calendar, x.id, y.id)
  {
    var rows := SlotRows(b.slots, b.calendar);
    var m, n :| 0 <= m < n < |rows| && rows[m] == x && rows[n] == y;
    if b.calendar != [] {
      RowAt(b.slots, b.calendar, 0);
      RowAt(b.slots, b.calendar, m);
      RowAt(b.slots, b.calendar, n);
    }
  }

  /** Of the open slots, `ids` are the first in the calendar. */
  ghost predicate FirstOpen(b: Board, ids: seq<string>) {
    && Distinct(ids) && (forall id :: id in ids ==> IsOpen(b, id))
    && forall id, other :: id in ids && IsOpen(b, other) && other !in ids ==> Precedes(b.calendar, id, other)
  }

  lemma TakenIsIn(free: seq<Slot>, n: nat, m: nat)
    requires m < |free|
    ensures m < n ==> free[m].id in Map(Take(free, n), SlotId)
  {
    if m < n {
      assert Map(Take(free, n), SlotId)[m] == free[m].id;
    }
  }

  /** The first `n` open slots of the calendar, or all of them. */
  ghost function Taken(b: Board, n: nat): seq<string>
    requires Keyed(b)
  {
    Map(Take(Filter(SlotRows(b.slots, b.calendar), IsFree), n), SlotId)
  }

  lemma TakenAreOpen(b: Board, n: nat)
    requires Keyed(b) && SlotsShaped(b)
    ensures Distinct(Taken(b, n)) && |Taken(b, n)| <= n && forall id :: id in Taken(b, n) ==> IsOpen(b, id)
  {
    var rows := SlotRows(b.slots, b.calendar);
    var free := Filter(rows, IsFree);
    RowsDistinct(b.slots, b.calendar);
    FilterDistinct(rows, IsFree);
    forall k | 0 <= k < |free| ensures IsOpen(b, free[k].id) && free[k] == b.slots[free[k].id] {
      FreeIsOpen(b, free[k]);
    }
  }

  /** An open slot not taken comes after all that are, and there are `n` of those. */
  lemma LeftComesAfter(b: Board, n: nat, other: string)
    requires Keyed(b) && SlotsShaped(b) && IsOpen(b, other) && other !in Taken(b, n)
    ensures |Taken(b, n)| == n && forall id :: id in Taken(b, n) ==> Precedes(b.calendar, id, other)
  {
    var free := Filter(SlotRows(b.slots, b.calendar), IsFree);
    FreeIsOpen(b, b.slots[other]);
    var m :| 0 <= m < |free| && free[m] == b.slots[other];
    TakenIsIn(free, n, m);
    forall k | 0 <= k < n ensures Precedes(b.calendar, free[k].id, other) { FreePrecede(b, k, m); }
  }

  lemma TakenAreFirst(b: Board, n: nat)
    requires Keyed(b) && SlotsShaped(b)
    ensures var ids := Taken(b, n);
            FirstOpen(b, ids) && |ids| <= n && (|ids| == n || forall id :: IsOpen(b, id) ==> id in ids)
  {
    TakenAreOpen(b, n);
    forall other | IsOpen(b, other) && other !in Taken(b, n)
      ensures |Taken(b, n)| == n && forall id :: id in Taken(b, n) ==> Precedes(b.calendar, id, other)
    {
      LeftComesAfter(b, n, other);
    }
  }

  lemma FreePrecede(b: Board, k: nat, m: nat)
    requires Keyed(b) && k < m < |Filter(SlotRows(b.slots, b.calendar), IsFree)|
    ensures var free := Filter(SlotRows(b.slots, b.calendar), IsFree); Precedes(b.calendar, free[k].id, free[m].id)
  {
    var rows := SlotRows(b.slots, b.calendar);
    var free := Filter(rows, IsFree);
    assert Precedes(free, free[k], free[m]);
    FilterPrecedes(rows, IsFree, free[k], free[m]);
    RowsPrecede(b, free[k], free[m]);
  }

  /** The slots an interview may be offered: the applicant's own first, and then the first twelve open ones. */
  lemma ListedAreFirst(b: Board, a: string) returns (own: seq<string>, open: seq<string>)
    requires Keyed(b) && SlotsShaped(b)
    ensures Map(BookableSlots(SlotRows(b.slots, b.calendar), a), SlotId) == own + open
    ensures forall id ::
      id in own <==> id in b.slots && b.slots[id].status == Proposed && b.slots[id].applicant == Some(a)
    ensures FirstOpen(b, open) && |open| <= 12 && (|open| == 12 || forall id :: IsOpen(b, id) ==> id in open)
  {
    var rows := SlotRows(b.slots, b.calendar);
    var mine := Filter(rows, OwnBookable(a));
    own, open := Map(mine, SlotId), Taken(b, 12);
    MapConcat(mine, Take(Filter(rows, IsFree), 12), SlotId);
    TakenAreFirst(b, 12);
    forall id ensures id in own <==> id in HeldIn(b, a) {
      if id in own {
        var k :| 0 <= k < |own| && own[k] == id;
        OwnIsHeld(b, a, mine[k]);
      }
      if id in HeldIn(b, a) {
        OwnIsHeld(b, a, b.slots[id]);
        var k :| 0 <= k < |mine| && mine[k] == b.slots[id];
        assert own[k] == id;
      }
    }
  }

  lemma OwnIsHeld(b: Board, a: string, r: Slot)
    requires Keyed(b) && SlotsShaped(b)
    ensures r in Filter(SlotRows(b.slots, b.calendar), OwnBookable(a)) <==> r.id in HeldIn(b, a) && r == b.slots[r.id]
  {
    FilterMember(SlotRows(b.slots, b.calendar), OwnBookable(a), r);
    RowMember(b.slots, b.calendar, r);
  }

  lemma ProposeIsHold(b: Board, a: string, n: nat)
    requires Keyed(b) && ProposeSlots(b, a).answer.Done? && n == |HeldFor(SlotRows(b.slots, b.calendar), a)|
    ensures n < 3 && Taken(b, 3 - n) != []
    ensures ProposeSlots(b, a).board
            == Logged(b.(slots := Hold(b.slots, Taken(b, 3 - n), a)), "propose_slots", a,
                      Some(UndoSlots(Taken(b, 3 - n))))
  {
  }

  lemma HoldLands(b: Board, t: Board, a: string, ids: seq<string>)
    requires Keyed(b) && t == Logged(b.(slots := Hold(b.slots, ids, a)), "propose_slots", a, Some(UndoSlots(ids)))
    ensures t.slots.Keys == b.slots.Keys
    ensures forall id :: id in b.slots ==>
              t.slots[id] == if id in ids then Slot(id, Proposed, Some(a)) else b.slots[id]
    ensures t.log == b.log + [Entry("propose_slots", a, Some(UndoSlots(ids)), false)]
    ensures t.(slots := b.slots, log := b.log) == b
  {
    HoldReads(b.slots, ids, a);
  }

  /**
   And then the first open slots are held for the applicant, as many as bring their holds to three or as there are;
   no other slot, and no stage, has changed.
   */
  lemma ProposeLands(b: Board, a: string) returns (ids: seq<string>)
    requires Keyed(b) && SlotsShaped(b) && ProposeSlots(b, a).answer.Done?
    ensures FirstOpen(b, ids) && ids != [] && |HeldIn(b, a)| + |ids| <= 3
    ensures |HeldIn(b, a)| + |ids| == 3 || forall id :: IsOpen(b, id) ==> id in ids
    ensures var t := ProposeSlots(b, a).board;
            && t.slots.Keys == b.slots.Keys
            && (forall id :: id in b.slots ==>
                  t.slots[id] == if id in ids then Slot(id, Proposed, Some(a)) else b.slots[id])
            && t.log == b.log + [Entry("propose_slots", a, Some(UndoSlots(ids)), false)]
            && t.(slots := b.slots, log := b.log) == b
  {
    var n := |HeldIn(b, a)|;
    HeldForIsHeldIn(b, a);
    ProposeIsHold(b, a, n);
    ids := Taken(b, 3 - n);
    TakenAreFirst(b, 3 - n);
    HoldLands(b, ProposeSlots(b, a).board, a, ids);
  }

  /** An interview is booked exactly at Interview, into a slot not booked yet and held for nobody else. */
  lemma ScheduledExactly(b: Board, a: string, slot: string)
    ensures var sent := SendScheduling(b, a, slot);
            && (sent.answer.Done? <==>
                && a in b.applicants && b.applicants[a] == Interview
                && slot in b.slots && b.slots[slot].status != Booked
                && (b.slots[slot].applicant == None || b.slots[slot].applicant == Some(a)))
            && (!sent.answer.Done? ==> sent.board == b)
  {
  }

  lemma ScheduleLands(b: Board, a: string, slot: string)
    requires Keyed(b) && SendScheduling(b, a, slot).answer.Done?
    ensures var t := SendScheduling(b, a, slot).board;
            && t.slots == b.slots[slot := Slot(slot, Booked, Some(a))]
            && t.log == b.log + [Entry("send_scheduling_email", a, None, false)]
            && t.(slots := b.slots, log := b.log) == b
  {
  }

  // ----- what cannot be taken back -----

  /** A row of the log that cannot be asked to undo is refused for what it is, and nothing is written. */
  lemma UnaskableExactly(b: Board, n: nat, through: bool)
    ensures n == 0 || n > |b.log| ==> UndoActivity(b, n, through) == Step(b, Refused(NoActivity))
    ensures 0 < n <= |b.log| && b.log[n - 1].undo.None? ==>
              UndoActivity(b, n, through) == Step(b, Refused(NotReversible))
    ensures 0 < n <= |b.log| && b.log[n - 1].undo.Some? && b.log[n - 1].undone ==>
              UndoActivity(b, n, through) == Step(b, Refused(AlreadyUndone))
  {
  }
}
