/**
 What an undo of the board gives back, what stands in its way, and what no act or undo ever reverses.
 */
module HirelaneUndo {
  import opened HirelaneActs
  import opened HirelaneBoard
  import opened HirelaneInvariants
  import opened Lists
  import opened Options

  // ----- what is final -----

  /** A decision is never left, and a booked slot never changes. */
  ghost predicate KeepsFinal(b: Board, t: Board) {
    && (forall a :: a in b.applicants && IsDecisionStage(b.applicants[a]) ==>
        a in t.applicants && t.applicants[a] == b.applicants[a])
    && (forall id :: id in b.slots && b.slots[id].status == Booked ==> id in t.slots && t.slots[id] == b.slots[id])
  }

  lemma ApplyUndoKeepsFinal(b: Board, undo: Undo)
    ensures ApplyUndo(b, undo).PutBack? ==> KeepsFinal(b, ApplyUndo(b, undo).board)
  {
    if undo.UndoSlots? {
      ReleasedReads(b.slots, undo.slotIds);
    }
  }

  lemma {:induction false} AttemptKeepsFinal(b: Board, n: nat, visited: set<nat>, through: bool)
    requires n !in visited && |visited| < THROUGH_LIMIT
    ensures Attempt(b, n, visited, through).Took? ==> KeepsFinal(b, Attempt(b, n, visited, through).board)
    decreases Live(b.log), THROUGH_LIMIT - |visited|
  {
    if Precheck(b.log, n).None? {
      var undo := b.log[n - 1].undo.value;
      ApplyUndoKeepsFinal(b, undo);
      var standing := visited + {n};
      match ApplyUndo(b, undo)
      case PutBack(put, partial) =>
      case Stands(why, blockedBy) =>
        if through && blockedBy.Some? && blockedBy.value !in standing && |standing| < THROUGH_LIMIT {
          AttemptKeepsFinal(b, blockedBy.value, standing, through);
          var cleared := Attempt(b, blockedBy.value, standing, through);
          if cleared.Took? {
            assert |cleared.visited - {n}| == |cleared.visited| - 1;
            AttemptKeepsFinal(cleared.board, n, cleared.visited - {n}, through);
          }
        }
    }
  }

  lemma ProposeKeepsFinal(b: Board, a: string)
    requires Keyed(b)
    ensures KeepsFinal(b, ProposeSlots(b, a).board)
  {
    if a in b.applicants {
      var ids := HeldIds(b, a);
      HoldReads(b.slots, ids, a);
    }
  }

  lemma MoveKeepsFinal(b: Board, a: string, to: Stage)
    ensures KeepsFinal(b, MoveStage(b, a, to).board)
  {
  }

  lemma DecideKeepsFinal(b: Board, a: string, to: Stage)
    ensures KeepsFinal(b, DecideStage(b, a, to).board)
  {
  }

  lemma RejectKeepsFinal(b: Board, a: string)
    ensures KeepsFinal(b, SendRejection(b, a).board)
  {
  }

  lemma ScheduleKeepsFinal(b: Board, a: string, slot: string)
    ensures KeepsFinal(b, SendScheduling(b, a, slot).board)
  {
  }

  lemma StepKeepsFinal(b: Board, act: Act)
    requires Keyed(b)
    ensures KeepsFinal(b, Perform(b, act).board)
  {
    match act
    case Move(a, to) => MoveKeepsFinal(b, a, to);
    case Decide(a, to) => DecideKeepsFinal(b, a, to);
    case Reject(a) => RejectKeepsFinal(b, a);
    case Propose(a) => ProposeKeepsFinal(b, a);
    case Schedule(a, slot) => ScheduleKeepsFinal(b, a, slot);
    case TakeBack(n, through) => AttemptKeepsFinal(b, n, {}, through);
  }

  /** In every run of acts and undos, an offer or a rejection is never left and a booked interview never moves. */
  lemma {:induction false} RunsKeepFinal(b: Board, acts: seq<Act>)
    requires Sound(b)
    ensures KeepsFinal(b, After(b, acts))
  {
    if acts == [] {
    } else {
      RunsKeepFinal(b, acts[..|acts| - 1]);
      StepKeepsFinal(After(b, acts[..|acts| - 1]), acts[|acts| - 1]);
    }
  }

  /** What every run keeps of the holds: each live hold's slot is its applicant's, in no other, three at most each. */
  lemma RunsKeepHolds(b: Board, acts: seq<Act>, j: nat, k: nat, id: string, person: string)
    requires Sound(b)
    ensures var t := After(b, acts);
            && (HoldsSlot(t, k, id) ==> id in t.slots && t.slots[id].applicant == Some(t.log[k].target)
                                        && (t.slots[id].status == Proposed || t.slots[id].status == Booked))
            && (HoldsSlot(t, j, id) && HoldsSlot(t, k, id) ==> j == k)
            && |HeldFor(SlotRows(t.slots, t.calendar), person)| <= 3
  {
  }

  // ----- undoing a hold -----

  function Free(id: string): Slot { Slot(id, Open, None) }

  lemma {:induction false} ReleasedKeeps(slots: map<string, Slot>, ids: seq<string>)
    requires Distinct(ids) && forall id :: id in ids ==> id in slots
    ensures Released(slots, ids).kept == 0 <==> forall id :: id in ids ==> slots[id].status != Booked
  {
    if ids == [] {
    } else {
      var init, last := ids[..|ids| - 1], ids[|ids| - 1];
      assert ids == init + [last];
      ReleasedKeeps(slots, init);
      ReleasedReads(slots, init);
      assert last !in init;
    }
  }

  /**
   Undoing a live hold is never refused. It opens exactly the slots of that hold that are still held for its
   own applicant, leaves every other slot as it is, and says "partly" exactly when one of its slots was booked.
   */
  lemma UndoHoldReleasesItsOwn(b: Board, n: nat, visited: set<nat>, through: bool)
    requires Sound(b) && n > 0 && LiveHold(b, n - 1) && n !in visited && |visited| < THROUGH_LIMIT
    ensures Attempt(b, n, visited, through).Took?
    ensures var r, row := Attempt(b, n, visited, through), b.log[n - 1];
            && r.board.slots.Keys == b.slots.Keys
            && (forall id :: id in b.slots ==>
                  r.board.slots[id] ==
                  if HoldsSlot(b, n - 1, id) && b.slots[id].status == Proposed then Free(id) else b.slots[id])
            && (forall id :: HoldsSlot(b, n - 1, id) ==> id in b.slots && b.slots[id].applicant == Some(row.target))
            && (r.partial <==> exists id :: HoldsSlot(b, n - 1, id) && b.slots[id].status == Booked)
            && r.board.applicants == b.applicants && r.board.events == b.events
  {
    var ids := b.log[n - 1].undo.value.slotIds;
    ReleasedReads(b.slots, ids);
    forall id | id in ids ensures HoldsSlot(b, n - 1, id) && id in b.slots && b.slots[id].applicant != None {
      assert HoldsSlot(b, n - 1, id);
    }
    ReleasedKeeps(b.slots, ids);
  }

  lemma TakesAtOnce(b: Board, n: nat, through: bool, put: Board, partial: bool)
    requires Precheck(b.log, n) == None && ApplyUndo(b, b.log[n - 1].undo.value) == PutBack(put, partial)
    ensures put.log == b.log && UndoActivity(b, n, through) == Step(Marked(put, n), Done(None))
  {
    ApplyUndoKeepsLog(b, b.log[n - 1].undo.value);
  }

  lemma HoldThenRelease(slots: map<string, Slot>, ids: seq<string>, a: string)
    requires forall id :: id in ids ==> id in slots && slots[id].status == Open && slots[id].applicant == None
    ensures Released(Hold(slots, ids, a), ids).slots == slots
  {
    HoldReads(slots, ids, a);
    ReleasedReads(Hold(slots, ids, a), ids);
  }

  /** A hold followed at once by its undo gives every slot back as it was. */
  lemma ProposeThenUndo(b: Board, a: string)
    requires Sound(b) && ProposeSlots(b, a).answer.Done?
    ensures var t := UndoActivity(ProposeSlots(b, a).board, |b.log| + 1, false);
            && t.answer == Done(None) && t.board.slots == b.slots
            && t.board.applicants == b.applicants && t.board.events == b.events
  {
    var ids := HeldIds(b, a);
    HoldThenRelease(b.slots, ids, a);
    var held := Logged(b.(slots := Hold(b.slots, ids, a)), "propose_slots", a, Some(UndoSlots(ids)));
    assert ProposeSlots(b, a).board == held;
    assert held.log[|b.log|] == Entry("propose_slots", a, Some(UndoSlots(ids)), false);
    var r := Released(held.slots, ids);
    TakesAtOnce(held, |b.log| + 1, false, held.(slots := r.slots), r.kept > 0);
  }

  // ----- undoing a move -----

  /** The events of the applicant later than `event`. */
  ghost function Later(b: Board, a: string, event: nat): set<nat> {
    set e | e in b.events && b.events[e].applicant == a && e > event
  }

  lemma {:induction false} BlockerIsLive(b: Board, e: nat)
    requires HasLiveMove(b, e)
    ensures Blocker(b.log, e).Some?
    ensures var m := Blocker(b.log, e).value; 0 < m && LiveMove(b, m - 1) && b.log[m - 1].undo.value.event == e
  {
    var k :| LiveMove(b, k) && b.log[k].undo.value.event == e;
    BlockerFinds(b.log, e, k);
  }

  lemma {:induction false} BlockerFinds(log: seq<Entry>, e: nat, k: nat)
    requires k < |log| && LogsEvent(log[k], e)
    ensures Blocker(log, e).Some? && 0 < Blocker(log, e).value <= |log| && LogsEvent(log[Blocker(log, e).value - 1], e)
  {
    if !LogsEvent(log[|log| - 1], e) {
      BlockerFinds(log[..|log| - 1], e, k);
    }
  }

  lemma NothingLater(b: Board, a: string, last: nat)
    requires IsGreatest(EventsOf(b, a), last)
    ensures Later(b, a, last) == {}
  {
    assert Later(b, a, last) <= EventsOf(b, a);
  }

  /** A live move is its applicant's latest event exactly when nothing came later. */
  lemma LatestOrLater(b: Board, a: string, event: nat)
    requires event in EventsOf(b, a)
    ensures Latest(b, a).Some? && (Latest(b, a).value == event <==> Later(b, a, event) == {})
    ensures Latest(b, a).value != event ==> Latest(b, a).value in Later(b, a, event)
  {
    var latest := Latest(b, a).value;
    NothingLater(b, a, latest);
    if latest != event {
      assert latest in Later(b, a, event);
    }
  }

  /** What taking a move's event off comes to, whatever the rows say. */
  lemma UnmoveVerdict(b: Board, a: string, stage: Stage, event: nat)
    requires a in b.applicants && event in EventsOf(b, a)
    ensures IsDecisionStage(b.applicants[a]) ==>
              Unmove(b, a, stage, event) == Stands(DecisionAfter(b.applicants[a]), None)
    ensures !IsDecisionStage(b.applicants[a]) && Later(b, a, event) == {} ==>
              Unmove(b, a, stage, event) == PutBack(Unmoved(b, a, stage, event), false)
    ensures !IsDecisionStage(b.applicants[a]) && Later(b, a, event) != {} ==>
              && Unmove(b, a, stage, event).Stands? && Latest(b, a).Some? && Latest(b, a).value in Later(b, a, event)
              && Unmove(b, a, stage, event)
                 == Stands(MovedAfter(b.events[Latest(b, a).value].to), Blocker(b.log, Latest(b, a).value))
  {
    LatestOrLater(b, a, event);
  }

  lemma LaterMoveIsNamed(b: Board, n: nat, latest: nat)
    requires StagesSound(b) && n > 0 && LiveMove(b, n - 1) && CameAfter(b, n - 1, latest)
    ensures var blocker := Blocker(b.log, latest);
            && blocker.Some? && 0 < blocker.value && LiveMove(b, blocker.value - 1)
            && b.log[blocker.value - 1].undo.value.event == latest
            && b.log[blocker.value - 1].undo.value.applicant == b.log[n - 1].undo.value.applicant
  {
    BlockerIsLive(b, latest);
    assert MoveStands(b, b.log[Blocker(b.log, latest).value - 1].undo.value);
  }

  /**
   The undo of a live move goes through exactly when it is the applicant's latest event and nothing is decided.
   Refused for a later move, it names a live row: that move's own.
   */
  lemma UndoMoveAlone(b: Board, n: nat)
    requires StagesSound(b) && n > 0 && LiveMove(b, n - 1)
    ensures var undo := b.log[n - 1].undo.value;
            && undo.applicant in b.applicants && Latest(b, undo.applicant).Some?
            && (ApplyUndo(b, undo).PutBack? <==>
                  !IsDecisionStage(b.applicants[undo.applicant]) && Later(b, undo.applicant, undo.event) == {})
            && (ApplyUndo(b, undo).PutBack? ==>
                  ApplyUndo(b, undo) == PutBack(Unmoved(b, undo.applicant, undo.stage, undo.event), false))
            && (IsDecisionStage(b.applicants[undo.applicant]) ==>
                  ApplyUndo(b, undo) == Stands(DecisionAfter(b.applicants[undo.applicant]), None))
            && (ApplyUndo(b, undo).Stands? && !IsDecisionStage(b.applicants[undo.applicant]) ==>
                  var blocker := ApplyUndo(b, undo).blockedBy;
                  && ApplyUndo(b, undo).why == MovedAfter(b.events[Latest(b, undo.applicant).value].to)
                  && blocker.Some? && 0 < blocker.value && LiveMove(b, blocker.value - 1)
                  && Latest(b, undo.applicant) == Some(b.log[blocker.value - 1].undo.value.event)
                  && b.log[blocker.value - 1].undo.value.applicant == undo.applicant)
  {
    var undo := b.log[n - 1].undo.value;
    assert MoveStands(b, undo);
    UnmoveVerdict(b, undo.applicant, undo.stage, undo.event);
    if !IsDecisionStage(b.applicants[undo.applicant]) && Later(b, undo.applicant, undo.event) != {} {
      var latest := Latest(b, undo.applicant).value;
      assert CameAfter(b, n - 1, latest);
      LaterMoveIsNamed(b, n, latest);
    }
  }

  lemma NewMoveComesOff(b: Board, a: string, to: Stage, moved: Board)
    requires Keyed(b) && a in b.applicants && !IsDecisionStage(to)
    requires var w := WriteStage(b, a, to); moved == w.(log := moved.log)
    ensures ApplyUndo(moved, UndoStage(a, b.applicants[a], b.nextEvent))
            == PutBack(Unmoved(moved, a, b.applicants[a], b.nextEvent), false)
    ensures var t := Unmoved(moved, a, b.applicants[a], b.nextEvent);
            t.applicants == b.applicants && t.events == b.events
  {
    assert b.nextEvent in EventsOf(moved, a);
    assert IsGreatest(EventsOf(moved, a), b.nextEvent);
    assert moved.events - {b.nextEvent} == b.events;
  }

  /** A move followed at once by its undo gives the stage and the events back. */
  lemma MoveThenUndo(b: Board, a: string, to: Stage)
    requires Sound(b) && MoveStage(b, a, to).answer.Done?
    ensures var t := UndoActivity(MoveStage(b, a, to).board, |b.log| + 1, false);
            && t.answer == Done(None) && t.board.slots == b.slots
            && t.board.applicants == b.applicants && t.board.events == b.events
  {
    var undo := UndoStage(a, b.applicants[a], b.nextEvent);
    var moved := Logged(WriteStage(b, a, to), "move_stage", a, Some(undo));
    assert moved == MoveStage(b, a, to).board && moved.log[|b.log|] == Entry("move_stage", a, Some(undo), false);
    NewMoveComesOff(b, a, to, moved);
    TakesAtOnce(moved, |b.log| + 1, false, Unmoved(moved, a, b.applicants[a], b.nextEvent), false);
  }

  // ----- undoing through what stands in the way -----

  /** The board once the applicant is put back to before `event`: it and every later event gone. */
  ghost predicate BackTo(b: Board, t: Board, a: string, stage: Stage, event: nat)
    requires a in b.applicants
  {
    && t.applicants == b.applicants[a := stage] && t.slots == b.slots
    && (forall e :: e in t.events <==> e in b.events && (b.events[e].applicant == a ==> e < event))
    && (forall e :: e in t.events ==> t.events[e] == b.events[e])
  }

  ghost predicate NoneLive(b: Board, visited: set<nat>) {
    forall v :: v in visited ==> !(0 < v <= |b.log| && IsLive(b.log[v - 1]))
  }

  /** The latest move of an applicant, taken back: the blocker every refusal names. */
  lemma LatestTakesAtOnce(b: Board, m: nat, visited: set<nat>, through: bool)
    requires Sound(b) && m > 0 && LiveMove(b, m - 1) && m !in visited && |visited| < THROUGH_LIMIT
    requires !IsDecisionStage(b.applicants[b.log[m - 1].undo.value.applicant])
    requires Later(b, b.log[m - 1].undo.value.applicant, b.log[m - 1].undo.value.event) == {}
    ensures var undo := b.log[m - 1].undo.value;
            Attempt(b, m, visited, through)
            == Took(Marked(Unmoved(b, undo.applicant, undo.stage, undo.event), m), visited + {m}, [m], false)
  {
    UndoMoveAlone(b, m);
  }

  /** One step of the walk: the latest move, event `last`, is gone, and one fewer stands in the way. */
  lemma OneFewer(b: Board, n: nat, m: nat) returns (c: Board)
    requires Sound(b) && n > 0 && LiveMove(b, n - 1) && m > 0 && LiveMove(b, m - 1)
    requires var u, v := b.log[n - 1].undo.value, b.log[m - 1].undo.value;
             u.applicant == v.applicant && v.event > u.event && IsGreatest(EventsOf(b, u.applicant), v.event)
             && !IsDecisionStage(b.applicants[u.applicant])
    ensures var v := b.log[m - 1].undo.value; c == Marked(Unmoved(b, v.applicant, v.stage, v.event), m)
    ensures Sound(c) && LiveMove(c, n - 1) && c.log[n - 1] == b.log[n - 1] && !LiveMove(c, m - 1)
    ensures var u, v := b.log[n - 1].undo.value, b.log[m - 1].undo.value;
            && u.applicant in c.applicants && c.applicants == b.applicants[u.applicant := v.stage]
            && v.event in Later(b, u.applicant, u.event)
            && Later(c, u.applicant, u.event) == Later(b, u.applicant, u.event) - {v.event}
  {
    var u, v := b.log[n - 1].undo.value, b.log[m - 1].undo.value;
    UndoMoveKeepsSound(b, m, v.applicant, v.stage, v.event);
    c := Marked(Unmoved(b, v.applicant, v.stage, v.event), m);
    assert m != n;
  }

  lemma OneLeft(b: Board, a: string, event: nat, c: Board, last: nat)
    requires last in Later(b, a, event) && Later(c, a, event) == Later(b, a, event) - {last}
    ensures |Later(c, a, event)| == |Later(b, a, event)| - 1
  {
  }

  lemma StillNoneLive(b: Board, m: nat, put: Board, visited: set<nat>)
    requires 0 < m <= |b.log| && put.log == b.log && NoneLive(b, visited)
    ensures NoneLive(Marked(put, m), visited + {m})
  {
    forall v | v in visited + {m} ensures !(0 < v <= |Marked(put, m).log| && IsLive(Marked(put, m).log[v - 1])) {
      if v != m && v <= |b.log| {
        assert v in visited;
      }
    }
  }

  /** A refusal for later moves names the latest of them. */
  lemma NamesTheLatest(b: Board, n: nat) returns (m: nat)
    requires StagesSound(b) && n > 0 && LiveMove(b, n - 1)
    requires b.log[n - 1].undo.value.applicant in b.applicants
    requires !IsDecisionStage(b.applicants[b.log[n - 1].undo.value.applicant])
    requires Later(b, b.log[n - 1].undo.value.applicant, b.log[n - 1].undo.value.event) != {}
    ensures m > 0 && LiveMove(b, m - 1)
    ensures ApplyUndo(b, b.log[n - 1].undo.value).Stands? && ApplyUndo(b, b.log[n - 1].undo.value).blockedBy == Some(m)
    ensures var u, v := b.log[n - 1].undo.value, b.log[m - 1].undo.value;
            v.applicant == u.applicant && v.event > u.event && IsGreatest(EventsOf(b, u.applicant), v.event)
  {
    var u := b.log[n - 1].undo.value;
    UndoMoveAlone(b, n);
    m := ApplyUndo(b, u).blockedBy.value;
    var x :| x in Later(b, u.applicant, u.event);
    assert x in EventsOf(b, u.applicant);
  }

  /** Asked again once its blocker is gone: the walk goes on from the cleared board. */
  lemma AsksAgain(b: Board, n: nat, m: nat, visited: set<nat>, c: Board)
    requires n !in visited && m !in visited && m != n && |visited| + 1 < THROUGH_LIMIT
    requires Precheck(b.log, n) == None
    requires ApplyUndo(b, b.log[n - 1].undo.value).Stands? && ApplyUndo(b, b.log[n - 1].undo.value).blockedBy == Some(m)
    requires Attempt(b, m, visited + {n}, true) == Took(c, visited + {n} + {m}, [m], false)
    ensures var first, again := Attempt(b, n, visited, true), Attempt(c, n, visited + {m}, true);
            first.Took? == again.Took? && (first.Took? ==> first.board == again.board)
  {
    assert visited + {n} + {m} - {n} == visited + {m};
  }

  /** Going back from the cleared board is going back from the board itself. */
  lemma SameWayBack(b: Board, m: nat, stage: Stage, last: nat, t: Board, a: string, to: Stage, event: nat)
    requires 0 < m <= |b.log| && last in b.events && b.events[last].applicant == a && last > event && a in b.applicants
    requires BackTo(Marked(Unmoved(b, a, stage, last), m), t, a, to, event)
    ensures BackTo(b, t, a, to, event)
  {
    var c := Marked(Unmoved(b, a, stage, last), m);
    assert c.events == b.events - {last} && c.applicants[a := to] == b.applicants[a := to];
  }

  lemma WalkEnds(b: Board, n: nat, visited: set<nat>)
    requires Sound(b) && n > 0 && LiveMove(b, n - 1) && n !in visited && |visited| < THROUGH_LIMIT
    requires b.log[n - 1].undo.value.applicant in b.applicants
    requires !IsDecisionStage(b.applicants[b.log[n - 1].undo.value.applicant])
    requires Later(b, b.log[n - 1].undo.value.applicant, b.log[n - 1].undo.value.event) == {}
    ensures var r, u := Attempt(b, n, visited, true), b.log[n - 1].undo.value;
            r.Took? && BackTo(b, r.board, u.applicant, u.stage, u.event)
  {
    var u := b.log[n - 1].undo.value;
    LatestTakesAtOnce(b, n, visited, true);
    assert MoveStands(b, u);
    LatestGoesBack(b, n, u.applicant, u.stage, u.event);
  }

  lemma LatestGoesBack(b: Board, n: nat, a: string, stage: Stage, event: nat)
    requires 0 < n <= |b.log| && a in b.applicants && event in b.events && b.events[event].applicant == a
    requires Later(b, a, event) == {}
    ensures BackTo(b, Marked(Unmoved(b, a, stage, event), n), a, stage, event)
  {
    forall e | e in b.events && b.events[e].applicant == a ensures e <= event {
      assert e !in Later(b, a, event);
    }
  }

  lemma StaysUnvisited(b: Board, n: nat, m: nat, visited: set<nat>)
    requires NoneLive(b, visited) && m > 0 && LiveMove(b, m - 1) && n > 0 && LiveMove(b, n - 1)
    ensures m !in visited && n !in visited
  {
  }

  /**
   Row `n`'s undo, asked through its blockers: it takes exactly when they fit the limit, and then goes all the way
   back.
   */
  ghost predicate WalksBack(b: Board, n: nat, visited: set<nat>)
    requires n > 0 && LiveMove(b, n - 1) && n !in visited && |visited| < THROUGH_LIMIT
    requires b.log[n - 1].undo.value.applicant in b.applicants
  {
    var r, u := Attempt(b, n, visited, true), b.log[n - 1].undo.value;
    && (r.Took? <==> |visited| + |Later(b, u.applicant, u.event)| < THROUGH_LIMIT)
    && (r.Took? ==> BackTo(b, r.board, u.applicant, u.stage, u.event))
  }

  lemma TurnCarries(b: Board, n: nat, m: nat, visited: set<nat>, c: Board, stage: Stage, last: nat)
    requires n > 0 && LiveMove(b, n - 1) && n !in visited && m != n && m !in visited && |visited| + 1 < THROUGH_LIMIT
    requires LiveMove(c, n - 1) && c.log[n - 1] == b.log[n - 1] && 0 < m <= |b.log|
    requires var u := b.log[n - 1].undo.value;
      && u.applicant in b.applicants && last in b.events && b.events[last].applicant == u.applicant && last > u.event
      && c == Marked(Unmoved(b, u.applicant, stage, last), m)
      && |Later(c, u.applicant, u.event)| == |Later(b, u.applicant, u.event)| - 1
    requires var first, again := Attempt(b, n, visited, true), Attempt(c, n, visited + {m}, true);
             first.Took? == again.Took? && (first.Took? ==> first.board == again.board)
    requires WalksBack(c, n, visited + {m})
    ensures WalksBack(b, n, visited)
  {
    var u, again := b.log[n - 1].undo.value, Attempt(c, n, visited + {m}, true);
    if again.Took? {
      SameWayBack(b, m, stage, last, again.board, u.applicant, u.stage, u.event);
    }
  }

  /** One turn of the walk: row `m`, the latest move, is taken back, and row `n` is asked of what is left. */
  lemma OneTurn(b: Board, n: nat, m: nat, visited: set<nat>) returns (c: Board)
    requires Sound(b) && n > 0 && LiveMove(b, n - 1) && m > 0 && LiveMove(b, m - 1)
    requires n !in visited && m !in visited && m != n && |visited| + 1 < THROUGH_LIMIT && NoneLive(b, visited)
    requires ApplyUndo(b, b.log[n - 1].undo.value).Stands? && ApplyUndo(b, b.log[n - 1].undo.value).blockedBy == Some(m)
    requires var u, v := b.log[n - 1].undo.value, b.log[m - 1].undo.value;
             u.applicant == v.applicant && v.event > u.event && IsGreatest(EventsOf(b, u.applicant), v.event)
             && !IsDecisionStage(b.applicants[u.applicant])
    ensures var v := b.log[m - 1].undo.value; c == Marked(Unmoved(b, v.applicant, v.stage, v.event), m)
    ensures Sound(c) && LiveMove(c, n - 1) && c.log[n - 1] == b.log[n - 1] && NoneLive(c, visited + {m})
    ensures var u := b.log[n - 1].undo.value;
            && u.applicant in c.applicants && !IsDecisionStage(c.applicants[u.applicant])
            && |Later(c, u.applicant, u.event)| == |Later(b, u.applicant, u.event)| - 1
    ensures var first, again := Attempt(b, n, visited, true), Attempt(c, n, visited + {m}, true);
            first.Took? == again.Took? && (first.Took? ==> first.board == again.board)
  {
    var u, v := b.log[n - 1].undo.value, b.log[m - 1].undo.value;
    NothingLater(b, u.applicant, v.event);
    LatestTakesAtOnce(b, m, visited + {n}, true);
    c := OneFewer(b, n, m);
    OneLeft(b, u.applicant, u.event, c, v.event);
    StillNoneLive(b, m, Unmoved(b, u.applicant, v.stage, v.event), visited);
    AsksAgain(b, n, m, visited, c);
  }

  /**
   The walk through the blockers. Each turn names the applicant's latest move, takes it back, and asks again,
   one row longer visited and one event fewer in the way.
   */
  lemma {:induction false} ThroughWalk(b: Board, n: nat, visited: set<nat>)
    requires Sound(b) && n > 0 && LiveMove(b, n - 1) && n !in visited && |visited| < THROUGH_LIMIT
             && NoneLive(b, visited)
    requires b.log[n - 1].undo.value.applicant in b.applicants
    requires !IsDecisionStage(b.applicants[b.log[n - 1].undo.value.applicant])
    ensures WalksBack(b, n, visited)
    decreases |Later(b, b.log[n - 1].undo.value.applicant, b.log[n - 1].undo.value.event)|
  {
    var u := b.log[n - 1].undo.value;
    if Later(b, u.applicant, u.event) == {} {
      WalkEnds(b, n, visited);
    } else {
      var m := NamesTheLatest(b, n);
      StaysUnvisited(b, n, m, visited);
      if |visited| + 1 == THROUGH_LIMIT {
        StopsAtTheLimit(b, n, visited);
      } else {
        var c := OneTurn(b, n, m, visited);
        ThroughWalk(c, n, visited + {m});
        TurnCarries(b, n, m, visited, c, b.log[m - 1].undo.value.stage, b.log[m - 1].undo.value.event);
      }
    }
  }

  lemma StopsAtTheLimit(b: Board, n: nat, visited: set<nat>)
    requires n !in visited && |visited| + 1 == THROUGH_LIMIT && 0 < n <= |b.log|
    requires IsLive(b.log[n - 1]) && ApplyUndo(b, b.log[n - 1].undo.value).Stands?
    ensures Attempt(b, n, visited, true).Stopped?
  {
    assert |visited + {n}| == THROUGH_LIMIT;
  }

  /**
   "Undo both", and all: asked through its blockers, a live move's undo succeeds exactly when nothing is decided
   and at most fifteen later moves stand in the way. Then the applicant is back at the stage the move set out from
   and the move and everything after it are gone; otherwise nothing at all has changed.
   */
  lemma UndoThrough(b: Board, n: nat)
    requires Sound(b) && n > 0 && LiveMove(b, n - 1)
    ensures var u, t := b.log[n - 1].undo.value, UndoActivity(b, n, true);
            && u.applicant in b.applicants
            && (t.answer == Done(None) <==>
                  !IsDecisionStage(b.applicants[u.applicant]) && |Later(b, u.applicant, u.event)| <= 15)
            && (t.answer == Done(None) ==> BackTo(b, t.board, u.applicant, u.stage, u.event) && Sound(t.board))
            && (t.answer != Done(None) ==> t.board == b)
  {
    var u := b.log[n - 1].undo.value;
    UndoMoveAlone(b, n);
    AttemptKeepsSound(b, n, {}, true);
    if !IsDecisionStage(b.applicants[u.applicant]) {
      ThroughWalk(b, n, {});
    }
  }

  // ----- the dossier and the server -----

  lemma ScheduleOffered(b: Board, a: string)
    requires Keyed(b) && a in b.applicants
    ensures var acts := ActsFor(a, b.applicants[a], SlotRows(b.slots, b.calendar));
            && (acts.schedule == None <==> exists slot :: SendScheduling(b, a, slot).answer.Done?)
            && (forall s :: s in acts.scheduleSlots ==> SendScheduling(b, a, s.id).answer.Done?)
  {
    var rows := SlotRows(b.slots, b.calendar);
    ListedExactlyWhenBookable(rows, a);
    forall r ensures r in rows <==> r.id in b.slots && r == b.slots[r.id] {
      RowMember(b.slots, b.calendar, r);
    }
    forall slot ensures SendScheduling(b, a, slot).answer.Done? <==>
      ScheduleReason(b.applicants[a]).None? && slot in b.slots && CanBook(b.slots[slot], Some(a)) {
    }
    if slot :| SendScheduling(b, a, slot).answer.Done? {
      assert b.slots[slot] in rows;
    }
    if s :| s in rows && CanBook(s, Some(a)) {
      assert ScheduleReason(b.applicants[a]).None? ==> SendScheduling(b, a, s.id).answer.Done?;
    }
  }

  lemma RestOffered(b: Board, a: string)
    requires Keyed(b) && a in b.applicants
    ensures var acts := ActsFor(a, b.applicants[a], SlotRows(b.slots, b.calendar));
            && (acts.propose == None <==> ProposeSlots(b, a).answer.Done?)
            && (acts.offer == None <==> DecideStage(b, a, Offer).answer.Done?)
            && (acts.offer == None <==> SendRejection(b, a).answer.Done?)
            && (acts.move == None <==> b.applicants[a] == Stage.Applied || b.applicants[a] == Screening)
            && acts.moveTo == (if b.applicants[a] == Stage.Applied then Some(Screening)
                               else if b.applicants[a] == Screening then Some(Interview) else None)
            && (acts.move == None ==> acts.moveTo.Some? && MoveStage(b, a, acts.moveTo.value).answer.Done?)
            && (acts.move == Some(Decided) <==> b.applicants[a] == Offer || b.applicants[a] == Rejected)
  {
  }

  /** The dossier offers an act exactly when the server would accept it, and lists only slots it would book. */
  lemma DossierOffersWhatServerAccepts(b: Board, a: string)
    requires Keyed(b) && a in b.applicants
    ensures var acts := ActsFor(a, b.applicants[a], SlotRows(b.slots, b.calendar));
            && (acts.schedule == None <==> exists slot :: SendScheduling(b, a, slot).answer.Done?)
            && (forall s :: s in acts.scheduleSlots ==> SendScheduling(b, a, s.id).answer.Done?)
            && (acts.propose == None <==> ProposeSlots(b, a).answer.Done?)
            && (acts.offer == None <==> DecideStage(b, a, Offer).answer.Done?)
            && (acts.offer == None <==> SendRejection(b, a).answer.Done?)
            && (acts.move == None <==> b.applicants[a] == Stage.Applied || b.applicants[a] == Screening)
            && acts.moveTo == (if b.applicants[a] == Stage.Applied then Some(Screening)
                               else if b.applicants[a] == Screening then Some(Interview) else None)
            && (acts.move == None ==> acts.moveTo.Some? && MoveStage(b, a, acts.moveTo.value).answer.Done?)
            && (acts.move == Some(Decided) <==> b.applicants[a] == Offer || b.applicants[a] == Rejected)
  {
    ScheduleOffered(b, a);
    RestOffered(b, a);
  }
}
