/**
 The board's server actions as they run, over tables that statements rewrite. Each is proved to do to the
 tables, and to answer, exactly what its function in `HirelaneBoard` says.
 */
module HirelaneActions {
  import opened HirelaneActs
  import opened HirelaneBoard
  import opened HirelaneInvariants
  import opened Lists
  import opened Options

  class Hirelane {
    const calendar: seq<string>
    var applicants: map<string, Stage>
    var slots: map<string, Slot>
    var events: map<nat, StageEvent>
    var nextEvent: nat
    var log: seq<Entry>

    ghost function View(): Board
      reads this
    {
      Board(applicants, slots, calendar, events, nextEvent, log)
    }

    constructor (b: Board)
      requires Sound(b)
      ensures View() == b
    {
      applicants, slots, calendar := b.applicants, b.slots, b.calendar;
      events, nextEvent, log := b.events, b.nextEvent, b.log;
    }

    // ----- queries -----

    method AllSlots() returns (rows: seq<Slot>)
      requires Keyed(View())
      ensures rows == SlotRows(slots, calendar)
    {
      rows := [];
      for k := 0 to |calendar|
        invariant rows == SlotRows(slots, calendar[..k])
      {
        assert calendar[..k + 1][..k] == calendar[..k];
        rows := rows + [slots[calendar[k]]];
      }
      assert calendar[..|calendar|] == calendar;
    }

    /** The greatest id among the applicant's events. */
    method LatestEvent(a: string) returns (latest: Option<nat>)
      ensures latest == Latest(View(), a)
    {
      latest := None;
      var left := events.Keys;
      while left != {}
        invariant left <= events.Keys
        invariant latest.None? ==> EventsOf(View(), a) <= left
        invariant latest.Some? ==> latest.value in EventsOf(View(), a)
        invariant latest.Some? ==> forall e :: e in EventsOf(View(), a) && e !in left ==> e <= latest.value
        decreases |left|
      {
        var e :| e in left;
        if events[e].applicant == a && (latest.None? || e > latest.value) {
          latest := Some(e);
        }
        left := left - {e};
      }
      if latest.Some? {
        assert IsGreatest(EventsOf(View(), a), latest.value);
      }
    }

    method FindBlocker(event: nat) returns (found: Option<nat>)
      ensures found == Blocker(log, event)
    {
      found := None;
      for k := 0 to |log|
        invariant found == Blocker(log[..k], event)
      {
        assert log[..k + 1][..k] == log[..k];
        if LogsEvent(log[k], event) {
          found := Some(k + 1);
        }
      }
      assert log[..|log|] == log;
    }

    // ----- acts -----

    method CommitAct(action: string, target: string, undo: Option<Undo>) returns (id: nat)
      modifies this`log
      ensures View() == Logged(old(View()), action, target, undo) && id == |old(log)| + 1
    {
      log := log + [Entry(action, target, undo, false)];
      id := |log|;
    }

    method SetStage(a: string, to: Stage) returns (event: nat)
      requires a in applicants
      modifies this
      ensures View() == WriteStage(old(View()), a, to) && event == old(nextEvent)
    {
      var from := applicants[a];
      applicants := applicants[a := to];
      event := nextEvent;
      events := events[event := StageEvent(a, Some(from), to)];
      nextEvent := nextEvent + 1;
    }

    method MoveStageAction(a: string, to: Stage, actor: string := "user") returns (answer: Answer)
      modifies this
      ensures Step(View(), answer) == AskedBy(actor, old(View()), MoveStage(old(View()), a, to))
    {
      if actor !in ACTORS { return Refused(UnknownActor); }
      if a !in applicants { return Refused(Missing); }
      var from := applicants[a];
      if IsDecisionStage(from) { return Refused(Shut(Decided)); }
      if !IsMoveStage(to) { return Refused(NotAMove); }
      var event := SetStage(a, to);
      var id := CommitAct("move_stage", a, Some(UndoStage(a, from, event)));
      answer := Done(Some(id));
    }

    method DecideStageAction(a: string, to: Stage, actor: string := "user") returns (answer: Answer)
      modifies this
      ensures Step(View(), answer) == AskedBy(actor, old(View()), DecideStage(old(View()), a, to))
    {
      if actor !in ACTORS { return Refused(UnknownActor); }
      if a !in applicants { return Refused(Missing); }
      if !IsDecisionStage(to) { return Refused(NotADecision); }
      if IsDecisionStage(applicants[a]) { return Refused(Shut(Decided)); }
      var _ := SetStage(a, to);
      var _ := CommitAct("decide_stage", a, None);
      answer := Done(None);
    }

    method SendRejectionAction(a: string, template: string, actor: string := "user") returns (answer: Answer)
      modifies this
      ensures Step(View(), answer) == AskedBy(actor, old(View()), SendRejectionWorded(old(View()), a, template))
    {
      if actor !in ACTORS { return Refused(UnknownActor); }
      if a !in applicants { return Refused(Missing); }
      if template !in REJECTION_TEMPLATES { return Refused(NoSuchWording); }
      if IsDecisionStage(applicants[a]) { return Refused(Shut(Decided)); }
      var _ := SetStage(a, Rejected);
      var _ := CommitAct("send_rejection", a, None);
      answer := Done(None);
    }

    method HoldAll(ids: seq<string>, a: string)
      modifies this`slots
      ensures slots == Hold(old(slots), ids, a)
    {
      for k := 0 to |ids|
        invariant slots == Hold(old(slots), ids[..k], a)
      {
        assert ids[..k + 1][..k] == ids[..k];
        if ids[k] in slots {
          slots := slots[ids[k] := slots[ids[k]].(status := Proposed, applicant := Some(a))];
        }
      }
      assert ids[..|ids|] == ids;
    }

    /** Holds the slots and logs them as one row. */
    method HoldAndLog(ids: seq<string>, a: string) returns (answer: Answer)
      modifies this`slots, this`log
      ensures View() ==
              Logged(old(View()).(slots := Hold(old(slots), ids, a)), "propose_slots", a, Some(UndoSlots(ids)))
      ensures answer == Done(Some(|old(log)| + 1))
    {
      HoldAll(ids, a);
      var id := CommitAct("propose_slots", a, Some(UndoSlots(ids)));
      answer := Done(Some(id));
    }

    method ProposeSlotsAction(a: string, actor: string := "user") returns (answer: Answer)
      requires Keyed(View())
      modifies this
      ensures Step(View(), answer) == AskedBy(actor, old(View()), ProposeSlots(old(View()), a))
    {
      if actor !in ACTORS { return Refused(UnknownActor); }
      if a !in applicants { return Refused(Missing); }
      var rows := AllSlots();
      var shut := ProposeReason(a, applicants[a], rows);
      if shut.Some? { return Refused(Shut(shut.value)); }
      var ids := Map(SlotsToHold(rows, a), SlotId);
      answer := HoldAndLog(ids, a);
    }

    method SendSchedulingAction(a: string, slot: string, actor: string := "user") returns (answer: Answer)
      modifies this
      ensures Step(View(), answer) == AskedBy(actor, old(View()), SendScheduling(old(View()), a, slot))
    {
      if actor !in ACTORS { return Refused(UnknownActor); }
      if a !in applicants { return Refused(Missing); }
      var early := ScheduleReason(applicants[a]);
      if early.Some? { return Refused(Shut(early.value)); }
      if slot !in slots || !CanBook(slots[slot], Some(a)) { return Refused(SlotTaken); }
      slots := slots[slot := slots[slot].(status := Booked, applicant := Some(a))];
      var _ := CommitAct("send_scheduling_email", a, None);
      answer := Done(None);
    }

    // ----- undo -----

    /** Opens each slot not booked since, and counts the ones it had to leave. */
    method ReleaseSlots(ids: seq<string>) returns (kept: nat)
      modifies this`slots
      ensures Release(slots, kept) == Released(old(slots), ids)
    {
      kept := 0;
      for k := 0 to |ids|
        invariant Release(slots, kept) == Released(old(slots), ids[..k])
      {
        assert ids[..k + 1][..k] == ids[..k];
        if ids[k] in slots && slots[ids[k]].status != Booked {
          slots := slots[ids[k] := slots[ids[k]].(status := Open, applicant := None)];
        } else {
          kept := kept + 1;
        }
      }
      assert ids[..|ids|] == ids;
    }

    /** The app's half of an undo: the tables put back, or left alone with the reason and the row in the way. */
    method Reverse(undo: Undo) returns (refused: Option<Reason>, blockedBy: Option<nat>, partial: bool)
      modifies this
      ensures match ApplyUndo(old(View()), undo)
              case PutBack(b, p) => refused.None? && View() == b && partial == p
              case Stands(why, blocker) => refused == Some(why) && blockedBy == blocker && View() == old(View())
    {
      refused, blockedBy, partial := None, None, false;
      match undo
      case UndoStage(a, stage, event) =>
        if a in applicants && IsDecisionStage(applicants[a]) { return Some(DecisionAfter(applicants[a])), None, false; }
        var latest := LatestEvent(a);
        if latest.Some? && latest.value != event {
          var blocker := FindBlocker(latest.value);
          return Some(MovedAfter(events[latest.value].to)), blocker, false;
        }
        if a in applicants {
          applicants := applicants[a := stage];
        }
        events := events - {event};
      case UndoSlots(ids) =>
        var kept := ReleaseSlots(ids);
        partial := kept > 0;
    }

    method MarkUndone(n: nat)
      requires 0 < n <= |log|
      modifies this`log
      ensures View() == Marked(old(View()), n)
    {
      log := log[n - 1 := log[n - 1].(undone := true)];
      var _ := CommitAct("undo", log[n - 1].target, None);
    }

    /**
     One attempt at row `n`, taking its blockers first when asked to; on a refusal the tables are the caller's to
     restore.
     */
    method AttemptUndo(n: nat, visited: set<nat>, through: bool)
      returns (refused: Option<Reason>, seen: set<nat>, undone: seq<nat>, partial: bool)
      requires n !in visited && |visited| < THROUGH_LIMIT
      modifies this
      ensures match Attempt(old(View()), n, visited, through)
              case Took(b, v, u, p) => refused.None? && View() == b && seen == v && undone == u && partial == p
              case Stopped(why, _) => refused == Some(why)
      decreases Live(log), THROUGH_LIMIT - |visited|
    {
      refused, seen, undone, partial := None, visited, [], false;
      var bad := Precheck(log, n);
      if bad.Some? { return bad, visited, [], false; }
      var standing := visited + {n};
      var undo := log[n - 1].undo.value;
      var stands, blocker, part := Reverse(undo);
      ApplyUndoKeepsLog(old(View()), undo);
      if stands.None? {
        MarkUndone(n);
        return None, standing, [n], part;
      }
      if through && blocker.Some? && blocker.value !in standing && |standing| < THROUGH_LIMIT {
        var first, cleared, before, _ := AttemptUndo(blocker.value, standing, through);
        if first.Some? { return first, standing, [], false; }
        assert |cleared - {n}| == |cleared| - 1;
        var again, all, last, p := AttemptUndo(n, cleared - {n}, through);
        return again, all, before + last, p;
      }
      return stands, standing, [], false;
    }

    /** The undo as asked: every write of the walk stands, or none does. */
    method UndoAction(n: nat, through: bool) returns (answer: Answer, alsoUndone: nat, partial: bool)
      modifies this
      ensures Step(View(), answer) == UndoActivity(old(View()), n, through)
      ensures match Attempt(old(View()), n, {}, through)
              case Took(_, _, undone, p) => alsoUndone == |undone| - 1 && partial == p
              case Stopped(_, _) => alsoUndone == 0 && !partial
    {
      var a, s, e, x, l := applicants, slots, events, nextEvent, log;
      var refused, _, undone, p := AttemptUndo(n, {}, through);
      if refused.Some? {
        applicants, slots, events, nextEvent, log := a, s, e, x, l;
        return Refused(refused.value), 0, false;
      }
      AttemptEndsWithItsRow(old(View()), n, {}, through);
      return Done(None), |undone| - 1, p;
    }
  }

  /** A refusal that names a blocker, asked through: the blocker's attempt first, and then this row's again. */
  lemma AttemptThrough(b: Board, n: nat, visited: set<nat>, blocker: nat)
    requires n !in visited && |visited| < THROUGH_LIMIT && Precheck(b.log, n).None?
    requires ApplyUndo(b, b.log[n - 1].undo.value).Stands?
    requires ApplyUndo(b, b.log[n - 1].undo.value).blockedBy == Some(blocker)
    requires blocker !in visited + {n} && |visited + {n}| < THROUGH_LIMIT
    ensures var cleared := Attempt(b, blocker, visited + {n}, true);
            if cleared.Stopped? then Attempt(b, n, visited, true) == cleared
            else
              && |cleared.visited - {n}| < THROUGH_LIMIT && Live(cleared.board.log) < Live(b.log)
              && var again := Attempt(cleared.board, n, cleared.visited - {n}, true);
                 Attempt(b, n, visited, true) ==
                 if again.Stopped? then again else again.(undone := cleared.undone + again.undone)
  {
    var cleared := Attempt(b, blocker, visited + {n}, true);
    if cleared.Took? { assert |cleared.visited - {n}| == |cleared.visited| - 1; }
  }

  /** The row asked for is the last one undone. */
  lemma {:induction false} AttemptEndsWithItsRow(b: Board, n: nat, visited: set<nat>, through: bool)
    requires n !in visited && |visited| < THROUGH_LIMIT
    ensures var r := Attempt(b, n, visited, through); r.Took? ==> r.undone != [] && r.undone[|r.undone| - 1] == n
    decreases Live(b.log), THROUGH_LIMIT - |visited|
  {
    if Precheck(b.log, n).None? && ApplyUndo(b, b.log[n - 1].undo.value).Stands? {
      var standing, blockedBy := visited + {n}, ApplyUndo(b, b.log[n - 1].undo.value).blockedBy;
      if through && blockedBy.Some? && blockedBy.value !in standing && |standing| < THROUGH_LIMIT {
        AttemptThrough(b, n, visited, blockedBy.value);
        var cleared := Attempt(b, blockedBy.value, standing, through);
        if cleared.Took? {
          AttemptEndsWithItsRow(cleared.board, n, cleared.visited - {n}, through);
        }
      }
    }
  }
}
