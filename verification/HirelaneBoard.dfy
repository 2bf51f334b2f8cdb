/**
 The hiring board as tables, and what each act and its undo does to them (`app/actions.ts`,
 `app/commit.ts`, and the kit's `undoActivity` with its `through` option).
 */
module HirelaneBoard {
  import opened HirelaneActs
  import opened Lists
  import opened Options

  datatype StageEvent = StageEvent(applicant: string, from: Option<Stage>, to: Stage)

  datatype Undo =
    | UndoStage(applicant: string, stage: Stage, event: nat)
    | UndoSlots(slotIds: seq<string>)

  /** One activity row: an AUTO act carries its undo, a GATED one carries none. Its id is its position, from 1. */
  datatype Entry = Entry(action: string, target: string, undo: Option<Undo>, undone: bool)

  /** The tables; `calendar` is the order slots are listed in, and `nextEvent` the next stage-event id. */
  datatype Board = Board(
    applicants: map<string, Stage>,
    slots: map<string, Slot>, calendar: seq<string>,
    events: map<nat, StageEvent>, nextEvent: nat,
    log: seq<Entry>)

  datatype Reason =
    | Missing | Shut(why: ActReason) | NotAMove | NotADecision | SlotTaken
    | UnknownActor | NoSuchWording
    | NoActivity | NotReversible | AlreadyUndone | DecisionAfter(stage: Stage) | MovedAfter(to: Stage)

  datatype Answer = Done(undoId: Option<nat>) | Refused(why: Reason)

  datatype Step = Step(board: Board, answer: Answer)

  const THROUGH_LIMIT := 16

  const ACTORS := ["user", "athena"]
  const REJECTION_TEMPLATES := ["standard", "encouraging", "keep_in_touch"]

  // ----- reading -----

  ghost predicate Keyed(b: Board) {
    && (forall id :: id in b.slots ==> b.slots[id].id == id)
    && Distinct(b.calendar) && (forall id :: id in b.calendar <==> id in b.slots)
    && (forall e :: e in b.events ==> b.events[e].applicant in b.applicants && e < b.nextEvent)
  }

  function SlotRows(slots: map<string, Slot>, calendar: seq<string>): seq<Slot>
    requires forall id :: id in calendar ==> id in slots
  {
    if calendar == [] then []
    else SlotRows(slots, calendar[..|calendar| - 1]) + [slots[calendar[|calendar| - 1]]]
  }

  function SlotId(s: Slot): string { s.id }

  predicate IsLive(e: Entry) {
    e.undo.Some? && !e.undone
  }

  ghost function EventsOf(b: Board, a: string): set<nat> {
    set e | e in b.events && b.events[e].applicant == a
  }

  ghost predicate IsGreatest(ids: set<nat>, e: nat) {
    e in ids && forall other :: other in ids ==> other <= e
  }

  lemma {:induction false} GreatestExists(ids: set<nat>)
    requires ids != {}
    ensures exists e :: IsGreatest(ids, e)
  {
    var x :| x in ids;
    var rest := ids - {x};
    if rest == {} {
      assert ids == {x};
      assert IsGreatest(ids, x);
    } else {
      GreatestExists(rest);
      var y :| IsGreatest(rest, y);
      assert ids == rest + {x};
      assert IsGreatest(ids, if x > y then x else y);
    }
  }

  /** The applicant's latest stage event. */
  ghost function Latest(b: Board, a: string): (latest: Option<nat>)
    ensures latest.None? <==> EventsOf(b, a) == {}
    ensures latest.Some? ==> IsGreatest(EventsOf(b, a), latest.value)
  {
    if EventsOf(b, a) == {} then None
    else
      GreatestExists(EventsOf(b, a));
      var e :| IsGreatest(EventsOf(b, a), e);
      Some(e)
  }

  predicate LogsEvent(entry: Entry, event: nat) {
    IsLive(entry) && entry.undo.value.UndoStage? && entry.undo.value.event == event
  }

  /** The newest live row of a stage event: the row whose undo clears the way. */
  function Blocker(log: seq<Entry>, event: nat): Option<nat> {
    if log == [] then None
    else if LogsEvent(log[|log| - 1], event) then Some(|log|)
    else Blocker(log[..|log| - 1], event)
  }

  // ----- acts -----

  function Logged(b: Board, action: string, target: string, undo: Option<Undo>): Board {
    b.(log := b.log + [Entry(action, target, undo, false)])
  }

  function WriteStage(b: Board, a: string, to: Stage): Board
    requires a in b.applicants
  {
    b.(applicants := b.applicants[a := to],
       events := b.events[b.nextEvent := StageEvent(a, Some(b.applicants[a]), to)],
       nextEvent := b.nextEvent + 1)
  }

  function MoveStage(b: Board, a: string, to: Stage): Step {
    if a !in b.applicants then Step(b, Refused(Missing))
    else if IsDecisionStage(b.applicants[a]) then Step(b, Refused(Shut(Decided)))
    else if !IsMoveStage(to) then Step(b, Refused(NotAMove))
    else
      var undo := UndoStage(a, b.applicants[a], b.nextEvent);
      Step(Logged(WriteStage(b, a, to), "move_stage", a, Some(undo)), Done(Some(|b.log| + 1)))
  }

  function DecideStage(b: Board, a: string, to: Stage): Step {
    if a !in b.applicants then Step(b, Refused(Missing))
    else if !IsDecisionStage(to) then Step(b, Refused(NotADecision))
    else if IsDecisionStage(b.applicants[a]) then Step(b, Refused(Shut(Decided)))
    else Step(Logged(WriteStage(b, a, to), "decide_stage", a, None), Done(None))
  }

  function SendRejection(b: Board, a: string): Step {
    if a !in b.applicants then Step(b, Refused(Missing))
    else if IsDecisionStage(b.applicants[a]) then Step(b, Refused(Shut(Decided)))
    else Step(Logged(WriteStage(b, a, Rejected), "send_rejection", a, None), Done(None))
  }

  /** The act as a named actor asks for it: only two names are known, and any other is turned away first. */
  function AskedBy(actor: string, b: Board, step: Step): Step {
    if actor in ACTORS then step else Step(b, Refused(UnknownActor))
  }

  /** A rejection in a chosen wording, which is looked at once the applicant is found. */
  function SendRejectionWorded(b: Board, a: string, template: string): Step {
    if a in b.applicants && template !in REJECTION_TEMPLATES then Step(b, Refused(NoSuchWording))
    else SendRejection(b, a)
  }

  function Hold(slots: map<string, Slot>, ids: seq<string>, a: string): map<string, Slot> {
    if ids == [] then slots
    else
      var before, id := Hold(slots, ids[..|ids| - 1], a), ids[|ids| - 1];
      if id in before then before[id := before[id].(status := Proposed, applicant := Some(a))] else before
  }

  ghost function ProposeSlots(b: Board, a: string): Step
    requires Keyed(b)
  {
    if a !in b.applicants then Step(b, Refused(Missing))
    else
      var rows := SlotRows(b.slots, b.calendar);
      var shut := ProposeReason(a, b.applicants[a], rows);
      if shut.Some? then Step(b, Refused(Shut(shut.value)))
      else
        var ids := Map(SlotsToHold(rows, a), SlotId);
        Step(Logged(b.(slots := Hold(b.slots, ids, a)), "propose_slots", a, Some(UndoSlots(ids))),
             Done(Some(|b.log| + 1)))
  }

  function SendScheduling(b: Board, a: string, slot: string): Step {
    if a !in b.applicants then Step(b, Refused(Missing))
    else if ScheduleReason(b.applicants[a]).Some? then Step(b, Refused(Shut(ScheduleReason(b.applicants[a]).value)))
    else if slot !in b.slots || !CanBook(b.slots[slot], Some(a)) then Step(b, Refused(SlotTaken))
    else
      var booked := b.slots[slot := b.slots[slot].(status := Booked, applicant := Some(a))];
      Step(Logged(b.(slots := booked), "send_scheduling_email", a, None), Done(None))
  }

  // ----- undo -----

  /** What the app answers: put back (perhaps partly), or refused, naming the row in the way when it has one. */
  datatype Verdict = PutBack(board: Board, partial: bool) | Stands(why: Reason, blockedBy: Option<nat>)

  ghost function Unmove(b: Board, a: string, stage: Stage, event: nat): Verdict {
    if a in b.applicants && IsDecisionStage(b.applicants[a]) then Stands(DecisionAfter(b.applicants[a]), None)
    else
      var latest := Latest(b, a);
      if latest.Some? && latest.value != event then
        Stands(MovedAfter(b.events[latest.value].to), Blocker(b.log, latest.value))
      else
        PutBack(b.(applicants := if a in b.applicants then b.applicants[a := stage] else b.applicants,
                   events := b.events - {event}), false)
  }

  /** Each slot of the hold that has not been booked is opened again; `kept` counts the others. */
  datatype Release = Release(slots: map<string, Slot>, kept: nat)

  function Released(slots: map<string, Slot>, ids: seq<string>): Release {
    if ids == [] then Release(slots, 0)
    else
      var before, id := Released(slots, ids[..|ids| - 1]), ids[|ids| - 1];
      if id in before.slots && before.slots[id].status != Booked then
        Release(before.slots[id := before.slots[id].(status := Open, applicant := None)], before.kept)
      else Release(before.slots, before.kept + 1)
  }

  ghost function ApplyUndo(b: Board, undo: Undo): Verdict {
    match undo
    case UndoStage(a, stage, event) => Unmove(b, a, stage, event)
    case UndoSlots(ids) =>
      var r := Released(b.slots, ids);
      PutBack(b.(slots := r.slots), r.kept > 0)
  }

  /** Why a row cannot be asked to undo at all. */
  function Precheck(log: seq<Entry>, n: nat): Option<Reason> {
    if n == 0 || n > |log| then Some(NoActivity)
    else if log[n - 1].undo.None? then Some(NotReversible)
    else if log[n - 1].undone then Some(AlreadyUndone)
    else None
  }

  /** The row marked undone, and the compensating line. */
  function Marked(b: Board, n: nat): Board
    requires 0 < n <= |b.log|
  {
    Logged(b.(log := b.log[n - 1 := b.log[n - 1].(undone := true)]), "undo", b.log[n - 1].target, None)
  }

  function Live(log: seq<Entry>): nat {
    if log == [] then 0 else Live(log[..|log| - 1]) + if IsLive(log[|log| - 1]) then 1 else 0
  }

  lemma {:induction false} MarkingLessensLive(log: seq<Entry>, n: nat)
    requires 0 < n <= |log| && IsLive(log[n - 1])
    ensures Live(log[n - 1 := log[n - 1].(undone := true)]) == Live(log) - 1
  {
    var marked := log[n - 1 := log[n - 1].(undone := true)];
    if n < |log| {
      MarkingLessensLive(log[..|log| - 1], n);
      assert marked[..|log| - 1] == log[..|log| - 1][n - 1 := log[n - 1].(undone := true)];
    } else {
      assert marked[..|log| - 1] == log[..|log| - 1];
    }
  }

  lemma MarkedLive(b: Board, n: nat)
    requires 0 < n <= |b.log| && IsLive(b.log[n - 1])
    ensures Live(Marked(b, n).log) == Live(b.log) - 1
  {
    MarkingLessensLive(b.log, n);
    var log := b.log[n - 1 := b.log[n - 1].(undone := true)];
    assert Marked(b, n).log[..|log|] == log;
  }

  /** How an attempt ended: the board it left, the rows visited, and the rows undone in order. */
  datatype Attempted =
    | Took(board: Board, visited: set<nat>, undone: seq<nat>, partial: bool)
    | Stopped(why: Reason, blockedBy: Option<nat>)

  lemma ApplyUndoKeepsLog(b: Board, undo: Undo)
    ensures ApplyUndo(b, undo).PutBack? ==> ApplyUndo(b, undo).board.log == b.log
  {
  }

  /**
   Undo row `n`. A refusal that names a blocker, when `through` is asked, undoes the blocker first and tries
   again; `visited` holds the rows this walk has already stood on.
   */
  ghost function Attempt(b: Board, n: nat, visited: set<nat>, through: bool): (r: Attempted)
    requires n !in visited && |visited| < THROUGH_LIMIT
    ensures r.Took? ==> Live(r.board.log) < Live(b.log) && |r.visited| <= THROUGH_LIMIT && visited + {n} <= r.visited
    decreases Live(b.log), THROUGH_LIMIT - |visited|
  {
    var bad := Precheck(b.log, n);
    if bad.Some? then Stopped(bad.value, None)
    else
      var standing := visited + {n};
      ApplyUndoKeepsLog(b, b.log[n - 1].undo.value);
      match ApplyUndo(b, b.log[n - 1].undo.value)
      case PutBack(put, partial) =>
        MarkedLive(put, n);
        Took(Marked(put, n), standing, [n], partial)
      case Stands(why, blockedBy) =>
        if through && blockedBy.Some? && blockedBy.value !in standing && |standing| < THROUGH_LIMIT then
          var cleared := Attempt(b, blockedBy.value, standing, through);
          if cleared.Stopped? then cleared
          else
            assert |cleared.visited - {n}| == |cleared.visited| - 1;
            var again := Attempt(cleared.board, n, cleared.visited - {n}, through);
            if again.Stopped? then again else again.(undone := cleared.undone + again.undone)
        else Stopped(why, blockedBy)
  }

  /** One undo asked of row `n`, all or nothing. */
  ghost function UndoActivity(b: Board, n: nat, through: bool): Step {
    match Attempt(b, n, {}, through)
    case Took(after, _, _, _) => Step(after, Done(None))
    case Stopped(why, _) => Step(b, Refused(why))
  }

  // ----- runs -----

  datatype Act =
    | Move(applicant: string, to: Stage)
    | Decide(applicant: string, to: Stage)
    | Reject(applicant: string)
    | Propose(applicant: string)
    | Schedule(applicant: string, slot: string)
    | TakeBack(entry: nat, through: bool)

  ghost function Perform(b: Board, act: Act): Step
    requires Keyed(b)
  {
    match act
    case Move(a, to) => MoveStage(b, a, to)
    case Decide(a, to) => DecideStage(b, a, to)
    case Reject(a) => SendRejection(b, a)
    case Propose(a) => ProposeSlots(b, a)
    case Schedule(a, slot) => SendScheduling(b, a, slot)
    case TakeBack(n, through) => UndoActivity(b, n, through)
  }
}
