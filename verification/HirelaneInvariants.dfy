/**
 What every run of the board keeps. `releaseSlots` checks no owner and `undoStage` only compares event
 ids: both are right only because of what is shown here about the rows that are still live.
 */
module HirelaneInvariants {
  import opened HirelaneActs
  import opened HirelaneBoard
  import opened Lists
  import opened Options

  // ----- the invariant -----

  /** `d` is the event just before `e` in its applicant's history. */
  ghost predicate Adjacent(b: Board, d: nat, e: nat) {
    && d in b.events && e in b.events && d < e && b.events[d].applicant == b.events[e].applicant
    && forall m :: m in b.events && b.events[m].applicant == b.events[e].applicant ==> m <= d || m >= e
  }

  /** An applicant's events form a chain that ends at their current stage. */
  ghost predicate Chained(b: Board) {
    && (forall d, e :: Adjacent(b, d, e) ==> b.events[e].from == Some(b.events[d].to))
    && (forall a, e :: a in b.applicants && IsGreatest(EventsOf(b, a), e) ==> b.events[e].to == b.applicants[a])
  }

  ghost predicate LiveMove(b: Board, k: int) {
    0 <= k < |b.log| && IsLive(b.log[k]) && b.log[k].undo.value.UndoStage?
  }

  ghost predicate LiveHold(b: Board, k: int) {
    0 <= k < |b.log| && IsLive(b.log[k]) && b.log[k].undo.value.UndoSlots?
  }

  /** A live move's event stands, as the move wrote it. */
  ghost predicate MoveStands(b: Board, undo: Undo)
    requires undo.UndoStage?
  {
    && undo.applicant in b.applicants && undo.event in b.events
    && b.events[undo.event].applicant == undo.applicant && b.events[undo.event].from == Some(undo.stage)
    && !IsDecisionStage(undo.stage)
  }

  ghost predicate MovesStand(b: Board) {
    && (forall k :: LiveMove(b, k) ==> MoveStands(b, b.log[k].undo.value))
    && (forall j, k :: LiveMove(b, j) && LiveMove(b, k) && j != k ==>
        b.log[j].undo.value.event != b.log[k].undo.value.event)
  }

  ghost predicate HasLiveMove(b: Board, e: nat) {
    exists k :: LiveMove(b, k) && b.log[k].undo.value.event == e
  }

  /** `e` came after the event of the live move in row `k`, for an applicant nothing is decided about. */
  ghost predicate CameAfter(b: Board, k: int, e: nat)
    requires LiveMove(b, k)
  {
    var undo := b.log[k].undo.value;
    && e in b.events && b.events[e].applicant == undo.applicant && e > undo.event
    && undo.applicant in b.applicants && !IsDecisionStage(b.applicants[undo.applicant])
  }

  /** While nothing is decided, whatever came after a live move is itself a live move. */
  ghost predicate LaterMovesLive(b: Board) {
    forall k, e :: LiveMove(b, k) && CameAfter(b, k, e) ==> HasLiveMove(b, e)
  }

  ghost predicate SlotsShaped(b: Board) {
    forall id :: id in b.slots ==> (b.slots[id].status == Open <==> b.slots[id].applicant == None)
  }

  ghost predicate HoldsSlot(b: Board, k: int, id: string) {
    LiveHold(b, k) && id in b.log[k].undo.value.slotIds
  }

  /** A slot of a live hold is still held for the applicant it was held for, or booked for them. */
  ghost predicate HoldsStand(b: Board) {
    && (forall k, id :: HoldsSlot(b, k, id) ==> id in b.slots && b.slots[id].applicant == Some(b.log[k].target))
    && (forall k :: LiveHold(b, k) ==> Distinct(b.log[k].undo.value.slotIds))
    && (forall j, k, id :: HoldsSlot(b, j, id) && HoldsSlot(b, k, id) ==> j == k)
  }

  ghost predicate AtMostThreeEach(b: Board)
    requires Keyed(b)
  {
    forall a :: |HeldFor(SlotRows(b.slots, b.calendar), a)| <= SLOTS_HELD_EACH
  }

  ghost predicate StagesSound(b: Board) {
    Keyed(b) && Chained(b) && MovesStand(b) && LaterMovesLive(b)
  }

  ghost predicate SlotsSound(b: Board) {
    Keyed(b) && SlotsShaped(b) && HoldsStand(b) && AtMostThreeEach(b)
  }

  ghost predicate Sound(b: Board) {
    StagesSound(b) && SlotsSound(b)
  }

  // ----- frames -----

  /** Every live hold of `t` is the same row, live, in `b`. */
  ghost predicate HoldsAmong(b: Board, t: Board) {
    forall k :: LiveHold(t, k) ==> LiveHold(b, k) && t.log[k] == b.log[k]
  }

  /** `t` has exactly the live moves of `b`. */
  ghost predicate SameMoves(b: Board, t: Board) {
    forall k :: (LiveMove(t, k) <==> LiveMove(b, k)) && (LiveMove(b, k) ==> t.log[k] == b.log[k])
  }

  lemma HoldsFrame(b: Board, t: Board)
    requires HoldsStand(b) && HoldsAmong(b, t)
    requires forall k, id :: HoldsSlot(b, k, id) && LiveHold(t, k) ==>
             id in t.slots && t.slots[id].applicant == b.slots[id].applicant
    ensures HoldsStand(t)
  {
    forall k, id | HoldsSlot(t, k, id)
      ensures HoldsSlot(b, k, id) && id in t.slots && t.slots[id].applicant == Some(t.log[k].target)
    {
      assert LiveHold(t, k) && HoldsSlot(b, k, id);
    }
    forall j, k, id | HoldsSlot(t, j, id) && HoldsSlot(t, k, id) ensures j == k {
      assert HoldsSlot(b, j, id) && HoldsSlot(b, k, id);
    }
  }

  lemma StagesFrame(b: Board, t: Board)
    requires StagesSound(b) && Keyed(t) && SameMoves(b, t)
    requires t.applicants == b.applicants && t.events == b.events && t.nextEvent == b.nextEvent
    ensures StagesSound(t)
  {
    ChainByTables(b, t);
    forall k, e | LiveMove(t, k) && CameAfter(t, k, e) ensures HasLiveMove(t, e) {
      assert LiveMove(b, k) && CameAfter(b, k, e) && HasLiveMove(b, e);
      var j :| LiveMove(b, j) && b.log[j].undo.value.event == e;
      assert LiveMove(t, j);
    }
  }

  lemma SlotsFrame(b: Board, t: Board)
    requires SlotsSound(b) && Keyed(t) && HoldsAmong(b, t) && t.slots == b.slots && t.calendar == b.calendar
    ensures SlotsSound(t)
  {
    HoldsFrame(b, t);
  }

  // ----- writing a stage -----

  lemma NewestOfThe(b: Board, a: string, to: Stage, d: nat)
    requires Keyed(b) && a in b.applicants && Adjacent(WriteStage(b, a, to), d, b.nextEvent)
    ensures IsGreatest(EventsOf(b, a), d)
  {
    var t := WriteStage(b, a, to);
    assert t.events[b.nextEvent].applicant == a;
    forall m | m in EventsOf(b, a) ensures m <= d {
      assert m in t.events && t.events[m].applicant == a;
    }
  }

  lemma StillAdjacent(b: Board, a: string, to: Stage, d: nat, e: nat)
    requires Keyed(b) && a in b.applicants && Adjacent(WriteStage(b, a, to), d, e) && e != b.nextEvent
    ensures Adjacent(b, d, e)
  {
    var t := WriteStage(b, a, to);
    assert d != b.nextEvent;
    forall m | m in b.events && b.events[m].applicant == b.events[e].applicant ensures m <= d || m >= e {
      assert m in t.events && t.events[m].applicant == t.events[e].applicant;
    }
  }

  lemma WriteLinks(b: Board, a: string, to: Stage, d: nat, e: nat)
    requires Keyed(b) && Chained(b) && a in b.applicants && Adjacent(WriteStage(b, a, to), d, e)
    ensures var t := WriteStage(b, a, to); t.events[e].from == Some(t.events[d].to)
  {
    if e == b.nextEvent {
      NewestOfThe(b, a, to, d);
    } else {
      StillAdjacent(b, a, to, d, e);
    }
  }

  lemma WriteKeepsChain(b: Board, a: string, to: Stage)
    requires Keyed(b) && Chained(b) && a in b.applicants
    ensures Keyed(WriteStage(b, a, to)) && Chained(WriteStage(b, a, to))
  {
    var t, n := WriteStage(b, a, to), b.nextEvent;
    forall d, e | Adjacent(t, d, e) ensures t.events[e].from == Some(t.events[d].to) {
      WriteLinks(b, a, to, d, e);
    }
    forall x, e | x in t.applicants && IsGreatest(EventsOf(t, x), e) ensures t.events[e].to == t.applicants[x] {
      if x == a {
        assert n in EventsOf(t, a);
      } else {
        assert EventsOf(t, x) == EventsOf(b, x);
        assert IsGreatest(EventsOf(b, x), e);
      }
    }
  }

  /** The rows of a log that grew by one. */
  lemma GrownRows(b: Board, t: Board, entry: Entry, k: int)
    requires t.log == b.log + [entry]
    ensures LiveMove(t, k) <==> LiveMove(b, k) || (k == |b.log| && IsLive(entry) && entry.undo.value.UndoStage?)
    ensures LiveHold(t, k) <==> LiveHold(b, k) || (k == |b.log| && IsLive(entry) && entry.undo.value.UndoSlots?)
    ensures 0 <= k < |b.log| ==> t.log[k] == b.log[k]
  {
  }

  lemma WriteKeepsMoves(b: Board, a: string, to: Stage, entry: Entry)
    requires StagesSound(b) && a in b.applicants && !IsDecisionStage(b.applicants[a])
    requires entry.undo == None || entry.undo == Some(UndoStage(a, b.applicants[a], b.nextEvent))
    ensures var w := WriteStage(b, a, to); MovesStand(w.(log := b.log + [entry]))
  {
    var t := WriteStage(b, a, to).(log := b.log + [entry]);
    forall k
      ensures LiveMove(t, k) <==> LiveMove(b, k) || (k == |b.log| && IsLive(entry) && entry.undo.value.UndoStage?)
             ensures 0 <= k < |b.log| ==> t.log[k] == b.log[k]
    {
      GrownRows(b, t, entry, k);
    }
  }

  lemma WriteKeepsLater(b: Board, a: string, to: Stage, entry: Entry)
    requires StagesSound(b) && a in b.applicants
    requires || (entry.undo == None && IsDecisionStage(to))
             || (entry.undo == Some(UndoStage(a, b.applicants[a], b.nextEvent)) && !entry.undone)
    requires !IsDecisionStage(b.applicants[a])
    ensures var w := WriteStage(b, a, to); LaterMovesLive(w.(log := b.log + [entry]))
  {
    var t := WriteStage(b, a, to).(log := b.log + [entry]);
    forall k
      ensures LiveMove(t, k) <==> LiveMove(b, k) || (k == |b.log| && IsLive(entry) && entry.undo.value.UndoStage?)
             ensures 0 <= k < |b.log| ==> t.log[k] == b.log[k]
    {
      GrownRows(b, t, entry, k);
    }
    forall k, e | LiveMove(t, k) && CameAfter(t, k, e) ensures HasLiveMove(t, e) {
      if e == b.nextEvent {
        assert LiveMove(t, |b.log|);
      } else {
        assert LiveMove(b, k) && CameAfter(b, k, e) && HasLiveMove(b, e);
        var j :| LiveMove(b, j) && b.log[j].undo.value.event == e;
        assert LiveMove(t, j);
      }
    }
  }

  lemma StageActKeepsSound(b: Board, a: string, to: Stage, action: string, undo: Option<Undo>)
    requires Sound(b) && a in b.applicants && !IsDecisionStage(b.applicants[a])
    requires || (undo == None && IsDecisionStage(to))
             || undo == Some(UndoStage(a, b.applicants[a], b.nextEvent))
    ensures Sound(Logged(WriteStage(b, a, to), action, a, undo))
  {
    var entry := Entry(action, a, undo, false);
    WriteKeepsChain(b, a, to);
    WriteKeepsMoves(b, a, to, entry);
    WriteKeepsLater(b, a, to, entry);
    var t := Logged(WriteStage(b, a, to), action, a, undo);
    ChainByTables(WriteStage(b, a, to), t);
    GrownHolds(b, t, entry);
    SlotsFrame(b, t);
  }

  lemma GrownHolds(b: Board, t: Board, entry: Entry)
    requires t.log == b.log + [entry] && (IsLive(entry) ==> entry.undo.value.UndoStage?)
    ensures HoldsAmong(b, t)
  {
    forall k | LiveHold(t, k) ensures LiveHold(b, k) && t.log[k] == b.log[k] {
      GrownRows(b, t, entry, k);
    }
  }

  lemma GrownMoves(b: Board, t: Board, entry: Entry)
    requires t.log == b.log + [entry] && (IsLive(entry) ==> entry.undo.value.UndoSlots?)
    ensures SameMoves(b, t)
  {
    forall k ensures (LiveMove(t, k) <==> LiveMove(b, k)) && (LiveMove(b, k) ==> t.log[k] == b.log[k]) {
      GrownRows(b, t, entry, k);
    }
  }

  lemma ChainByTables(b: Board, t: Board)
    requires Chained(b) && t.events == b.events && t.applicants == b.applicants
    ensures Chained(t)
  {
    forall d, e | Adjacent(t, d, e) ensures t.events[e].from == Some(t.events[d].to) {
      assert Adjacent(b, d, e);
    }
    forall a, e | a in t.applicants && IsGreatest(EventsOf(t, a), e) ensures t.events[e].to == t.applicants[a] {
      assert EventsOf(t, a) == EventsOf(b, a);
    }
  }

  // ----- slots -----

  /** Rewriting one slot adds at most itself to what a person holds. */
  lemma {:induction false} RewriteCount(slots: map<string, Slot>, calendar: seq<string>, id: string, x: Slot, p: string)
    requires Distinct(calendar) && id in slots && forall i :: i in calendar ==> i in slots
    ensures |HeldFor(SlotRows(slots[id := x], calendar), p)| <=
            |HeldFor(SlotRows(slots, calendar), p)| + if HeldBy(p)(x) then 1 else 0
    ensures id !in calendar ==> SlotRows(slots[id := x], calendar) == SlotRows(slots, calendar)
  {
    if calendar == [] {
    } else {
      var init, last := calendar[..|calendar| - 1], calendar[|calendar| - 1];
      assert calendar == init + [last];
      RewriteCount(slots, init, id, x, p);
      FilterSnoc(SlotRows(slots, init), slots[last], HeldBy(p));
      FilterSnoc(SlotRows(slots[id := x], init), slots[id := x][last], HeldBy(p));
    }
  }

  lemma {:induction false} HoldReads(slots: map<string, Slot>, ids: seq<string>, a: string)
    ensures Hold(slots, ids, a).Keys == slots.Keys
    ensures forall id :: id in slots ==>
      Hold(slots, ids, a)[id] == if id in ids then slots[id].(status := Proposed, applicant := Some(a)) else slots[id]
  {
    if ids == [] {
    } else {
      HoldReads(slots, ids[..|ids| - 1], a);
      assert ids == ids[..|ids| - 1] + [ids[|ids| - 1]];
    }
  }

  lemma {:induction false} HoldCount(slots: map<string, Slot>, calendar: seq<string>, ids: seq<string>, a: string,
                                     p: string)
    requires Distinct(calendar) && forall i :: i in calendar ==> i in slots
    ensures forall i :: i in calendar ==> i in Hold(slots, ids, a)
    ensures |HeldFor(SlotRows(Hold(slots, ids, a), calendar), p)| <=
            |HeldFor(SlotRows(slots, calendar), p)| + if p == a then |ids| else 0
  {
    HoldReads(slots, ids, a);
    if ids == [] {
    } else {
      var init, id := ids[..|ids| - 1], ids[|ids| - 1];
      HoldCount(slots, calendar, init, a, p);
      var before := Hold(slots, init, a);
      if id in before {
        RewriteCount(before, calendar, id, before[id].(status := Proposed, applicant := Some(a)), p);
      }
    }
  }

  lemma {:induction false} RowMember(slots: map<string, Slot>, calendar: seq<string>, r: Slot)
    requires (forall i :: i in calendar ==> i in slots) && (forall i :: i in slots ==> slots[i].id == i)
    ensures r in SlotRows(slots, calendar) <==> r.id in calendar && r == slots[r.id]
  {
    if calendar == [] {
    } else {
      var init, last := calendar[..|calendar| - 1], calendar[|calendar| - 1];
      RowMember(slots, init, r);
      assert calendar == init + [last];
    }
  }

  lemma {:induction false} RowsDistinct(slots: map<string, Slot>, calendar: seq<string>)
    requires Distinct(calendar) && (forall i :: i in calendar ==> i in slots)
             && (forall i :: i in slots ==> slots[i].id == i)
    ensures Distinct(SlotRows(slots, calendar))
  {
    if calendar == [] {
    } else {
      var init, last := calendar[..|calendar| - 1], calendar[|calendar| - 1];
      assert calendar == init + [last];
      RowsDistinct(slots, init);
      RowMember(slots, init, slots[last]);
    }
  }

  /** What a Propose holds: distinct free slots, no more than the person is short of three. */
  lemma HeldIds(b: Board, a: string) returns (ids: seq<string>)
    requires Keyed(b)
    ensures ids == Map(SlotsToHold(SlotRows(b.slots, b.calendar), a), SlotId)
    ensures Distinct(ids) && forall id :: id in ids ==> id in b.slots && IsFree(b.slots[id])
    ensures |HeldFor(SlotRows(b.slots, b.calendar), a)| <= SLOTS_HELD_EACH ==>
              |ids| + |HeldFor(SlotRows(b.slots, b.calendar), a)| <= SLOTS_HELD_EACH
  {
    var rows := SlotRows(b.slots, b.calendar);
    var free, taken := Filter(rows, IsFree), SlotsToHold(rows, a);
    ids := Map(taken, SlotId);
    RowsDistinct(b.slots, b.calendar);
    FilterDistinct(rows, IsFree);
    forall r | r in free ensures r.id in b.slots && r == b.slots[r.id] && IsFree(r) {
      FilterMember(rows, IsFree, r);
      RowMember(b.slots, b.calendar, r);
    }
    forall i, j | 0 <= i < j < |ids| ensures ids[i] != ids[j] {
      assert taken[i] == free[i] && taken[j] == free[j];
      assert free[i] in free && free[j] in free;
    }
    forall id | id in ids ensures id in b.slots && IsFree(b.slots[id]) {
      var k :| 0 <= k < |ids| && ids[k] == id;
      assert taken[k] == free[k] && free[k] in free;
    }
  }

  lemma ProposeKeepsHolds(b: Board, a: string, ids: seq<string>)
    requires SlotsSound(b) && Distinct(ids) && forall id :: id in ids ==> id in b.slots && IsFree(b.slots[id])
    ensures var t := Logged(b.(slots := Hold(b.slots, ids, a)), "propose_slots", a, Some(UndoSlots(ids)));
            HoldsStand(t) && SlotsShaped(t)
  {
    HoldReads(b.slots, ids, a);
    var entry := Entry("propose_slots", a, Some(UndoSlots(ids)), false);
    var t := Logged(b.(slots := Hold(b.slots, ids, a)), "propose_slots", a, Some(UndoSlots(ids)));
    forall k, id | HoldsSlot(t, k, id)
      ensures (k == |b.log| && id in ids) || (HoldsSlot(b, k, id) && id !in ids && t.log[k] == b.log[k])
    {
      GrownRows(b, t, entry, k);
      if k != |b.log| {
        assert HoldsSlot(b, k, id);
      }
    }
    forall k | LiveHold(t, k) ensures Distinct(t.log[k].undo.value.slotIds) {
      GrownRows(b, t, entry, k);
    }
  }

  lemma ProposeKeepsSound(b: Board, a: string)
    requires Sound(b)
    ensures Sound(ProposeSlots(b, a).board)
  {
    if ProposeSlots(b, a).answer.Done? {
      var ids := HeldIds(b, a);
      ProposeKeepsHolds(b, a, ids);
      HoldReads(b.slots, ids, a);
      var t := ProposeSlots(b, a).board;
      forall p ensures |HeldFor(SlotRows(t.slots, t.calendar), p)| <= SLOTS_HELD_EACH {
        HoldCount(b.slots, b.calendar, ids, a, p);
      }
      GrownMoves(b, t, Entry("propose_slots", a, Some(UndoSlots(ids)), false));
      StagesFrame(b, t);
    }
  }

  lemma BookingKeepsSlots(b: Board, a: string, slot: string)
    requires SlotsSound(b) && slot in b.slots && CanBook(b.slots[slot], Some(a))
    ensures var x := b.slots[slot].(status := Booked, applicant := Some(a));
            SlotsSound(b.(slots := b.slots[slot := x]))
  {
    var x := b.slots[slot].(status := Booked, applicant := Some(a));
    var t := b.(slots := b.slots[slot := x]);
    HoldsFrame(b, t);
    forall p ensures |HeldFor(SlotRows(t.slots, t.calendar), p)| <= SLOTS_HELD_EACH {
      RewriteCount(b.slots, b.calendar, slot, x, p);
    }
  }

  lemma ScheduleKeepsSound(b: Board, a: string, slot: string)
    requires Sound(b)
    ensures Sound(SendScheduling(b, a, slot).board)
  {
    if SendScheduling(b, a, slot).answer.Done? {
      var x := b.slots[slot].(status := Booked, applicant := Some(a));
      var booked := b.(slots := b.slots[slot := x]);
      var entry := Entry("send_scheduling_email", a, None, false);
      var t := SendScheduling(b, a, slot).board;
      BookingKeepsSlots(b, a, slot);
      GrownHolds(booked, t, entry);
      SlotsFrame(booked, t);
      GrownMoves(b, t, entry);
      StagesFrame(b, t);
    }
  }

  // ----- undo -----

  lemma {:induction false} ReleasedReads(slots: map<string, Slot>, ids: seq<string>)
    ensures Released(slots, ids).slots.Keys == slots.Keys
    ensures forall id :: id in slots ==>
      Released(slots, ids).slots[id] ==
      if id in ids && slots[id].status != Booked then slots[id].(status := Open, applicant := None) else slots[id]
  {
    if ids == [] {
    } else {
      ReleasedReads(slots, ids[..|ids| - 1]);
      assert ids == ids[..|ids| - 1] + [ids[|ids| - 1]];
    }
  }

  lemma {:induction false} ReleasedCount(slots: map<string, Slot>, calendar: seq<string>, ids: seq<string>, p: string)
    requires Distinct(calendar) && forall i :: i in calendar ==> i in slots
    ensures forall i :: i in calendar ==> i in Released(slots, ids).slots
    ensures |HeldFor(SlotRows(Released(slots, ids).slots, calendar), p)| <= |HeldFor(SlotRows(slots, calendar), p)|
  {
    ReleasedReads(slots, ids);
    if ids == [] {
    } else {
      var init, id := ids[..|ids| - 1], ids[|ids| - 1];
      ReleasedCount(slots, calendar, init, p);
      var before := Released(slots, init).slots;
      if id in before && before[id].status != Booked {
        RewriteCount(before, calendar, id, before[id].(status := Open, applicant := None), p);
      }
    }
  }

  /** The rows of a log with row `n` marked undone and a line added. */
  lemma MarkedRows(b: Board, n: nat, k: int)
    requires 0 < n <= |b.log|
    ensures LiveMove(Marked(b, n), k) <==> LiveMove(b, k) && k != n - 1
    ensures LiveHold(Marked(b, n), k) <==> LiveHold(b, k) && k != n - 1
    ensures 0 <= k < |b.log| && k != n - 1 ==> Marked(b, n).log[k] == b.log[k]
  {
  }

  lemma MarkedHolds(b: Board, n: nat)
    requires 0 < n <= |b.log|
    ensures HoldsAmong(b, Marked(b, n)) && !LiveHold(Marked(b, n), n - 1)
  {
    forall k | LiveHold(Marked(b, n), k) ensures LiveHold(b, k) && Marked(b, n).log[k] == b.log[k] {
      MarkedRows(b, n, k);
    }
  }

  lemma MarkedMoves(b: Board, n: nat)
    requires 0 < n <= |b.log| && !LiveMove(b, n - 1)
    ensures SameMoves(b, Marked(b, n))
  {
    forall k
      ensures (LiveMove(Marked(b, n), k) <==> LiveMove(b, k)) && (LiveMove(b, k) ==> Marked(b, n).log[k] == b.log[k])
    {
      MarkedRows(b, n, k);
    }
  }

  lemma UndoHoldKeepsSlots(b: Board, n: nat, ids: seq<string>)
    requires SlotsSound(b) && 0 < n <= |b.log| && IsLive(b.log[n - 1]) && b.log[n - 1].undo == Some(UndoSlots(ids))
    ensures SlotsSound(Marked(b.(slots := Released(b.slots, ids).slots), n))
  {
    var put := b.(slots := Released(b.slots, ids).slots);
    var t := Marked(put, n);
    ReleasedReads(b.slots, ids);
    MarkedHolds(put, n);
    assert HoldsAmong(b, t) by {
      forall k | LiveHold(t, k) ensures LiveHold(b, k) && t.log[k] == b.log[k] {
        assert LiveHold(put, k);
      }
    }
    forall k, id | HoldsSlot(b, k, id) && LiveHold(t, k)
      ensures id in t.slots && t.slots[id].applicant == b.slots[id].applicant
    {
      if id in ids {
        assert HoldsSlot(b, n - 1, id);
      }
    }
    HoldsFrame(b, t);
    forall p ensures |HeldFor(SlotRows(t.slots, t.calendar), p)| <= SLOTS_HELD_EACH {
      ReleasedCount(b.slots, b.calendar, ids, p);
    }
  }

  lemma UndoHoldKeepsStages(b: Board, n: nat, ids: seq<string>)
    requires StagesSound(b) && 0 < n <= |b.log| && IsLive(b.log[n - 1]) && b.log[n - 1].undo == Some(UndoSlots(ids))
    ensures StagesSound(Marked(b.(slots := Released(b.slots, ids).slots), n))
  {
    var put := b.(slots := Released(b.slots, ids).slots);
    ReleasedReads(b.slots, ids);
    assert SameMoves(b, put);
    StagesFrame(b, put);
    MarkedMoves(put, n);
    StagesFrame(put, Marked(put, n));
  }

  /** The board with the applicant's latest event taken off. */
  function Unmoved(b: Board, a: string, stage: Stage, event: nat): Board {
    b.(applicants := b.applicants[a := stage], events := b.events - {event})
  }

  lemma UnmoveLinks(b: Board, a: string, stage: Stage, event: nat, d: nat, e: nat)
    requires IsGreatest(EventsOf(b, a), event) && Adjacent(Unmoved(b, a, stage, event), d, e)
    ensures Adjacent(b, d, e)
  {
    var t := Unmoved(b, a, stage, event);
    forall m | m in b.events && b.events[m].applicant == b.events[e].applicant ensures m <= d || m >= e {
      if m == event {
        assert e in EventsOf(b, a);
        assert d in EventsOf(b, a);
      } else {
        assert m in t.events && t.events[m].applicant == t.events[e].applicant;
      }
    }
  }

  lemma UnmoveEnds(b: Board, a: string, stage: Stage, event: nat, e: nat)
    requires Chained(b) && IsGreatest(EventsOf(b, a), event) && b.events[event].from == Some(stage)
    requires IsGreatest(EventsOf(Unmoved(b, a, stage, event), a), e)
    ensures b.events[e].to == stage
  {
    assert e in EventsOf(b, a);
    forall m | m in b.events && b.events[m].applicant == a ensures m <= e || m >= event {
      assert m in EventsOf(b, a);
      if m != event {
        assert m in EventsOf(Unmoved(b, a, stage, event), a);
      }
    }
    assert Adjacent(b, e, event);
  }

  lemma UnmoveKeepsChain(b: Board, a: string, stage: Stage, event: nat)
    requires Keyed(b) && Chained(b) && a in b.applicants
    requires IsGreatest(EventsOf(b, a), event) && b.events[event].from == Some(stage)
    ensures Chained(Unmoved(b, a, stage, event))
  {
    var t := Unmoved(b, a, stage, event);
    forall d, e | Adjacent(t, d, e) ensures t.events[e].from == Some(t.events[d].to) {
      UnmoveLinks(b, a, stage, event, d, e);
    }
    forall x, e | x in t.applicants && IsGreatest(EventsOf(t, x), e) ensures t.events[e].to == t.applicants[x] {
      if x == a {
        UnmoveEnds(b, a, stage, event, e);
      } else {
        assert EventsOf(t, x) == EventsOf(b, x);
        assert IsGreatest(EventsOf(b, x), e);
      }
    }
  }

  lemma UnmoveKeepsMoves(b: Board, n: nat, a: string, stage: Stage, event: nat)
    requires StagesSound(b) && 0 < n <= |b.log| && IsLive(b.log[n - 1])
             && b.log[n - 1].undo == Some(UndoStage(a, stage, event))
    requires a in b.applicants
    ensures MovesStand(Marked(Unmoved(b, a, stage, event), n))
  {
    var put := Unmoved(b, a, stage, event);
    var t := Marked(put, n);
    assert LiveMove(b, n - 1);
    forall k | LiveMove(t, k) ensures LiveMove(b, k) && k != n - 1 && t.log[k] == b.log[k] {
      MarkedRows(put, n, k);
      assert LiveMove(b, k);
    }
  }

  lemma UnmoveKeepsLater(b: Board, n: nat, a: string, stage: Stage, event: nat)
    requires StagesSound(b) && 0 < n <= |b.log| && IsLive(b.log[n - 1])
             && b.log[n - 1].undo == Some(UndoStage(a, stage, event))
    requires a in b.applicants && !IsDecisionStage(b.applicants[a])
    ensures LaterMovesLive(Marked(Unmoved(b, a, stage, event), n))
  {
    var put := Unmoved(b, a, stage, event);
    var t := Marked(put, n);
    forall k, e | LiveMove(t, k) && CameAfter(t, k, e) ensures HasLiveMove(t, e) {
      MarkedRows(put, n, k);
      assert LiveMove(b, k) && CameAfter(b, k, e) && HasLiveMove(b, e);
      var j :| LiveMove(b, j) && b.log[j].undo.value.event == e;
      MarkedRows(put, n, j);
      assert LiveMove(t, j);
    }
  }

  lemma UndoMoveKeepsSound(b: Board, n: nat, a: string, stage: Stage, event: nat)
    requires Sound(b) && 0 < n <= |b.log| && IsLive(b.log[n - 1])
             && b.log[n - 1].undo == Some(UndoStage(a, stage, event))
    requires a in b.applicants && !IsDecisionStage(b.applicants[a]) && IsGreatest(EventsOf(b, a), event)
    ensures Sound(Marked(Unmoved(b, a, stage, event), n))
  {
    var put := Unmoved(b, a, stage, event);
    assert LiveMove(b, n - 1);
    UnmoveKeepsChain(b, a, stage, event);
    ChainByTables(put, Marked(put, n));
    UnmoveKeepsMoves(b, n, a, stage, event);
    UnmoveKeepsLater(b, n, a, stage, event);
    assert HoldsAmong(b, put);
    SlotsFrame(b, put);
    MarkedHolds(put, n);
    SlotsFrame(put, Marked(put, n));
  }

  /** A live row's undo, when it goes through, keeps the board sound. */
  lemma UndoRowKeepsSound(b: Board, n: nat)
    requires Sound(b) && 0 < n <= |b.log| && IsLive(b.log[n - 1])
    ensures ApplyUndo(b, b.log[n - 1].undo.value).PutBack? ==>
            Sound(Marked(ApplyUndo(b, b.log[n - 1].undo.value).board, n))
  {
    match b.log[n - 1].undo.value
    case UndoSlots(ids) =>
      UndoHoldKeepsSlots(b, n, ids);
      UndoHoldKeepsStages(b, n, ids);
    case UndoStage(a, stage, event) =>
      assert LiveMove(b, n - 1);
      if ApplyUndo(b, b.log[n - 1].undo.value).PutBack? {
        assert event in EventsOf(b, a);
        UndoMoveKeepsSound(b, n, a, stage, event);
      }
  }

  lemma {:induction false} AttemptKeepsSound(b: Board, n: nat, visited: set<nat>, through: bool)
    requires Sound(b) && n !in visited && |visited| < THROUGH_LIMIT
    ensures Attempt(b, n, visited, through).Took? ==> Sound(Attempt(b, n, visited, through).board)
    decreases Live(b.log), THROUGH_LIMIT - |visited|
  {
    if Precheck(b.log, n).None? {
      UndoRowKeepsSound(b, n);
      var standing := visited + {n};
      match ApplyUndo(b, b.log[n - 1].undo.value)
      case PutBack(put, partial) =>
      case Stands(why, blockedBy) =>
        if through && blockedBy.Some? && blockedBy.value !in standing && |standing| < THROUGH_LIMIT {
          AttemptKeepsSound(b, blockedBy.value, standing, through);
          var cleared := Attempt(b, blockedBy.value, standing, through);
          if cleared.Took? {
            assert |cleared.visited - {n}| == |cleared.visited| - 1;
            AttemptKeepsSound(cleared.board, n, cleared.visited - {n}, through);
          }
        }
    }
  }

  // ----- runs -----

  /** No act and no undo, alone or through its blockers, breaks the board. */
  lemma StepKeepsSound(b: Board, act: Act)
    requires Sound(b)
    ensures Sound(Perform(b, act).board)
  {
    match act
    case Move(a, to) =>
      if MoveStage(b, a, to).answer.Done? {
        StageActKeepsSound(b, a, to, "move_stage", Some(UndoStage(a, b.applicants[a], b.nextEvent)));
      }
    case Decide(a, to) =>
      if DecideStage(b, a, to).answer.Done? {
        StageActKeepsSound(b, a, to, "decide_stage", None);
      }
    case Reject(a) =>
      if SendRejection(b, a).answer.Done? {
        StageActKeepsSound(b, a, Rejected, "send_rejection", None);
      }
    case Propose(a) => ProposeKeepsSound(b, a);
    case Schedule(a, slot) => ScheduleKeepsSound(b, a, slot);
    case TakeBack(n, through) => AttemptKeepsSound(b, n, {}, through);
  }

  ghost function After(b: Board, acts: seq<Act>): (t: Board)
    requires Sound(b)
    ensures Sound(t)
  {
    if acts == [] then b
    else
      var before := After(b, acts[..|acts| - 1]);
      StepKeepsSound(before, acts[|acts| - 1]);
      Perform(before, acts[|acts| - 1]).board
  }
}
