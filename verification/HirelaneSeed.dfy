/** Where every run of the board starts: the trails and the calendar the seed writes are already sound. */
module HirelaneSeed {
  import opened HirelaneActs
  import opened HirelaneBoard
  import opened HirelaneInvariants
  import opened Lists
  import opened Options

  /** An applicant arrives. */
  function Arrive(b: Board, a: string, stage: Stage): Board {
    b.(applicants := b.applicants[a := stage],
       events := b.events[b.nextEvent := StageEvent(a, None, stage)],
       nextEvent := b.nextEvent + 1)
  }

  /** The trail of one applicant: arrival, and each later stage from the one before it. */
  function SeedHistory(b: Board, a: string, trail: seq<Stage>): (t: Board)
    requires trail != []
    ensures a in t.applicants
  {
    if |trail| == 1 then Arrive(b, a, trail[0])
    else WriteStage(SeedHistory(b, a, trail[..|trail| - 1]), a, trail[|trail| - 1])
  }

  lemma ArrivalKeepsChain(b: Board, a: string, stage: Stage)
    requires Keyed(b) && Chained(b) && a !in b.applicants
    ensures Keyed(Arrive(b, a, stage)) && Chained(Arrive(b, a, stage))
  {
    var t, n := Arrive(b, a, stage), b.nextEvent;
    forall d, e | Adjacent(t, d, e) ensures t.events[e].from == Some(t.events[d].to) {
      assert e != n && d != n;
      assert Adjacent(b, d, e) by {
        forall m | m in b.events && b.events[m].applicant == b.events[e].applicant ensures m <= d || m >= e {
          assert m in t.events && t.events[m].applicant == t.events[e].applicant;
        }
      }
    }
    forall x, e | x in t.applicants && IsGreatest(EventsOf(t, x), e) ensures t.events[e].to == t.applicants[x] {
      if x != a {
        assert EventsOf(t, x) == EventsOf(b, x);
        assert IsGreatest(EventsOf(b, x), e);
      }
    }
  }

  /** Whatever trail is seeded, it chains and ends at the stage the applicant is left in. */
  lemma {:induction false} HistoryKeepsChain(b: Board, a: string, trail: seq<Stage>)
    requires Keyed(b) && Chained(b) && a !in b.applicants && trail != []
    ensures var t := SeedHistory(b, a, trail);
            && Keyed(t) && Chained(t)
            && t.applicants == b.applicants[a := trail[|trail| - 1]] && t.slots == b.slots && t.log == b.log
  {
    if |trail| == 1 {
      ArrivalKeepsChain(b, a, trail[0]);
    } else {
      var init := trail[..|trail| - 1];
      HistoryKeepsChain(b, a, init);
      WriteKeepsChain(SeedHistory(b, a, init), a, trail[|trail| - 1]);
    }
  }

  /** The stages passed on the way to this one. */
  function TrailTo(stage: Stage): (trail: seq<Stage>)
    ensures trail != [] && trail[0] == Applied && trail[|trail| - 1] == stage
  {
    match stage
    case Applied => [Applied]
    case Screening => [Applied, Screening]
    case Interview => [Applied, Screening, Interview]
    case Offer => [Applied, Screening, Interview, Offer]
    case Rejected => [Applied, Screening, Rejected]
  }

  // ----- the rows of the seed -----

  /** One applicant with the trail behind them, or one slot; `place` is where the slot comes in start order. */
  datatype Row =
    | ApplicantRow(id: string, trail: seq<Stage>)
    | OpenSlot(id: string, place: nat)
    | BookedSlot(id: string, applicant: string, place: nat)

  const EMPTY := Board(map[], map[], [], map[], 0, [])

  /** New keys, and a booking is for somebody at Interview. */
  predicate Legal(b: Board, row: Row) {
    match row
    case ApplicantRow(id, trail) => id !in b.applicants && trail != []
    case OpenSlot(id, place) => id !in b.slots && place <= |b.calendar|
    case BookedSlot(id, a, place) =>
      id !in b.slots && place <= |b.calendar| && a in b.applicants && b.applicants[a] == Interview
  }

  function WithSlot(b: Board, slot: Slot, place: nat): Board
    requires place <= |b.calendar|
  {
    b.(slots := b.slots[slot.id := slot], calendar := PutAt(b.calendar, place, slot.id))
  }

  function Plant(b: Board, row: Row): Board
    requires Legal(b, row)
  {
    match row
    case ApplicantRow(id, trail) => SeedHistory(b, id, trail)
    case OpenSlot(id, place) => WithSlot(b, Slot(id, Open, None), place)
    case BookedSlot(id, a, place) => WithSlot(b, Slot(id, Booked, Some(a)), place)
  }

  ghost predicate AllLegal(rows: seq<Row>)
    decreases |rows|, 0
  {
    rows == [] || (AllLegal(rows[..|rows| - 1]) && Legal(Planted(rows[..|rows| - 1]), rows[|rows| - 1]))
  }

  ghost function Planted(rows: seq<Row>): Board
    requires AllLegal(rows)
    decreases |rows|, 1
  {
    if rows == [] then EMPTY else Plant(Planted(rows[..|rows| - 1]), rows[|rows| - 1])
  }

  /** The seeded board: what was planted, and the one line that logs it. */
  ghost function Seeded(rows: seq<Row>): Board
    requires AllLegal(rows)
  {
    Logged(Planted(rows), "seed", "pipeline", None)
  }

  // ----- what each row keeps -----

  /** A slot as the seed leaves it: open for anyone, or booked for someone. */
  ghost predicate SeededSlot(s: Slot) {
    (s.status == Open && s.applicant == None) || (s.status == Booked && s.applicant != None)
  }

  ghost predicate Sown(b: Board) {
    Keyed(b) && Chained(b) && (forall id :: id in b.slots ==> SeededSlot(b.slots[id])) && b.log == []
  }

  lemma SlotKeepsSown(b: Board, slot: Slot, place: nat)
    requires Sown(b) && slot.id !in b.slots && place <= |b.calendar| && SeededSlot(slot)
    ensures Sown(WithSlot(b, slot, place))
  {
    var t := WithSlot(b, slot, place);
    PutAtKeeps(b.calendar, place, slot.id);
    forall d, e | Adjacent(t, d, e) ensures t.events[e].from == Some(t.events[d].to) { assert Adjacent(b, d, e); }
    forall a ensures EventsOf(t, a) == EventsOf(b, a) {
    }
  }

  lemma PlantKeepsSown(b: Board, row: Row)
    requires Sown(b) && Legal(b, row)
    ensures Sown(Plant(b, row))
  {
    match row
    case ApplicantRow(id, trail) => HistoryKeepsChain(b, id, trail);
    case OpenSlot(id, place) => SlotKeepsSown(b, Slot(id, Open, None), place);
    case BookedSlot(id, a, place) => SlotKeepsSown(b, Slot(id, Booked, Some(a)), place);
  }

  lemma {:induction false} AllSown(rows: seq<Row>)
    requires AllLegal(rows)
    ensures Sown(Planted(rows))
  {
    if rows == [] {
    } else {
      AllSown(rows[..|rows| - 1]);
      PlantKeepsSown(Planted(rows[..|rows| - 1]), rows[|rows| - 1]);
    }
  }

  lemma NobodyHolds(b: Board, person: string)
    requires Keyed(b) && forall id :: id in b.slots ==> SeededSlot(b.slots[id])
    ensures HeldFor(SlotRows(b.slots, b.calendar), person) == []
  {
    forall s | s in SlotRows(b.slots, b.calendar) ensures !HeldBy(person)(s) {
      RowMember(b.slots, b.calendar, s);
    }
    FilterNone(SlotRows(b.slots, b.calendar), HeldBy(person));
  }

  /** An applicant planted at the end of the trail to a stage is at that stage. */
  lemma PlantedAtStage(b: Board, id: string, stage: Stage)
    requires Sown(b) && id !in b.applicants
    ensures Legal(b, ApplicantRow(id, TrailTo(stage)))
    ensures Plant(b, ApplicantRow(id, TrailTo(stage))).applicants == b.applicants[id := stage]
  {
    HistoryKeepsChain(b, id, TrailTo(stage));
  }

  /** Trails that chain, no slot held, no row that can be taken back: a sound board. */
  lemma SownIsSound(b: Board)
    requires Keyed(b) && Chained(b)
    requires forall id :: id in b.slots ==> SeededSlot(b.slots[id])
    requires forall k :: 0 <= k < |b.log| ==> !IsLive(b.log[k])
    ensures Sound(b)
  {
    forall p ensures |HeldFor(SlotRows(b.slots, b.calendar), p)| <= SLOTS_HELD_EACH {
      NobodyHolds(b, p);
    }
  }

  /** Whatever applicants and slots are seeded, in whatever order, the board satisfies the invariant every run keeps. */
  lemma SeededBoardIsSound(rows: seq<Row>)
    requires AllLegal(rows)
    ensures Sound(Seeded(rows))
  {
    AllSown(rows);
    var b, t := Planted(rows), Seeded(rows);
    forall d, e | Adjacent(t, d, e) ensures t.events[e].from == Some(t.events[d].to) { assert Adjacent(b, d, e); }
    forall a ensures EventsOf(t, a) == EventsOf(b, a) {
    }
    SownIsSound(t);
  }
}
