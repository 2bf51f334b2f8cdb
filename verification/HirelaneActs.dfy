/** The dossier's rules (`lib/acts.ts`, `lib/constants.ts`): what is offered at a stage, given the slot table. */
module HirelaneActs {
  import opened Lists
  import opened Options

  datatype Stage = Applied | Screening | Interview | Offer | Rejected
  datatype SlotStatus = Open | Proposed | Booked
  datatype Slot = Slot(id: string, status: SlotStatus, applicant: Option<string>)

  datatype ActReason = Decided | TooEarly | NoSlot | AlreadyHeld | NextIsADecision

  const FREE_SLOTS_LISTED := 12
  const SLOTS_HELD_EACH := 3

  predicate IsMoveStage(s: Stage) { s == Screening || s == Interview }

  predicate IsDecisionStage(s: Stage) { s == Offer || s == Rejected }

  function LadderNext(s: Stage): Option<Stage> {
    match s
    case Applied => Some(Screening)
    case Screening => Some(Interview)
    case Interview => Some(Offer)
    case Offer => Some(Rejected)
    case Rejected => None
  }

  function NextMoveFor(s: Stage): Option<Stage> {
    if IsDecisionStage(s) then None
    else if LadderNext(s).Some? && IsMoveStage(LadderNext(s).value) then LadderNext(s) else None
  }

  function DecidedReason(s: Stage): Option<ActReason> {
    if IsDecisionStage(s) then Some(Decided) else None
  }

  function ScheduleReason(s: Stage): Option<ActReason> {
    if IsDecisionStage(s) then Some(Decided) else if s == Interview then None else Some(TooEarly)
  }

  predicate CanBook(slot: Slot, person: Option<string>) {
    slot.status != Booked && (slot.applicant == None || slot.applicant == person)
  }

  predicate IsFree(slot: Slot) {
    CanBook(slot, None)
  }

  function HeldBy(person: string): Slot -> bool {
    (s: Slot) => s.status == Proposed && s.applicant == Some(person)
  }

  function OwnBookable(person: string): Slot -> bool {
    (s: Slot) => s.applicant == Some(person) && CanBook(s, Some(person))
  }

  function Take<T>(s: seq<T>, n: nat): seq<T> {
    if n < |s| then s[..n] else s
  }

  /** What the dossier lists: holds of this applicant's first, then open slots up to the cap. */
  function BookableSlots(slots: seq<Slot>, person: string): seq<Slot> {
    Filter(slots, OwnBookable(person)) + Take(Filter(slots, IsFree), FREE_SLOTS_LISTED)
  }

  function HeldFor(slots: seq<Slot>, person: string): seq<Slot> {
    Filter(slots, HeldBy(person))
  }

  function ProposeReason(person: string, stage: Stage, slots: seq<Slot>): Option<ActReason> {
    if ScheduleReason(stage).Some? then ScheduleReason(stage)
    else if |HeldFor(slots, person)| >= SLOTS_HELD_EACH then Some(AlreadyHeld)
    else if Filter(slots, IsFree) != [] then None
    else Some(NoSlot)
  }

  /** As many open slots as bring this applicant's holds up to the limit. */
  function SlotsToHold(slots: seq<Slot>, person: string): seq<Slot> {
    var held := |HeldFor(slots, person)|;
    Take(Filter(slots, IsFree), if held < SLOTS_HELD_EACH then SLOTS_HELD_EACH - held else 0)
  }

  datatype Acts = Acts(
    move: Option<ActReason>, moveTo: Option<Stage>, propose: Option<ActReason>, offer: Option<ActReason>,
    schedule: Option<ActReason>, scheduleSlots: seq<Slot>)

  /** For each button, `None` when it may be pressed and otherwise what it answers. */
  function ActsFor(person: string, stage: Stage, slots: seq<Slot>): Acts {
    var decided := DecidedReason(stage);
    var to := NextMoveFor(stage);
    var early := ScheduleReason(stage);
    var bookable := if early.Some? then [] else BookableSlots(slots, person);
    Acts(
      if to.Some? then None else if decided.Some? then decided else Some(NextIsADecision), to,
      ProposeReason(person, stage, slots), decided,
      if early.Some? then early else if bookable != [] then None else Some(NoSlot), bookable)
  }

  // ----- the list and the rule -----

  lemma TakeKeeps<T>(s: seq<T>, n: nat)
    ensures Take(s, n) <= s && |Take(s, n)| <= n
    ensures n > 0 && s != [] ==> Take(s, n) != []
    ensures |s| <= n ==> Take(s, n) == s
  {
  }

  /** Every listed slot may be booked for the person; some slot may be booked exactly when one is listed. */
  lemma ListedExactlyWhenBookable(slots: seq<Slot>, person: string)
    ensures forall s :: s in BookableSlots(slots, person) ==> s in slots && CanBook(s, Some(person))
    ensures BookableSlots(slots, person) != [] <==> exists s :: s in slots && CanBook(s, Some(person))
    ensures |Filter(slots, IsFree)| <= FREE_SLOTS_LISTED ==>
              forall s :: s in slots && CanBook(s, Some(person)) ==> s in BookableSlots(slots, person)
  {
    var own, free := Filter(slots, OwnBookable(person)), Filter(slots, IsFree);
    TakeKeeps(free, FREE_SLOTS_LISTED);
    forall s ensures (s in own <==> s in slots && OwnBookable(person)(s)) && (s in free <==> s in slots && IsFree(s)) {
      FilterMember(slots, OwnBookable(person), s);
      FilterMember(slots, IsFree, s);
    }
    assert forall s :: s in BookableSlots(slots, person) ==> s in own || s in free;
    if s :| s in slots && CanBook(s, Some(person)) {
      assert s in own || s in free;
    }
    if BookableSlots(slots, person) != [] {
      assert BookableSlots(slots, person)[0] in BookableSlots(slots, person);
    }
  }
}
