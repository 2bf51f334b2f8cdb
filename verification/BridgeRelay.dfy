/**
 The request protocol between a surface's relay (`examples/journey/src/relay.ts`) and the page's bridge
 (`packages/athena-bridge/inject.js`): two timers, a tool that settles when it likes, and messages that arrive in
 any order.
 */
module BridgeRelay {
  import opened Lists
  import opened Options

  // ----- deadlines -----

  const CALL_TIMEOUT_MS := 30000
  const RELAY_TIMEOUT_MS := 35000

  /** Whole milliseconds between one and the ceiling; `None` is a request that is not a finite number. */
  function Deadline(requested: Option<real>): int {
    var ms := if requested.Some? then requested.value.Floor else CALL_TIMEOUT_MS;
    var least := if ms < 1 then 1 else ms;
    if least > CALL_TIMEOUT_MS then CALL_TIMEOUT_MS else least
  }

  /**
   Never none, never past the page's ceiling nor the relay's timer, and what was asked for whenever that is in range.
   */
  lemma DeadlineIsClamped(requested: Option<real>)
    ensures 1 <= Deadline(requested) <= 30000 < RELAY_TIMEOUT_MS == 35000
    ensures requested.Some? ==>
              (Deadline(requested) as real <= requested.value < Deadline(requested) as real + 1.0
               <==> 1.0 <= requested.value < 30001.0)
  {
  }

  // ----- messages -----

  datatype Answer = Output(text: string) | Failure(reason: Option<string>, error: string)

  datatype Kind = ListTools | CallTool(name: string) | Unknown

  /** A request on its way to the page: the relay's carry the id it minted, a stray one may carry none. */
  datatype Request = Request(id: Option<nat>, kind: Kind)

  /** What the page posts: a reply to a request, or an event. */
  datatype Posted = Reply(id: Option<nat>, answer: Answer) | Late(call: nat, body: Answer) | ToolChange

  // ----- the relay -----

  datatype Settlement = FromPage(answer: Answer) | TimedOut

  /** `resolved` is every settlement there has been, in order. */
  datatype Relay = Relay(next: nat, pending: set<nat>, events: seq<Posted>, resolved: seq<(nat, Settlement)>)

  function Mint(r: Relay): Relay {
    r.(next := r.next + 1, pending := r.pending + {r.next})
  }

  function Settle(r: Relay, id: nat, how: Settlement): Relay {
    r.(pending := r.pending - {id}, resolved := r.resolved + [(id, how)])
  }

  function Receive(r: Relay, m: Posted): Relay {
    if m.Reply? && m.id.Some? then
      if m.id.value in r.pending then Settle(r, m.id.value, FromPage(m.answer)) else r
    else r.(events := r.events + [m])
  }

  function TimeOut(r: Relay, id: nat): Relay {
    if id in r.pending then Settle(r, id, TimedOut) else r
  }

  // ----- the page -----

  /** How a tool's promise settles; an output that cannot be put into text throws where it is rendered. */
  datatype Outcome =
    | Fulfilled(text: string)
    | Unrenderable(error: string)
    | Rejected(reason: Option<string>, error: string)

  const PAGE_MINTABLE: seq<string> := ["validator_failed", "timeout", "cancelled"]

  function FailureOf(reason: Option<string>, error: string): Answer {
    Failure(if reason.Some? && reason.value in PAGE_MINTABLE then reason else None, error)
  }

  function AnswerOf(o: Outcome): Answer {
    match o
    case Fulfilled(text) => Output(text)
    case Unrenderable(error) => FailureOf(None, error)
    case Rejected(reason, error) => FailureOf(reason, error)
  }

  /**
   One request at the page. `Expired` is a call whose deadline passed before its tool settled: `watched` when there is
   an id to name in a late event.
   */
  datatype Phase = Received | Running | Answered | Expired(watched: bool)

  /** The answer decided, and whether it has been posted. */
  datatype Handling = Handling(phase: Phase, answer: Option<Answer>, posted: bool)

  function TimeoutAnswer(name: string): Answer {
    Failure(Some("timeout"), name + " did not answer in time")
  }

  // ----- the world -----

  /**
   The requests sent, those delivered and where each is; the messages the page posted, whose each is, and those not
   yet delivered.
   */
  datatype World = World(
    relay: Relay, sent: seq<Request>, handled: map<nat, Handling>,
    posted: seq<Posted>, owners: seq<Option<nat>>, inFlight: set<nat>)

  const START := World(Relay(0, {}, [], []), [], map[], [], [], {})

  datatype Event =
    | Send(kind: Kind)
    | Stray(kind: Kind)
    | Deliver(request: nat)
    | Decide(request: nat, answer: Answer)
    | Run(request: nat)
    | ToolSettles(request: nat, outcome: Outcome)
    | DeadlinePasses(request: nat, onAbort: Option<Outcome>)
    | PostReply(request: nat)
    | Arrive(message: nat)
    | RelayTimer(id: nat)
    | Change

  predicate At(w: World, request: nat, phase: Phase) {
    request in w.handled && w.handled[request].phase == phase
  }

  predicate Enabled(w: World, e: Event) {
    match e
    case Send(_) => true
    case Stray(_) => true
    case Deliver(q) => q < |w.sent| && q !in w.handled
    case Decide(q, _) => At(w, q, Received)
    case Run(q) => q < |w.sent| && w.sent[q].kind.CallTool? && At(w, q, Received)
    case ToolSettles(q, _) => At(w, q, Running) || (q in w.handled && w.handled[q].phase.Expired?)
    case DeadlinePasses(q, _) => q < |w.sent| && w.sent[q].kind.CallTool? && At(w, q, Running)
    case PostReply(q) => q < |w.sent| && q in w.handled && w.handled[q].answer.Some? && !w.handled[q].posted
    case Arrive(m) => m in w.inFlight && m < |w.posted|
    case RelayTimer(id) => id in w.relay.pending
    case Change => true
  }

  function Post(w: World, m: Posted, owner: Option<nat>): World {
    w.(posted := w.posted + [m], owners := w.owners + [owner], inFlight := w.inFlight + {|w.posted|})
  }

  function Handle(w: World, q: nat, h: Handling): World {
    w.(handled := w.handled[q := h])
  }

  /** An expired call's tool settles: one late event, when there is an id to name and something to say. */
  function PostLate(w: World, q: nat, o: Outcome): World
    requires q in w.handled
  {
    var done := Handle(w, q, w.handled[q].(phase := Answered));
    if w.handled[q].phase.Expired? && w.handled[q].phase.watched && q < |w.sent| && w.sent[q].id.Some?
       && !o.Unrenderable?
    then
      Post(done, Late(w.sent[q].id.value, AnswerOf(o)), Some(q))
    else done
  }

  function Next(w: World, e: Event): World
    requires Enabled(w, e)
  {
    match e
    case Send(kind) => w.(relay := Mint(w.relay), sent := w.sent + [Request(Some(w.relay.next), kind)])
    case Stray(kind) => w.(sent := w.sent + [Request(None, kind)])
    case Deliver(q) => Handle(w, q, Handling(Received, None, false))
    case Decide(q, answer) => Handle(w, q, Handling(Answered, Some(answer), false))
    case Run(q) => Handle(w, q, Handling(Running, None, false))
    case ToolSettles(q, o) =>
      if w.handled[q].phase == Running then Handle(w, q, Handling(Answered, Some(AnswerOf(o)), false))
      else PostLate(w, q, o)
    case DeadlinePasses(q, onAbort) =>
      if onAbort.Some? && onAbort.value.Fulfilled?
      then Handle(w, q, Handling(Answered, Some(AnswerOf(onAbort.value)), false))
      else Handle(w, q, Handling(Expired(w.sent[q].id.Some?), Some(TimeoutAnswer(w.sent[q].kind.name)), false))
    case PostReply(q) =>
      Post(Handle(w, q, w.handled[q].(posted := true)), Reply(w.sent[q].id, w.handled[q].answer.value), Some(q))
    case Arrive(m) => w.(relay := Receive(w.relay, w.posted[m]), inFlight := w.inFlight - {m})
    case RelayTimer(id) => w.(relay := TimeOut(w.relay, id))
    case Change => Post(w, ToolChange, None)
  }

  // ----- the invariant -----

  ghost predicate IdsSound(w: World) {
    && (forall q :: 0 <= q < |w.sent| && w.sent[q].id.Some? ==> w.sent[q].id.value < w.relay.next)
    && (forall p, q :: 0 <= p < q < |w.sent| && w.sent[p].id.Some? ==> w.sent[p].id != w.sent[q].id)
    && (forall q :: q in w.handled ==> q < |w.sent|)
  }

  /** Every id minted is pending, or has settled once. */
  ghost predicate RelaySound(r: Relay) {
    && (forall id :: id in r.pending ==> id < r.next)
    && (forall k :: 0 <= k < |r.resolved| ==> r.resolved[k].0 < r.next && r.resolved[k].0 !in r.pending)
    && (forall j, k :: 0 <= j < k < |r.resolved| ==> r.resolved[j].0 != r.resolved[k].0)
    && (forall id :: 0 <= id < r.next && id !in r.pending ==>
        exists k :: 0 <= k < |r.resolved| && r.resolved[k].0 == id)
  }

  ghost predicate HandlingSound(h: Handling) {
    && (h.phase == Received || h.phase == Running ==> h.answer == None && !h.posted)
    && (h.phase == Answered || h.phase.Expired? ==> h.answer.Some?)
    && (h.phase.Expired? ==> h.answer.value.Failure? && h.answer.value.reason == Some("timeout"))
  }

  ghost predicate HandledSound(w: World) {
    forall q :: q in w.handled ==> HandlingSound(w.handled[q])
  }

  /**
   A posted reply is the decided answer of its owner, under its owner's id; a late event names a call answered
   `timeout`.
   */
  ghost predicate PostSound(w: World, k: nat)
    requires k < |w.posted| == |w.owners|
  {
    match w.posted[k]
    case Reply(id, answer) =>
      var q := w.owners[k];
      && q.Some? && q.value in w.handled && q.value < |w.sent| && w.sent[q.value].id == id
      && w.handled[q.value].posted && w.handled[q.value].answer == Some(answer)
    case Late(call, _) =>
      var q := w.owners[k];
      && q.Some? && q.value in w.handled && q.value < |w.sent| && w.sent[q.value].id == Some(call)
      && w.handled[q.value].phase == Answered && w.handled[q.value].answer.Some?
      && w.handled[q.value].answer.value.Failure? && w.handled[q.value].answer.value.reason == Some("timeout")
    case ToolChange => w.owners[k] == None
  }

  /** The `k`th message posted is this request's reply, or its late event. */
  ghost predicate IsReplyOf(w: World, k: int, q: nat)
    requires |w.posted| == |w.owners|
  {
    0 <= k < |w.posted| && w.posted[k].Reply? && w.owners[k] == Some(q)
  }

  ghost predicate IsLateOf(w: World, k: int, q: nat)
    requires |w.posted| == |w.owners|
  {
    0 <= k < |w.posted| && w.posted[k].Late? && w.owners[k] == Some(q)
  }

  ghost predicate PostsSound(w: World) {
    && |w.posted| == |w.owners|
    && (forall m :: m in w.inFlight ==> m < |w.posted|)
    && (forall k :: 0 <= k < |w.posted| ==> PostSound(w, k))
    && (forall j, k, q :: IsReplyOf(w, j, q) && IsReplyOf(w, k, q) ==> j == k)
    && (forall j, k, q :: IsLateOf(w, j, q) && IsLateOf(w, k, q) ==> j == k)
    && (forall q :: q in w.handled && w.handled[q].posted ==> exists k :: IsReplyOf(w, k, q))
  }

  /** A request settled from the page was settled with its own id's answer. */
  ghost predicate OwnAnswer(w: World, k: nat)
    requires k < |w.relay.resolved|
  {
    w.relay.resolved[k].1.FromPage? ==>
      exists q :: q in w.handled && 0 <= q < |w.sent| && w.sent[q].id == Some(w.relay.resolved[k].0)
                  && w.handled[q].posted && w.handled[q].answer == Some(w.relay.resolved[k].1.answer)
  }

  ghost predicate OwnAnswers(w: World) {
    forall k :: 0 <= k < |w.relay.resolved| ==> OwnAnswer(w, k)
  }

  ghost predicate Sound(w: World) {
    IdsSound(w) && RelaySound(w.relay) && HandledSound(w) && PostsSound(w) && OwnAnswers(w)
  }

  // ----- what the page does keeps it -----

  /** A request may only move on: what it has answered, and that it has posted, stay. */
  ghost predicate MovesOn(w: World, q: nat, h: Handling) {
    && HandlingSound(h)
    && (h.posted ==> q in w.handled && w.handled[q].posted)
    && (q in w.handled && w.handled[q].posted ==> h.posted && h.answer == w.handled[q].answer)
    && (q in w.handled && w.handled[q].phase == Answered ==> h.phase == Answered && h.answer == w.handled[q].answer)
  }

  lemma HandleKeepsPosts(w: World, q: nat, h: Handling)
    requires PostsSound(w) && q < |w.sent| && MovesOn(w, q, h)
    ensures PostsSound(Handle(w, q, h))
  {
    var t := Handle(w, q, h);
    forall k | 0 <= k < |t.posted| ensures PostSound(t, k) { assert PostSound(w, k); }
    forall j, k, p | IsReplyOf(t, j, p) && IsReplyOf(t, k, p) ensures j == k {
      assert IsReplyOf(w, j, p) && IsReplyOf(w, k, p);
    }
    forall j, k, p | IsLateOf(t, j, p) && IsLateOf(t, k, p) ensures j == k {
      assert IsLateOf(w, j, p) && IsLateOf(w, k, p);
    }
    forall p | p in t.handled && t.handled[p].posted ensures exists k :: IsReplyOf(t, k, p) {
      var k :| IsReplyOf(w, k, p);
      assert IsReplyOf(t, k, p);
    }
  }

  lemma HandleKeepsSound(w: World, q: nat, h: Handling)
    requires Sound(w) && q < |w.sent| && MovesOn(w, q, h)
    ensures Sound(Handle(w, q, h))
  {
    HandleKeepsPosts(w, q, h);
    var t := Handle(w, q, h);
    forall k | 0 <= k < |t.relay.resolved| ensures OwnAnswer(t, k) { HandleKeepsAnswer(w, q, h, k); }
  }

  lemma HandleKeepsAnswer(w: World, q: nat, h: Handling, k: nat)
    requires OwnAnswers(w) && q < |w.sent| && MovesOn(w, q, h) && k < |w.relay.resolved|
    ensures OwnAnswer(Handle(w, q, h), k)
  {
    assert OwnAnswer(w, k);
    if w.relay.resolved[k].1.FromPage? {
      var p :| p in w.handled && 0 <= p < |w.sent| && w.sent[p].id == Some(w.relay.resolved[k].0)
               && w.handled[p].posted && w.handled[p].answer == Some(w.relay.resolved[k].1.answer);
      assert p in Handle(w, q, h).handled;
    }
  }

  /** One more message is one more reply, late event or change, and no second of its owner's. */
  lemma PostKeepsPosts(w: World, m: Posted, owner: Option<nat>)
    requires |w.posted| == |w.owners| && PostSound(Post(w, m, owner), |w.posted|)
    requires (forall i :: i in w.inFlight ==> i < |w.posted|) && (forall k :: 0 <= k < |w.posted| ==> PostSound(w, k))
    requires (forall j, k, q :: IsReplyOf(w, j, q) && IsReplyOf(w, k, q) ==> j == k)
             && (forall j, k, q :: IsLateOf(w, j, q) && IsLateOf(w, k, q) ==> j == k)
    requires m.Reply? && owner.Some? ==> forall k :: !IsReplyOf(w, k, owner.value)
    requires m.Late? && owner.Some? ==> forall k :: !IsLateOf(w, k, owner.value)
    requires forall q :: q in w.handled && w.handled[q].posted ==>
               (m.Reply? && owner == Some(q)) || exists k :: IsReplyOf(w, k, q)
    ensures PostsSound(Post(w, m, owner))
  {
    var t := Post(w, m, owner);
    forall k | 0 <= k < |t.posted| ensures PostSound(t, k) {
      if k < |w.posted| { assert PostSound(w, k); }
    }
    forall k, q: nat
      ensures IsReplyOf(t, k, q) <==> IsReplyOf(w, k, q) || (k == |w.posted| && m.Reply? && owner == Some(q))
    {
    }
    forall k, q: nat
      ensures IsLateOf(t, k, q) <==> IsLateOf(w, k, q) || (k == |w.posted| && m.Late? && owner == Some(q))
    {
    }
    forall q | q in t.handled && t.handled[q].posted ensures exists k :: IsReplyOf(t, k, q) {
      if m.Reply? && owner == Some(q) {
        assert IsReplyOf(t, |w.posted|, q);
      } else {
        var k :| IsReplyOf(w, k, q);
        assert IsReplyOf(t, k, q);
      }
    }
  }

  lemma ReplyKeepsSound(w: World, q: nat)
    requires Sound(w) && Enabled(w, PostReply(q))
    ensures Sound(Next(w, PostReply(q)))
  {
    var h := w.handled[q].(posted := true);
    var marked, m := Handle(w, q, h), Reply(w.sent[q].id, h.answer.value);
    MarksOf(w);
    assert forall k :: !IsReplyOf(w, k, q);
    forall k | 0 <= k < |w.posted| ensures PostSound(marked, k) { assert PostSound(w, k); }
    SamePosts(w, marked);
    PostKeepsPosts(marked, m, Some(q));
    ReplyKeepsAnswers(w, q);
  }

  lemma SamePosts(w: World, t: World)
    requires |w.posted| == |w.owners| && t.posted == w.posted && t.owners == w.owners
    ensures forall k, p: nat ::
      (IsReplyOf(t, k, p) <==> IsReplyOf(w, k, p)) && (IsLateOf(t, k, p) <==> IsLateOf(w, k, p))
  {
  }

  /** Whoever has a reply has posted it, and whoever has a late event is done. */
  lemma MarksOf(w: World)
    requires PostsSound(w)
    ensures forall k, q: nat :: IsReplyOf(w, k, q) ==> q in w.handled && w.handled[q].posted
    ensures forall k, q: nat :: IsLateOf(w, k, q) ==> q in w.handled && w.handled[q].phase == Answered
  {
    forall k, q: nat | IsReplyOf(w, k, q) ensures q in w.handled && w.handled[q].posted { assert PostSound(w, k); }
    forall k, q: nat | IsLateOf(w, k, q)
      ensures q in w.handled && w.handled[q].phase == Answered
    {
      assert PostSound(w, k);
    }
  }

  lemma ReplyKeepsAnswers(w: World, q: nat)
    requires Sound(w) && Enabled(w, PostReply(q))
    ensures OwnAnswers(Next(w, PostReply(q)))
  {
    var t := Next(w, PostReply(q));
    forall k | 0 <= k < |t.relay.resolved| ensures OwnAnswer(t, k) {
      assert OwnAnswer(w, k);
      if w.relay.resolved[k].1.FromPage? {
        var p :| p in w.handled && 0 <= p < |w.sent| && w.sent[p].id == Some(w.relay.resolved[k].0)
                 && w.handled[p].posted && w.handled[p].answer == Some(w.relay.resolved[k].1.answer);
        assert p in t.handled;
      }
    }
  }

  lemma PostOnlyKeepsSound(w: World, m: Posted, owner: Option<nat>)
    requires Sound(w) && !m.Reply? && PostSound(Post(w, m, owner), |w.posted|)
    requires m.Late? && owner.Some? ==> forall k :: !IsLateOf(w, k, owner.value)
    ensures Sound(Post(w, m, owner))
  {
    PostKeepsPosts(w, m, owner);
    var t := Post(w, m, owner);
    forall k | 0 <= k < |t.relay.resolved| ensures OwnAnswer(t, k) { assert OwnAnswer(w, k); }
  }

  lemma LateKeepsSound(w: World, q: nat, o: Outcome)
    requires Sound(w) && q in w.handled && w.handled[q].phase.Expired?
    ensures Sound(PostLate(w, q, o))
  {
    var h := w.handled[q].(phase := Answered);
    var done := Handle(w, q, h);
    assert HandlingSound(w.handled[q]);
    HandleKeepsSound(w, q, h);
    MarksOf(w);
    assert forall k :: !IsLateOf(w, k, q);
    SamePosts(w, done);
    if w.handled[q].phase.watched && w.sent[q].id.Some? && !o.Unrenderable? {
      PostOnlyKeepsSound(done, Late(w.sent[q].id.value, AnswerOf(o)), Some(q));
    }
  }

  // ----- what the relay does keeps it -----

  lemma SettleKeepsRelay(r: Relay, id: nat, how: Settlement)
    requires RelaySound(r) && id in r.pending
    ensures RelaySound(Settle(r, id, how))
  {
    var t := Settle(r, id, how);
    forall x | 0 <= x < t.next && x !in t.pending ensures exists k :: 0 <= k < |t.resolved| && t.resolved[k].0 == x {
      if x == id {
        assert t.resolved[|r.resolved|].0 == id;
      } else {
        var k :| 0 <= k < |r.resolved| && r.resolved[k].0 == x;
        assert t.resolved[k].0 == x;
      }
    }
  }

  lemma MintKeepsRelay(r: Relay)
    requires RelaySound(r)
    ensures RelaySound(Mint(r))
  {
    var t := Mint(r);
    forall x | 0 <= x < t.next && x !in t.pending ensures exists k :: 0 <= k < |t.resolved| && t.resolved[k].0 == x {
      assert x < r.next && x !in r.pending;
    }
  }

  lemma RelayMoved(w: World, relay: Relay, inFlight: set<nat>)
    requires Sound(w) && RelaySound(relay) && relay.next == w.relay.next && inFlight <= w.inFlight
    requires OwnAnswers(w.(relay := relay))
    ensures Sound(w.(relay := relay, inFlight := inFlight))
  {
    var t := w.(relay := relay, inFlight := inFlight);
    forall k | 0 <= k < |t.posted| ensures PostSound(t, k) { assert PostSound(w, k); }
    SamePosts(w, t);
    forall q | q in t.handled && t.handled[q].posted ensures exists k :: IsReplyOf(t, k, q) {
      var k :| IsReplyOf(w, k, q);
      assert IsReplyOf(t, k, q);
    }
    forall k | 0 <= k < |relay.resolved| ensures OwnAnswer(t, k) { assert OwnAnswer(w.(relay := relay), k); }
  }

  lemma SettledKeepAnswers(w: World, id: nat, how: Settlement)
    requires OwnAnswers(w)
    requires how.FromPage? ==>
               exists q :: q in w.handled && 0 <= q < |w.sent| && w.sent[q].id == Some(id)
                           && w.handled[q].posted && w.handled[q].answer == Some(how.answer)
    ensures OwnAnswers(w.(relay := Settle(w.relay, id, how)))
  {
    var t := w.(relay := Settle(w.relay, id, how));
    forall k | 0 <= k < |t.relay.resolved| ensures OwnAnswer(t, k) {
      if k < |w.relay.resolved| { assert OwnAnswer(w, k); }
    }
  }

  lemma ArriveKeepsSound(w: World, m: nat)
    requires Sound(w) && Enabled(w, Arrive(m))
    ensures Sound(Next(w, Arrive(m)))
  {
    var msg := w.posted[m];
    assert PostSound(w, m);
    if msg.Reply? && msg.id.Some? && msg.id.value in w.relay.pending {
      var q := w.owners[m].value;
      assert q in w.handled;
      SettleKeepsRelay(w.relay, msg.id.value, FromPage(msg.answer));
      SettledKeepAnswers(w, msg.id.value, FromPage(msg.answer));
    } else {
      EventsKeepAnswers(w, msg);
    }
    RelayMoved(w, Receive(w.relay, msg), w.inFlight - {m});
  }

  lemma EventsKeepAnswers(w: World, msg: Posted)
    requires OwnAnswers(w) && RelaySound(w.relay)
    ensures var r := w.relay.(events := w.relay.events + [msg]); RelaySound(r) && OwnAnswers(w.(relay := r))
  {
    var t := w.(relay := w.relay.(events := w.relay.events + [msg]));
    forall k | 0 <= k < |t.relay.resolved| ensures OwnAnswer(t, k) { assert OwnAnswer(w, k); }
    forall x | 0 <= x < t.relay.next && x !in t.relay.pending
      ensures exists k :: 0 <= k < |t.relay.resolved| && t.relay.resolved[k].0 == x
    {
      assert x < w.relay.next && x !in w.relay.pending;
    }
  }

  lemma TimerKeepsSound(w: World, id: nat)
    requires Sound(w) && id in w.relay.pending
    ensures Sound(Next(w, RelayTimer(id)))
  {
    SettleKeepsRelay(w.relay, id, TimedOut);
    SettledKeepAnswers(w, id, TimedOut);
    RelayMoved(w, TimeOut(w.relay, id), w.inFlight);
    assert Next(w, RelayTimer(id)) == w.(relay := TimeOut(w.relay, id), inFlight := w.inFlight);
  }

  /** One more request on its way: nothing handled or posted looks at it yet. */
  lemma SentKeepsSound(w: World, r: Request, relay: Relay)
    requires Sound(w) && RelaySound(relay) && relay.next >= w.relay.next && relay.resolved == w.relay.resolved
    requires r.id.Some? ==> r.id.value == w.relay.next < relay.next
    ensures Sound(w.(relay := relay, sent := w.sent + [r]))
  {
    var t := w.(relay := relay, sent := w.sent + [r]);
    forall k | 0 <= k < |t.posted| ensures PostSound(t, k) { assert PostSound(w, k); }
    SamePosts(w, t);
    forall q | q in t.handled && t.handled[q].posted ensures exists k :: IsReplyOf(t, k, q) {
      var k :| IsReplyOf(w, k, q);
      assert IsReplyOf(t, k, q);
    }
    forall k | 0 <= k < |t.relay.resolved| ensures OwnAnswer(t, k) {
      assert OwnAnswer(w, k);
      if w.relay.resolved[k].1.FromPage? {
        var q :| q in w.handled && 0 <= q < |w.sent| && w.sent[q].id == Some(w.relay.resolved[k].0)
                 && w.handled[q].posted && w.handled[q].answer == Some(w.relay.resolved[k].1.answer);
        assert t.sent[q] == w.sent[q];
      }
    }
  }

  lemma NextKeepsSound(w: World, e: Event)
    requires Sound(w) && Enabled(w, e)
    ensures Sound(Next(w, e))
  {
    match e
    case Send(kind) =>
      MintKeepsRelay(w.relay);
      SentKeepsSound(w, Request(Some(w.relay.next), kind), Mint(w.relay));
    case Stray(kind) =>
      SentKeepsSound(w, Request(None, kind), w.relay);
      assert Next(w, e) == w.(relay := w.relay, sent := w.sent + [Request(None, kind)]);
    case Deliver(q) => HandleKeepsSound(w, q, Handling(Received, None, false));
    case Decide(q, answer) => MoveKeepsSound(w, q, Handling(Answered, Some(answer), false));
    case Run(q) => MoveKeepsSound(w, q, Handling(Running, None, false));
    case ToolSettles(q, o) =>
      if w.handled[q].phase == Running {
        MoveKeepsSound(w, q, Handling(Answered, Some(AnswerOf(o)), false));
      } else {
        LateKeepsSound(w, q, o);
      }
    case DeadlinePasses(q, onAbort) =>
      if onAbort.Some? && onAbort.value.Fulfilled? {
        MoveKeepsSound(w, q, Handling(Answered, Some(AnswerOf(onAbort.value)), false));
      } else {
        MoveKeepsSound(w, q, Handling(Expired(w.sent[q].id.Some?), Some(TimeoutAnswer(w.sent[q].kind.name)), false));
      }
    case PostReply(q) => ReplyKeepsSound(w, q);
    case Arrive(m) => ArriveKeepsSound(w, m);
    case RelayTimer(id) => TimerKeepsSound(w, id);
    case Change => PostOnlyKeepsSound(w, ToolChange, None);
  }

  lemma MoveKeepsSound(w: World, q: nat, h: Handling)
    requires Sound(w) && (At(w, q, Received) || At(w, q, Running)) && HandlingSound(h) && !h.posted
    ensures Sound(Handle(w, q, h))
  {
    assert HandlingSound(w.handled[q]);
    HandleKeepsSound(w, q, h);
  }

  // ----- runs -----

  ghost predicate Possible(events: seq<Event>)
    decreases |events|, 0
  {
    events == [] || (Possible(events[..|events| - 1]) && Enabled(After(events[..|events| - 1]), events[|events| - 1]))
  }

  ghost function After(events: seq<Event>): (w: World)
    requires Possible(events)
    ensures Sound(w)
    decreases |events|, 1
  {
    if events == [] then START
    else
      NextKeepsSound(After(events[..|events| - 1]), events[|events| - 1]);
      Next(After(events[..|events| - 1]), events[|events| - 1])
  }

  function HasId(id: nat): ((nat, Settlement)) -> bool {
    (s: (nat, Settlement)) => s.0 == id
  }

  lemma {:induction false} CountDistinct(resolved: seq<(nat, Settlement)>, id: nat)
    requires forall j, k :: 0 <= j < k < |resolved| ==> resolved[j].0 != resolved[k].0
    ensures |Filter(resolved, HasId(id))| == if exists k :: 0 <= k < |resolved| && resolved[k].0 == id then 1 else 0
  {
    if resolved == [] {
    } else {
      var init, last := resolved[..|resolved| - 1], resolved[|resolved| - 1];
      CountDistinct(init, id);
      FilterSnoc(init, last, HasId(id));
      assert resolved == init + [last];
    }
  }

  /**
   Under every interleaving, every request the relay has made is either still pending, and its timer can settle it,
   or has settled exactly once: with the relay's own timeout, or with the answer the page decided for that very id.
   */
  lemma SettlesOnce(events: seq<Event>, id: nat)
    requires Possible(events) && id < After(events).relay.next
    ensures var w := After(events);
            && |Filter(w.relay.resolved, HasId(id))| == (if id in w.relay.pending then 0 else 1)
            && (id in w.relay.pending ==> Enabled(w, RelayTimer(id)) && id !in Next(w, RelayTimer(id)).relay.pending)
            && forall k ::
                 0 <= k < |w.relay.resolved| && w.relay.resolved[k].0 == id && w.relay.resolved[k].1.FromPage? ==>
                 exists q :: 0 <= q < |w.sent| && w.sent[q].id == Some(id) && q in w.handled
                             && w.handled[q].answer == Some(w.relay.resolved[k].1.answer)
  {
    var w := After(events);
    CountDistinct(w.relay.resolved, id);
    forall k | 0 <= k < |w.relay.resolved| && w.relay.resolved[k].0 == id && w.relay.resolved[k].1.FromPage?
      ensures exists q :: 0 <= q < |w.sent| && w.sent[q].id == Some(id) && q in w.handled
                          && w.handled[q].answer == Some(w.relay.resolved[k].1.answer)
    {
      assert OwnAnswer(w, k);
    }
  }

  /** No two requests share an id, so an id's answer is one request's. */
  lemma IdsAreOnes(events: seq<Event>, p: nat, q: nat)
    requires Possible(events) && p < |After(events).sent| && q < |After(events).sent|
    requires After(events).sent[p].id.Some? && After(events).sent[p].id == After(events).sent[q].id
    ensures p == q
  {
    assert IdsSound(After(events));
  }

  /** The page posts one reply per request, the answer it decided, under the request's id. */
  lemma OneReplyEach(events: seq<Event>, q: nat, j: nat, k: nat)
    requires Possible(events)
    ensures var w := After(events);
            && |w.posted| == |w.owners|
            && (IsReplyOf(w, j, q) && IsReplyOf(w, k, q) ==> j == k)
            && (q in w.handled && w.handled[q].posted ==> exists i :: IsReplyOf(w, i, q))
            && (IsReplyOf(w, k, q) ==>
                  && q < |w.sent| && q in w.handled && w.posted[k].id == w.sent[q].id
                  && w.handled[q].answer == Some(w.posted[k].answer))
  {
    var w := After(events);
    if IsReplyOf(w, k, q) { assert PostSound(w, k); }
  }

  // ----- progress at the page -----

  /** The most events of its own a request is from having its reply posted. */
  function Rank(w: World, q: nat): nat {
    if q !in w.handled then 4
    else if w.handled[q].posted then 0
    else if w.handled[q].phase == Received then 3
    else if w.handled[q].phase == Running then 2
    else 1
  }

  /** An event that is this request's own, and comes before its reply is out. */
  predicate OwnEvent(w: World, e: Event, q: nat) {
    || e == Deliver(q) || (e.Decide? && e.request == q) || e == Run(q)
    || (e.ToolSettles? && e.request == q && At(w, q, Running))
    || (e.DeadlinePasses? && e.request == q) || e == PostReply(q)
  }

  /** No event sets a request back, and each of its own brings it nearer its reply. */
  lemma RankFalls(w: World, e: Event, q: nat)
    requires Sound(w) && Enabled(w, e)
    ensures Rank(Next(w, e), q) <= Rank(w, q)
    ensures OwnEvent(w, e, q) ==> Rank(Next(w, e), q) < Rank(w, q)
  {
    if q in w.handled { assert HandlingSound(w.handled[q]); }
  }

  /** Only a call is run, so whatever runs has a deadline. */
  ghost predicate CallsRun(w: World) {
    forall q :: q in w.handled && w.handled[q].phase == Running ==> q < |w.sent| && w.sent[q].kind.CallTool?
  }

  lemma NextKeepsCallsRun(w: World, e: Event)
    requires CallsRun(w) && Enabled(w, e)
    ensures CallsRun(Next(w, e))
  {
  }

  lemma {:induction false} AlwaysCallsRun(events: seq<Event>)
    requires Possible(events)
    ensures CallsRun(After(events))
  {
    if events == [] {
    } else {
      AlwaysCallsRun(events[..|events| - 1]);
      NextKeepsCallsRun(After(events[..|events| - 1]), events[|events| - 1]);
    }
  }

  /** The event that moves a request on without the help of its tool: the deadline passes over a call that runs. */
  function StepOf(w: World, q: nat): Event {
    if q !in w.handled then Deliver(q)
    else if w.handled[q].phase == Received then Decide(q, FailureOf(None, ""))
    else if w.handled[q].phase == Running then DeadlinePasses(q, None)
    else PostReply(q)
  }

  /** A request whose reply is not out is never stuck, whatever its tool does. */
  lemma NeverStuck(w: World, q: nat)
    requires Sound(w) && CallsRun(w) && q < |w.sent| && Rank(w, q) > 0
    ensures Enabled(w, StepOf(w, q)) && OwnEvent(w, StepOf(w, q), q) && !StepOf(w, q).ToolSettles?
  {
    if q in w.handled { assert HandlingSound(w.handled[q]); }
  }

  /** `longer` goes on from `events` with at most `n` more, in none of which a tool settles. */
  ghost predicate GoesOn(events: seq<Event>, longer: seq<Event>, n: nat) {
    && |events| <= |longer| <= |events| + n
    && (forall k :: 0 <= k < |events| ==> longer[k] == events[k])
    && (forall k :: |events| <= k < |longer| ==> !longer[k].ToolSettles?)
  }

  lemma OneStepNearer(events: seq<Event>, q: nat) returns (longer: seq<Event>)
    requires Possible(events) && q < |After(events).sent| && Rank(After(events), q) > 0
    ensures GoesOn(events, longer, 1) && Possible(longer) && q < |After(longer).sent|
    ensures Rank(After(longer), q) < Rank(After(events), q)
  {
    var e := StepOf(After(events), q);
    AlwaysCallsRun(events);
    NeverStuck(After(events), q);
    RankFalls(After(events), e, q);
    longer := events + [e];
    assert longer[..|longer| - 1] == events;
  }

  lemma GoesOnOn(a: seq<Event>, b: seq<Event>, c: seq<Event>, m: nat, n: nat)
    requires GoesOn(a, b, m) && GoesOn(b, c, n)
    ensures GoesOn(a, c, m + n)
  {
    assert forall k :: 0 <= k < |a| ==> c[k] == b[k];
  }

  /** A run after which request `q` has been sent, and is at most `r` events of its own from its reply. */
  ghost predicate Within(events: seq<Event>, q: nat, r: nat) {
    Possible(events) && q < |After(events).sent| && Rank(After(events), q) <= r
  }

  lemma Nearer(events: seq<Event>, q: nat, r: nat) returns (longer: seq<Event>)
    requires Within(events, q, r) && r > 0
    ensures GoesOn(events, longer, 1) && Within(longer, q, r - 1)
  {
    longer := events;
    if Rank(After(events), q) > 0 { longer := OneStepNearer(events, q); }
  }

  lemma {:induction false} WithinReaches(events: seq<Event>, q: nat, r: nat) returns (longer: seq<Event>)
    requires Within(events, q, r)
    ensures GoesOn(events, longer, r) && Within(longer, q, 0)
    decreases r
  {
    if r == 0 {
      longer := events;
    } else {
      var nearer := Nearer(events, q, r);
      longer := WithinReaches(nearer, q, r - 1);
      GoesOnOn(events, nearer, longer, 1, r - 1);
    }
  }

  /**
   After any run, every request sent can still get its reply, in as many further events as its rank and without its
   tool ever settling.
   */
  lemma ReplyCanFollow(events: seq<Event>, q: nat) returns (longer: seq<Event>)
    requires Possible(events) && q < |After(events).sent|
    ensures GoesOn(events, longer, Rank(After(events), q)) && Rank(After(events), q) <= 4
    ensures Possible(longer) && q in After(longer).handled && After(longer).handled[q].posted
  {
    longer := WithinReaches(events, q, Rank(After(events), q));
  }

  /**
   A late event is posted at most once for a request, names its id, and only for a call answered `timeout`; one that
   came with no id has none.
   */
  lemma LateAtMostOnce(events: seq<Event>, q: nat, j: nat, k: nat)
    requires Possible(events)
    ensures var w := After(events);
            && |w.posted| == |w.owners|
            && (IsLateOf(w, j, q) && IsLateOf(w, k, q) ==> j == k)
            && (IsLateOf(w, k, q) ==>
                  && q < |w.sent| && w.sent[q].id == Some(w.posted[k].call) && q in w.handled
                  && w.handled[q].answer.Some? && w.handled[q].answer.value.Failure?
                  && w.handled[q].answer.value.reason == Some("timeout"))
  {
    var w := After(events);
    if IsLateOf(w, k, q) { assert PostSound(w, k); }
  }

  // ----- the relay as it runs -----

  class RelayHalf {
    var next: nat
    var pending: set<nat>
    var events: seq<Posted>
    var resolved: seq<(nat, Settlement)>

    ghost function View(): Relay
      reads this
    {
      Relay(next, pending, events, resolved)
    }

    constructor ()
      ensures View() == Relay(0, {}, [], [])
    {
      next, pending, events, resolved := 0, {}, [], [];
    }

    /** Mints an id and waits on it. */
    method Request() returns (id: nat)
      modifies this
      ensures View() == Mint(old(View())) && id == old(next)
    {
      id := next;
      next := next + 1;
      pending := pending + {id};
    }

    /**
     A message from the page: a reply settles the id it names if that is still awaited; anything else is an event or
     nothing.
     */
    method OnMessage(m: Posted)
      modifies this
      ensures View() == Receive(old(View()), m)
    {
      if !m.Reply? || m.id.None? {
        events := events + [m];
        return;
      }
      if m.id.value !in pending { return; }
      pending := pending - {m.id.value};
      resolved := resolved + [(m.id.value, FromPage(m.answer))];
    }

    /** The relay's own timer; a settled id's has been cleared. */
    method OnTimer(id: nat)
      modifies this
      ensures View() == TimeOut(old(View()), id)
    {
      if id !in pending { return; }
      pending := pending - {id};
      resolved := resolved + [(id, TimedOut)];
    }
  }
}
