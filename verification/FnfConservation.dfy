/**
 Reliable fire-and-forget: every message sent with a timeout is accounted for.
 A ledger is kept from what can be observed (inputs, transmissions, reports);
 it is proved to agree with the session's own table of pending messages.
 */
module FnfConservation {
  import opened Messages
  import opened Timers
  import opened FireAndForget

  datatype Fate = Waiting | Acked | TimedOut

  /** A message sent with a timeout: its timer, how often the timer fired and the message was transmitted. */
  datatype Entry = Entry(msg: Message, timer: Timer, fired: nat, sends: nat, fate: Fate)

  /** An event queued by a retry timer for the session's loop. */
  datatype TimerEvent = Retry(id: MsgId) | GiveUp(id: MsgId)

  datatype World = World(
    state: State,
    queue: seq<TimerEvent>,     // queued by timers, handled in order
    fires: map<nat, nat>,       // how often the timer of a pending id has fired
    ledger: seq<Entry>)

  datatype Action =
    | App(msg: Message, id: MsgId)
    | Slim(msg: Message, ids: seq<MsgId>)
    | Configure(config: Config)
    | Fire(id: MsgId)   // the timer of a pending message fires
    | Handle            // the oldest queued event is handled

  // ------------------------------------------------------------ the ledger

  /** The waiting entry of this id, if any, is settled. */
  function Settle(ledger: seq<Entry>, id: nat, fate: Fate): seq<Entry> {
    seq(|ledger|, k requires 0 <= k < |ledger| =>
      if ledger[k].fate.Waiting? && ledger[k].msg.id == id then ledger[k].(fate := fate) else ledger[k])
  }

  /** The waiting entry of exactly this message, if any, has been transmitted once more. */
  function SentAgain(ledger: seq<Entry>, m: Message): seq<Entry> {
    seq(|ledger|, k requires 0 <= k < |ledger| =>
      if ledger[k].fate.Waiting? && ledger[k].msg == m then ledger[k].(sends := ledger[k].sends + 1) else ledger[k])
  }

  /** The waiting entry of exactly this message, if any, has been reported. */
  function Reported(ledger: seq<Entry>, m: Message): seq<Entry> {
    seq(|ledger|, k requires 0 <= k < |ledger| =>
      if ledger[k].fate.Waiting? && ledger[k].msg == m then ledger[k].(fate := TimedOut) else ledger[k])
  }

  /** The timer of the waiting entry of exactly this message, if any, has fired once more. */
  function FiredAgain(ledger: seq<Entry>, m: Message): seq<Entry> {
    seq(|ledger|, k requires 0 <= k < |ledger| =>
      if ledger[k].fate.Waiting? && ledger[k].msg == m then ledger[k].(fired := ledger[k].fired + 1) else ledger[k])
  }

  function NewEntry(config: Config, m: Message): Entry
    requires config.timeout.Some?
  {
    Entry(m, Timer(m.id, Constant, config.timeout.value, None, config.maxRetries), 0, 1, Waiting)
  }

  /** A message that is never acknowledged is reported after one wait more than it has retries. */
  lemma EntryTimerBudget(config: Config, m: Message)
    requires config.timeout.Some? && config.maxRetries.Some?
    ensures var t, n := NewEntry(config, m).timer, config.maxRetries.value;
            && TotalWait(t, n + 1) == (n + 1) * config.timeout.value && t.id == m.id
            && CallNo(t, None, n) == OnFailure(m.id, n + 1)
            && forall k :: 0 <= k < n ==> CallNo(t, None, k) == OnTimeout(m.id, k + 1)
  {
    ConstantTotal(NewEntry(config, m).timer, config.maxRetries.value + 1);
  }

  function NewEntries(config: Config, ms: seq<Message>): seq<Entry> {
    if config.timeout.None? then []
    else seq(|ms|, k requires 0 <= k < |ms| => NewEntry(config, ms[k]))
  }

  /** What an observer notes when the session handles an input. */
  function Account(s: State, ledger: seq<Entry>, i: Input, out: Out): seq<Entry> {
    match i
    case FromApp(_, _) => ledger + NewEntries(s.config, out.numbered)
    case FromSlim(m, _) =>
      (if m.header.FnfAck? && !FromStranger(s, m) then Settle(ledger, m.id, Acked) else ledger)
      + NewEntries(s.config, out.numbered)
    case SetConfig(_) => ledger
    case TimerTimeout(_) => if |out.toSlim| == 1 then SentAgain(ledger, out.toSlim[0]) else ledger
    case TimerFailure(_) =>
      if |out.toApp| == 1 && out.toApp[0].TimeoutError? then Reported(ledger, out.toApp[0].msg) else ledger
  }

  // ------------------------------------------------------------- the world

  function Fired(w: World, id: nat): nat {
    if id in w.fires then w.fires[id] else 0
  }

  predicate MayFire(t: Timer, fired: nat) {
    t.maxRetries.None? || fired <= t.maxRetries.value
  }

  function EventFor(id: MsgId, t: Timer, fired: nat): TimerEvent {
    if CallNo(t, None, fired).OnFailure? then GiveUp(id) else Retry(id)
  }

  /** The ids for which new timers are started. */
  function NewTimers(config: Config, ms: seq<Message>): set<nat> {
    if config.timeout.Some? then set m <- ms :: m.id as nat else {}
  }

  function Process(w: World, i: Input): World {
    var out := Step(w.state, i);
    World(out.state, w.queue, w.fires - NewTimers(w.state.config, out.numbered),
          Account(w.state, w.ledger, i, out))
  }

  function Next(w: World, a: Action): World {
    match a
    case App(msg, id) => Process(w, FromApp(msg, id))
    case Slim(msg, ids) => Process(w, FromSlim(msg, ids))
    case Configure(config) => Process(w, SetConfig(config))
    case Fire(id) =>
      if id in w.state.timers && MayFire(w.state.timers[id].timer, Fired(w, id)) then
        w.(queue := w.queue + [EventFor(id, w.state.timers[id].timer, Fired(w, id))],
        fires := w.fires[id := Fired(w, id) + 1],
        ledger := FiredAgain(w.ledger, w.state.timers[id].msg))
      else w
    case Handle =>
      if w.queue == [] then w
      else
        var rest := w.(queue := w.queue[1..]);
        match w.queue[0]
        case Retry(id) => Process(rest, TimerTimeout(id))
        case GiveUp(id) => Process(rest, TimerFailure(id))
  }

  /** The messages that an action sends under ids drawn for them. */
  function Drawn(w: World, a: Action): seq<Message> {
    match a
    case App(msg, id) => Step(w.state, FromApp(msg, id)).numbered
    case Slim(msg, ids) => Step(w.state, FromSlim(msg, ids)).numbered
    case _ => []
  }

  /** Reliable messages get ids that no pending message has, and no two the same. */
  ghost predicate PendingFresh(w: World, a: Action) {
    var ms := Drawn(w, a);
    w.state.config.timeout.Some? ==>
      && (forall k :: 0 <= k < |ms| ==> ms[k].id !in w.state.timers)
      && (forall j, k :: 0 <= j < k < |ms| ==> ms[j].id != ms[k].id)
  }

  /** No event still queued by an earlier timer carries an id given to a reliable message. */
  ghost predicate QueueFresh(w: World, a: Action) {
    var ms := Drawn(w, a);
    w.state.config.timeout.Some? ==> forall j, k :: 0 <= j < |w.queue| && 0 <= k < |ms| ==> w.queue[j].id != ms[k].id
  }

  function RunFrom(w: World, acts: seq<Action>): World {
    if acts == [] then w else Next(RunFrom(w, acts[..|acts| - 1]), acts[|acts| - 1])
  }

  function Begin(me: Agent, config: Config): World {
    World(Initial(me, config), [], map[], [])
  }

  /** Every action of the run draws ids that are fresh among the pending ones. */
  ghost predicate PendingFreshRun(w: World, acts: seq<Action>) {
    acts == [] ||
    var n := |acts| - 1; PendingFreshRun(w, acts[..n]) && PendingFresh(RunFrom(w, acts[..n]), acts[n])
  }

  /** Every action of the run draws ids that no queued event carries. */
  ghost predicate QueueFreshRun(w: World, acts: seq<Action>) {
    acts == [] ||
    var n := |acts| - 1; QueueFreshRun(w, acts[..n]) && QueueFresh(RunFrom(w, acts[..n]), acts[n])
  }

  // --------------------------------------------------------- the invariant

  function Count(queue: seq<TimerEvent>, e: TimerEvent): nat {
    if queue == [] then 0
    else Count(queue[..|queue| - 1], e) + if queue[|queue| - 1] == e then 1 else 0
  }

  /** The pending table holds exactly the waiting entries, each with its own copy and timer. */
  ghost predicate Agree(timers: map<nat, Pending>, ledger: seq<Entry>) {
    && (forall k :: 0 <= k < |ledger| && ledger[k].fate.Waiting? ==>
          && ledger[k].msg.id in timers
          && timers[ledger[k].msg.id] == Pending(ledger[k].timer, ledger[k].msg)
          && ledger[k].timer.id == ledger[k].msg.id)
    && (forall j, k :: 0 <= j < k < |ledger| && ledger[j].fate.Waiting? && ledger[k].fate.Waiting? ==>
          ledger[j].msg.id != ledger[k].msg.id)
    && (forall id :: id in timers ==>
          exists k :: 0 <= k < |ledger| && ledger[k].fate.Waiting? && ledger[k].msg.id == id)
  }

  /** Retries that the timer of an entry has asked for so far. */
  function Retries(t: Timer, fired: nat): nat {
    if t.maxRetries.Some? && fired > t.maxRetries.value then t.maxRetries.value else fired
  }

  /** The transmissions of an entry match the firings of its timer, up to what is still queued. */
  ghost predicate Counted(queue: seq<TimerEvent>, e: Entry) {
    var max := e.timer.maxRetries;
    match e.fate
    case Waiting =>
      && e.sends + Count(queue, Retry(e.msg.id)) == 1 + Retries(e.timer, e.fired)
      && (max.Some? ==> e.fired <= max.value + 1)
      && (Count(queue, GiveUp(e.msg.id)) > 0 ==> max.Some? && e.fired == max.value + 1)
    case _ => Owned(e)
  }

  /**
   A message is transmitted again only at the request of its own timer, and reported
   only after its own timer has used up the whole budget.
   */
  predicate Owned(e: Entry) {
    var max := e.timer.maxRetries;
    && e.sends <= 1 + Retries(e.timer, e.fired)
    && (e.fate.TimedOut? ==> max.Some? && e.fired == max.value + 1 && e.sends == max.value + 1)
  }

  /** A timer never asks for a retry after it has given up. */
  ghost predicate Ordered(queue: seq<TimerEvent>) {
    forall i, j :: 0 <= i < j < |queue| && queue[i].GiveUp? ==> queue[j] != Retry(queue[i].id)
  }

  ghost predicate AllCounted(queue: seq<TimerEvent>, ledger: seq<Entry>) {
    forall k :: 0 <= k < |ledger| ==> Counted(queue, ledger[k])
  }

  /** The running timer of a waiting entry is its own. */
  ghost predicate Linked(w: World) {
    forall k :: 0 <= k < |w.ledger| && w.ledger[k].fate.Waiting? ==> w.ledger[k].fired == Fired(w, w.ledger[k].msg.id)
  }

  ghost predicate Inv(w: World) {
    Agree(w.state.timers, w.ledger) && Ordered(w.queue) && AllCounted(w.queue, w.ledger) && Linked(w)
  }

  // ------------------------------------------------ the table and the ledger

  lemma AgreeAdd(timers: map<nat, Pending>, ledger: seq<Entry>, e: Entry)
    requires Agree(timers, ledger) && e.fate.Waiting? && e.msg.id !in timers && e.timer.id == e.msg.id
    ensures Agree(timers[e.msg.id := Pending(e.timer, e.msg)], ledger + [e])
  {
    var timers', ledger' := timers[e.msg.id := Pending(e.timer, e.msg)], ledger + [e];
    forall id | id in timers'
      ensures exists k :: 0 <= k < |ledger'| && ledger'[k].fate.Waiting? && ledger'[k].msg.id == id
    {
      if id == e.msg.id {
        assert ledger'[|ledger|] == e;
      } else {
        var k :| 0 <= k < |ledger| && ledger[k].fate.Waiting? && ledger[k].msg.id == id;
        assert ledger'[k] == ledger[k];
      }
    }
  }

  lemma AgreeSettle(timers: map<nat, Pending>, ledger: seq<Entry>, id: nat, fate: Fate)
    requires Agree(timers, ledger) && !fate.Waiting?
    ensures Agree(timers - {id}, Settle(ledger, id, fate))
  {
    var ledger' := Settle(ledger, id, fate);
    forall p | p in timers - {id}
      ensures exists k :: 0 <= k < |ledger'| && ledger'[k].fate.Waiting? && ledger'[k].msg.id == p
    {
      var k :| 0 <= k < |ledger| && ledger[k].fate.Waiting? && ledger[k].msg.id == p;
      assert ledger'[k] == ledger[k];
    }
  }

  /** Only who waits for what matters to the agreement, not the counters. */
  lemma SamePending(timers: map<nat, Pending>, ledger: seq<Entry>, ledger': seq<Entry>)
    requires Agree(timers, ledger) && |ledger'| == |ledger|
    requires forall k :: 0 <= k < |ledger| ==> ledger'[k] == ledger[k].(fired := ledger'[k].fired, sends := ledger'[k].sends)
    ensures Agree(timers, ledger')
  {
    forall p | p in timers
      ensures exists k :: 0 <= k < |ledger'| && ledger'[k].fate.Waiting? && ledger'[k].msg.id == p
    {
      var k :| 0 <= k < |ledger| && ledger[k].fate.Waiting? && ledger[k].msg.id == p;
      assert ledger'[k].msg == ledger[k].msg;
    }
  }

  /** The copy in the table is the message of the waiting entry. */
  lemma ReportedIsSettled(timers: map<nat, Pending>, ledger: seq<Entry>, id: nat)
    requires Agree(timers, ledger) && id in timers
    ensures Reported(ledger, timers[id].msg) == Settle(ledger, id, TimedOut)
  {
  }

  /** One more message with an unused id adds a waiting entry, if the session is reliable. */
  lemma AgreeSend(s: State, m: Message, id: MsgId, ledger: seq<Entry>)
    requires Agree(s.timers, ledger) && (s.config.timeout.Some? ==> id !in s.timers)
    ensures Agree(Send(s, m, id).state.timers, ledger + NewEntries(s.config, Send(s, m, id).numbered))
  {
    var sent := Send(s, m, id).numbered;
    if s.config.timeout.Some? {
      AgreeAdd(s.timers, ledger, NewEntry(s.config, sent[0]));
      assert NewEntries(s.config, sent) == [NewEntry(s.config, sent[0])];
    } else {
      assert ledger + NewEntries(s.config, sent) == ledger;
    }
  }

  lemma NewEntriesConcat(config: Config, ledger: seq<Entry>, a: seq<Message>, b: seq<Message>)
    ensures ledger + NewEntries(config, a + b) == ledger + NewEntries(config, a) + NewEntries(config, b)
  {
  }

  /** Sending a row adds no other ids to the table. */
  lemma {:induction false} SendAllIds(s: State, ms: seq<Message>, ids: seq<MsgId>, id: nat)
    requires id !in s.timers && forall k :: 0 <= k < |ms| ==> IdAt(ids, k) != id
    ensures id !in SendAll(s, ms, ids).state.timers
  {
    if ms != [] {
      SendAllIds(s, ms[..|ms| - 1], ids, id);
    }
  }

  /** Without a timeout nothing becomes pending. */
  lemma {:induction false} SendAllUnreliable(s: State, ms: seq<Message>, ids: seq<MsgId>)
    requires s.config.timeout.None?
    ensures SendAll(s, ms, ids).state == s
  {
    if ms != [] {
      SendAllUnreliable(s, ms[..|ms| - 1], ids);
    }
  }

  /** Sending a row of reliable messages with unused ids adds one waiting entry for each. */
  lemma {:induction false} AgreeSendAll(s: State, ms: seq<Message>, ids: seq<MsgId>, ledger: seq<Entry>)
    requires Agree(s.timers, ledger) && s.config.timeout.Some?
    requires forall k :: 0 <= k < |ms| ==> IdAt(ids, k) !in s.timers
    requires forall j, k :: 0 <= j < k < |ms| ==> IdAt(ids, j) != IdAt(ids, k)
    ensures var r := SendAll(s, ms, ids); Agree(r.state.timers, ledger + NewEntries(s.config, r.numbered))
  {
    if ms == [] {
      assert ledger + NewEntries(s.config, []) == ledger;
    } else {
      var n := |ms| - 1;
      AgreeSendAll(s, ms[..n], ids, ledger);
      AgreeSendLast(s, ms, ids, ledger);
    }
  }

  lemma {:induction false} AgreeSendLast(s: State, ms: seq<Message>, ids: seq<MsgId>, ledger: seq<Entry>)
    requires ms != [] && s.config.timeout.Some?
    requires forall k :: 0 <= k < |ms| ==> IdAt(ids, k) !in s.timers
    requires forall j, k :: 0 <= j < k < |ms| ==> IdAt(ids, j) != IdAt(ids, k)
    requires var r := SendAll(s, ms[..|ms| - 1], ids); Agree(r.state.timers, ledger + NewEntries(s.config, r.numbered))
    ensures var r := SendAll(s, ms, ids); Agree(r.state.timers, ledger + NewEntries(s.config, r.numbered))
  {
    var n := |ms| - 1;
    var r0 := SendAll(s, ms[..n], ids);
    var last := Send(r0.state, ms[n], IdAt(ids, n));
    SendAllShape(s, ms[..n], ids);
    SendAllIds(s, ms[..n], ids, IdAt(ids, n));
    var entered := ledger + NewEntries(s.config, r0.numbered);
    AgreeSend(r0.state, ms[n], IdAt(ids, n), entered);
    NewEntriesConcat(s.config, ledger, r0.numbered, last.numbered);
  }

  // ----------------------------------------------------------- the queue

  lemma {:induction false} CountPop(queue: seq<TimerEvent>, e: TimerEvent)
    requires queue != []
    ensures Count(queue, e) == Count(queue[1..], e) + if queue[0] == e then 1 else 0
  {
    var n := |queue| - 1;
    if n > 0 {
      CountPop(queue[..n], e);
      assert queue[1..][..n - 1] == queue[..n][1..];
    } else {
      assert queue[..n] == [] && queue[1..] == [];
    }
  }

  lemma {:induction false} CountIn(queue: seq<TimerEvent>, e: TimerEvent)
    ensures Count(queue, e) > 0 <==> e in queue
  {
    if queue != [] {
      CountIn(queue[..|queue| - 1], e);
    }
  }

  // ---------------------------------------------------------- accounting

  /** The same for any session: what it sends without a timeout is not entered. */
  lemma {:induction false} AgreeSendRow(s: State, ms: seq<Message>, ids: seq<MsgId>, ledger: seq<Entry>)
    requires Agree(s.timers, ledger)
    requires var sent := SendAll(s, ms, ids).numbered;
             s.config.timeout.Some? ==>
               && (forall k :: 0 <= k < |sent| ==> sent[k].id !in s.timers)
               && (forall j, k :: 0 <= j < k < |sent| ==> sent[j].id != sent[k].id)
    ensures var r := SendAll(s, ms, ids); Agree(r.state.timers, ledger + NewEntries(s.config, r.numbered))
  {
    if s.config.timeout.Some? {
      SendAllShape(s, ms, ids);
      assert forall k :: 0 <= k < |ms| ==> SendAll(s, ms, ids).numbered[k].id == IdAt(ids, k);
      AgreeSendAll(s, ms, ids, ledger);
    } else {
      SendAllUnreliable(s, ms, ids);
      assert ledger + [] == ledger;
    }
  }

  lemma {:induction false} DrainShape(w: World, msg: Message, ids: seq<MsgId>)
    requires msg.header.FnfDiscoveryReply? && w.state.status.Discovering? && !FromStranger(w.state, msg)
    ensures var w', r := Next(w, Slim(msg, ids)), SendAll(Bind(w.state, msg).(buffer := []), w.state.buffer, ids);
            && Drawn(w, Slim(msg, ids)) == r.numbered && w'.state == r.state
            && w'.ledger == w.ledger + NewEntries(w.state.config, r.numbered)
  {
  }

  lemma {:induction false} DrainAgrees(w: World, msg: Message, ids: seq<MsgId>)
    requires Agree(w.state.timers, w.ledger) && PendingFresh(w, Slim(msg, ids))
    requires msg.header.FnfDiscoveryReply? && w.state.status.Discovering? && !FromStranger(w.state, msg)
    ensures Agree(Next(w, Slim(msg, ids)).state.timers, Next(w, Slim(msg, ids)).ledger)
  {
    DrainShape(w, msg, ids);
    AgreeSendRow(Bind(w.state, msg).(buffer := []), w.state.buffer, ids, w.ledger);
  }

  lemma {:induction false} DiscoveryAgrees(w: World, msg: Message, ids: seq<MsgId>)
    requires Agree(w.state.timers, w.ledger) && PendingFresh(w, Slim(msg, ids))
    requires msg.header.FnfDiscovery? && !FromStranger(w.state, msg)
    ensures Agree(Next(w, Slim(msg, ids)).state.timers, Next(w, Slim(msg, ids)).ledger)
  {
    assert Drawn(w, Slim(msg, ids))[0].id == IdAt(ids, 0);
    AgreeSend(Bind(w.state, msg), DiscoveryReply(w.state, msg), IdAt(ids, 0), w.ledger);
  }

  lemma {:induction false} AckAgrees(w: World, msg: Message, ids: seq<MsgId>)
    requires Agree(w.state.timers, w.ledger) && msg.header.FnfAck? && !FromStranger(w.state, msg)
    ensures Agree(Next(w, Slim(msg, ids)).state.timers, Next(w, Slim(msg, ids)).ledger)
  {
    AgreeSettle(w.state.timers, w.ledger, msg.id, Acked);
    assert Settle(w.ledger, msg.id, Acked) + NewEntries(w.state.config, []) == Settle(w.ledger, msg.id, Acked);
  }

  /** A message that is dropped, delivered or answered without an id of its own changes no account. */
  predicate Unaccounted(s: State, msg: Message) {
    || FromStranger(s, msg)
    || !(msg.header.FnfAck? || msg.header.FnfDiscovery? || (msg.header.FnfDiscoveryReply? && s.status.Discovering?))
  }

  lemma {:induction false} UnaccountedSame(w: World, msg: Message, ids: seq<MsgId>)
    requires Unaccounted(w.state, msg)
    ensures Next(w, Slim(msg, ids)).state.timers == w.state.timers && Next(w, Slim(msg, ids)).ledger == w.ledger
  {
    assert w.ledger + NewEntries(w.state.config, []) == w.ledger;
  }

  lemma {:induction false} SlimAgrees(w: World, msg: Message, ids: seq<MsgId>)
    requires Agree(w.state.timers, w.ledger) && PendingFresh(w, Slim(msg, ids))
    ensures Agree(Next(w, Slim(msg, ids)).state.timers, Next(w, Slim(msg, ids)).ledger)
  {
    if Unaccounted(w.state, msg) {
      UnaccountedSame(w, msg, ids);
    } else if msg.header.FnfAck? {
      AckAgrees(w, msg, ids);
    } else if msg.header.FnfDiscovery? {
      DiscoveryAgrees(w, msg, ids);
    } else {
      DrainAgrees(w, msg, ids);
    }
  }

  lemma {:induction false} GiveUpAgrees(w: World, id: MsgId)
    requires Agree(w.state.timers, w.ledger)
    ensures var w' := Process(w, TimerFailure(id)); Agree(w'.state.timers, w'.ledger)
  {
    if id in w.state.timers {
      AgreeSettle(w.state.timers, w.ledger, id, TimedOut);
      ReportedIsSettled(w.state.timers, w.ledger, id);
    }
  }

  lemma {:induction false} RetryAgrees(w: World, id: MsgId)
    requires Agree(w.state.timers, w.ledger)
    ensures var w' := Process(w, TimerTimeout(id)); Agree(w'.state.timers, w'.ledger)
  {
    SamePending(w.state.timers, w.ledger, Process(w, TimerTimeout(id)).ledger);
  }

  lemma {:induction false} TimerAgrees(w: World, a: Action)
    requires Agree(w.state.timers, w.ledger) && (a.Fire? || a.Handle?)
    ensures Agree(Next(w, a).state.timers, Next(w, a).ledger)
  {
    if a.Fire? {
      SamePending(w.state.timers, w.ledger, Next(w, a).ledger);
    } else if w.queue != [] {
      match w.queue[0]
      case GiveUp(id) => GiveUpAgrees(w.(queue := w.queue[1..]), id);
      case Retry(id) => RetryAgrees(w.(queue := w.queue[1..]), id);
    }
  }

  lemma {:induction false} NextAgrees(w: World, a: Action)
    requires Agree(w.state.timers, w.ledger) && PendingFresh(w, a)
    ensures Agree(Next(w, a).state.timers, Next(w, a).ledger)
  {
    match a
    case App(msg, id) =>
      var ms := Drawn(w, a);
      if ms == [] {
        assert Next(w, a).ledger == w.ledger;
      } else {
        assert ms[0].id == id;
        AgreeSend(w.state, WithType(w.state, msg), id, w.ledger);
      }
    case Slim(msg, ids) => SlimAgrees(w, msg, ids);
    case Configure(config) =>
    case _ => TimerAgrees(w, a);
  }

  /** Whatever an action draws is entered behind the ledger as it was, up to settled entries. */
  lemma DrawnEntered(w: World, a: Action)
    requires Drawn(w, a) != []
    ensures Next(w, a).ledger == w.ledger + NewEntries(w.state.config, Drawn(w, a))
    ensures Next(w, a).queue == w.queue && Next(w, a).fires == w.fires - NewTimers(w.state.config, Drawn(w, a))
  {
  }

  lemma TwoWaitersDisagree(timers: map<nat, Pending>, ledger: seq<Entry>, j: nat, k: nat)
    requires j < k < |ledger| && ledger[j].fate.Waiting? && ledger[k].fate.Waiting?
    requires ledger[j].msg.id == ledger[k].msg.id
    ensures !Agree(timers, ledger)
  {
  }

  /** New entries under an id already waited for, or under the same id twice, fit no table. */
  lemma {:induction false} CollisionDisagrees(
    timers: map<nat, Pending>, ledger: seq<Entry>, config: Config, ms: seq<Message>, timers': map<nat, Pending>)
    requires Agree(timers, ledger) && config.timeout.Some?
    requires || (exists k :: 0 <= k < |ms| && ms[k].id in timers)
             || (exists j, k :: 0 <= j < k < |ms| && ms[j].id == ms[k].id)
    ensures !Agree(timers', ledger + NewEntries(config, ms))
  {
    var n := |ledger|;
    if j, k :| 0 <= j < k < |ms| && ms[j].id == ms[k].id {
      TwoWaitersDisagree(timers', ledger + NewEntries(config, ms), n + j, n + k);
    } else {
      var k :| 0 <= k < |ms| && ms[k].id in timers;
      var j :| 0 <= j < n && ledger[j].fate.Waiting? && ledger[j].msg.id == ms[k].id;
      TwoWaitersDisagree(timers', ledger + NewEntries(config, ms), j, n + k);
    }
  }

  /**
   Exactly fresh ids keep the accounts: an action leaves table and ledger in agreement
   if and only if the ids it draws for reliable messages are fresh among the pending
   ones and distinct.  Otherwise an older message has lost its place in the table.
   */
  lemma {:induction false} AccountingStepIff(w: World, a: Action)
    requires Agree(w.state.timers, w.ledger)
    ensures PendingFresh(w, a) <==> Agree(Next(w, a).state.timers, Next(w, a).ledger)
  {
    if PendingFresh(w, a) {
      NextAgrees(w, a);
    } else {
      DrawnEntered(w, a);
      CollisionDisagrees(w.state.timers, w.ledger, w.state.config, Drawn(w, a), Next(w, a).state.timers);
    }
  }

  /** The table holds exactly the waiting messages at every moment of a run. */
  ghost predicate AlwaysAgrees(w: World, acts: seq<Action>) {
    && Agree(RunFrom(w, acts).state.timers, RunFrom(w, acts).ledger)
    && (acts == [] || AlwaysAgrees(w, acts[..|acts| - 1]))
  }

  /**
   Accounting, over every run: at every moment each message sent with a timeout is
   waiting, acknowledged or reported, and it is waiting exactly when the session still
   holds its copy and its timer, if and only if drawn ids are fresh among pending ones.
   */
  lemma {:induction false} Accounting(me: Agent, config: Config, acts: seq<Action>)
    ensures AlwaysAgrees(Begin(me, config), acts) <==> PendingFreshRun(Begin(me, config), acts)
  {
    if acts != [] {
      var n := |acts| - 1;
      Accounting(me, config, acts[..n]);
      if AlwaysAgrees(Begin(me, config), acts[..n]) {
        AccountingStepIff(RunFrom(Begin(me, config), acts[..n]), acts[n]);
      }
    }
  }

  // ----------------------------------------------------------- one entry

  function OnceMore(e: Entry, id: nat): Entry {
    if e.fate.Waiting? && e.msg.id == id then e.(sends := e.sends + 1) else e
  }

  function GivenUp(e: Entry, id: nat): Entry {
    if e.fate.Waiting? && e.msg.id == id then e.(fate := TimedOut) else e
  }

  function Ticked(e: Entry, id: nat): Entry {
    if e.fate.Waiting? && e.msg.id == id then e.(fired := e.fired + 1) else e
  }

  lemma CountedRetry(queue: seq<TimerEvent>, e: Entry)
    requires Counted(queue, e) && queue != [] && queue[0].Retry?
    ensures Counted(queue[1..], OnceMore(e, queue[0].id))
  {
    CountPop(queue, Retry(e.msg.id));
    CountPop(queue, GiveUp(e.msg.id));
  }

  /** When the timer's last event is handled, all its retries have been: the budget is used up exactly. */
  lemma CountedGiveUp(queue: seq<TimerEvent>, e: Entry)
    requires Counted(queue, e) && Ordered(queue) && queue != [] && queue[0].GiveUp?
    ensures Counted(queue[1..], GivenUp(e, queue[0].id))
  {
    CountPop(queue, Retry(e.msg.id));
    CountPop(queue, GiveUp(e.msg.id));
    CountIn(queue, Retry(e.msg.id));
  }

  lemma CountedFire(queue: seq<TimerEvent>, e: Entry, id: MsgId, event: TimerEvent)
    requires Counted(queue, e) && event.id == id
    requires e.msg.id == id && e.fate.Waiting? ==> MayFire(e.timer, e.fired) && event == EventFor(id, e.timer, e.fired)
    ensures Counted(queue + [event], Ticked(e, id))
  {
    assert (queue + [event])[..|queue|] == queue;
  }

  lemma OrderedPush(queue: seq<TimerEvent>, event: TimerEvent)
    requires Ordered(queue) && (event.Retry? ==> Count(queue, GiveUp(event.id)) == 0)
    ensures Ordered(queue + [event])
  {
    CountIn(queue, GiveUp(event.id));
  }

  // ----------------------------------------------------------- one action

  /** The waiting entry of a pending id. */
  lemma WaitingEntry(timers: map<nat, Pending>, ledger: seq<Entry>, id: nat) returns (k: nat)
    requires Agree(timers, ledger) && id in timers
    ensures k < |ledger| && ledger[k].fate.Waiting? && ledger[k].msg.id == id
    ensures timers[id] == Pending(ledger[k].timer, ledger[k].msg) && ledger[k].timer.id == id
    ensures forall j :: 0 <= j < |ledger| && ledger[j].fate.Waiting? && ledger[j].msg.id == id ==> j == k
  {
    k :| 0 <= k < |ledger| && ledger[k].fate.Waiting? && ledger[k].msg.id == id;
  }

  /** Marking the entry of the copy in the table is marking the waiting entry of its id. */
  lemma MarksById(timers: map<nat, Pending>, ledger: seq<Entry>, id: nat, k: nat)
    requires Agree(timers, ledger) && id in timers && k < |ledger|
    ensures SentAgain(ledger, timers[id].msg)[k] == OnceMore(ledger[k], id)
    ensures Reported(ledger, timers[id].msg)[k] == GivenUp(ledger[k], id)
    ensures FiredAgain(ledger, timers[id].msg)[k] == Ticked(ledger[k], id)
  {
    var k0 := WaitingEntry(timers, ledger, id);
  }

  /** What handling the oldest event does to an entry. */
  lemma {:induction false} HandleMarks(w: World, k: nat)
    requires Agree(w.state.timers, w.ledger) && w.queue != [] && k < |w.ledger|
    ensures var w', id := Next(w, Handle), w.queue[0].id;
            && w'.queue == w.queue[1..] && w'.fires == w.fires && |w'.ledger| == |w.ledger|
            && w'.ledger[k] == if w.queue[0].Retry? then OnceMore(w.ledger[k], id) else GivenUp(w.ledger[k], id)
  {
    assert w.fires - {} == w.fires;
    if w.queue[0].id in w.state.timers {
      MarksById(w.state.timers, w.ledger, w.queue[0].id, k);
    }
  }

  lemma {:induction false} HandleKeepsEntry(w: World, k: nat)
    requires Inv(w) && w.queue != [] && k < |w.ledger|
    ensures var w' := Next(w, Handle);
            && |w'.ledger| == |w.ledger| && Counted(w'.queue, w'.ledger[k])
            && (w'.ledger[k].fate.Waiting? ==> w'.ledger[k].fired == Fired(w', w'.ledger[k].msg.id))
  {
    HandleMarks(w, k);
    if w.queue[0].Retry? {
      CountedRetry(w.queue, w.ledger[k]);
    } else {
      CountedGiveUp(w.queue, w.ledger[k]);
    }
  }

  lemma {:induction false} HandleKeeps(w: World)
    requires Inv(w) && w.queue != []
    ensures AllCounted(Next(w, Handle).queue, Next(w, Handle).ledger) && Linked(Next(w, Handle))
    ensures Ordered(Next(w, Handle).queue)
  {
    var w' := Next(w, Handle);
    assert w'.queue == w.queue[1..] && |w'.ledger| == |w.ledger|;
    forall k | 0 <= k < |w'.ledger|
      ensures Counted(w'.queue, w'.ledger[k])
      ensures w'.ledger[k].fate.Waiting? ==> w'.ledger[k].fired == Fired(w', w'.ledger[k].msg.id)
    {
      HandleKeepsEntry(w, k);
    }
  }

  lemma {:induction false} FireKeeps(w: World, id: MsgId)
    requires Inv(w) && id in w.state.timers && MayFire(w.state.timers[id].timer, Fired(w, id))
    ensures AllCounted(Next(w, Fire(id)).queue, Next(w, Fire(id)).ledger) && Linked(Next(w, Fire(id)))
    ensures Ordered(Next(w, Fire(id)).queue)
  {
    var w' := Next(w, Fire(id));
    var event := EventFor(id, w.state.timers[id].timer, Fired(w, id));
    var k0 := WaitingEntry(w.state.timers, w.ledger, id);
    assert Counted(w.queue, w.ledger[k0]);
    OrderedPush(w.queue, event);
    forall k | 0 <= k < |w'.ledger|
      ensures Counted(w'.queue, w'.ledger[k])
      ensures w'.ledger[k].fate.Waiting? ==> w'.ledger[k].fired == Fired(w', w'.ledger[k].msg.id)
    {
      MarksById(w.state.timers, w.ledger, id, k);
      CountedFire(w.queue, w.ledger[k], id, event);
    }
  }

  /** Entries that were there before a message is sent under another id. */
  lemma {:induction false} DrawnKeepsOld(w: World, a: Action, k: nat)
    requires Inv(w) && PendingFresh(w, a) && k < |w.ledger|
    ensures var fires' := w.fires - NewTimers(w.state.config, Drawn(w, a));
            && Counted(w.queue, w.ledger[k])
            && (w.ledger[k].fate.Waiting? ==> w.ledger[k].fired == Fired(w.(fires := fires'), w.ledger[k].msg.id))
  {
    assert Counted(w.queue, w.ledger[k]);
  }

  lemma {:induction false} DrawnKeepsNew(w: World, a: Action, m: Message)
    requires w.state.config.timeout.Some? && QueueFresh(w, a) && m in Drawn(w, a)
    ensures Counted(w.queue, NewEntry(w.state.config, m))
    ensures m.id !in w.fires - NewTimers(w.state.config, Drawn(w, a))
  {
    CountIn(w.queue, Retry(m.id));
    CountIn(w.queue, GiveUp(m.id));
  }

  /** The entry of a drawn reliable message. */
  lemma {:induction false} NewEntryAt(w: World, a: Action, i: nat)
    requires w.state.config.timeout.Some? && i < |Drawn(w, a)|
    ensures var w', k := Next(w, a), |w.ledger| + i;
            && w'.queue == w.queue && k < |w'.ledger| && w'.ledger[k] == NewEntry(w.state.config, Drawn(w, a)[i])
  {
    DrawnEntered(w, a);
  }

  lemma {:induction false} DrawnKeepsEntry(w: World, a: Action, k: nat)
    requires Inv(w) && PendingFresh(w, a) && QueueFresh(w, a)
    requires k < |w.ledger + NewEntries(w.state.config, Drawn(w, a))|
    ensures var fires' := w.fires - NewTimers(w.state.config, Drawn(w, a));
            var e := (w.ledger + NewEntries(w.state.config, Drawn(w, a)))[k];
            Counted(w.queue, e) && (e.fate.Waiting? ==> e.fired == Fired(w.(fires := fires'), e.msg.id))
  {
    if k < |w.ledger| {
      DrawnKeepsOld(w, a, k);
    } else {
      DrawnKeepsNew(w, a, Drawn(w, a)[k - |w.ledger|]);
    }
  }

  /** New messages with fresh ids: the old entries are as before, the new ones start waiting. */
  lemma {:induction false} DrawnKeeps(w: World, a: Action)
    requires Inv(w) && PendingFresh(w, a) && QueueFresh(w, a) && Drawn(w, a) != []
    ensures AllCounted(Next(w, a).queue, Next(w, a).ledger) && Linked(Next(w, a)) && Ordered(Next(w, a).queue)
  {
    var w' := Next(w, a);
    DrawnEntered(w, a);
    forall k | 0 <= k < |w'.ledger|
      ensures Counted(w'.queue, w'.ledger[k])
      ensures w'.ledger[k].fate.Waiting? ==> w'.ledger[k].fired == Fired(w', w'.ledger[k].msg.id)
    {
      DrawnKeepsEntry(w, a, k);
    }
  }

  lemma {:induction false} SettleKeeps(queue: seq<TimerEvent>, ledger: seq<Entry>, id: nat)
    requires AllCounted(queue, ledger)
    ensures AllCounted(queue, Settle(ledger, id, Acked))
  {
    assert forall k :: 0 <= k < |ledger| ==> Counted(queue, ledger[k]);
  }

  /** Without new messages an input changes no count; an acknowledgement only settles. */
  lemma {:induction false} QuietKeeps(w: World, a: Action)
    requires Inv(w) && Drawn(w, a) == [] && !a.Fire? && !a.Handle?
    ensures AllCounted(Next(w, a).queue, Next(w, a).ledger) && Linked(Next(w, a)) && Ordered(Next(w, a).queue)
  {
    var w' := Next(w, a);
    assert NewEntries(w.state.config, []) == [] && w.fires - NewTimers(w.state.config, []) == w.fires;
    if a.Slim? && a.msg.header.FnfAck? && !FromStranger(w.state, a.msg) {
      SettleKeeps(w.queue, w.ledger, a.msg.id);
      assert w'.ledger == Settle(w.ledger, a.msg.id, Acked);
    } else {
      assert w'.ledger == w.ledger;
    }
  }

  lemma {:induction false} NextKeeps(w: World, a: Action)
    requires Inv(w) && PendingFresh(w, a) && QueueFresh(w, a)
    ensures Inv(Next(w, a))
  {
    NextAgrees(w, a);
    match a
    case Fire(id) =>
      if id in w.state.timers && MayFire(w.state.timers[id].timer, Fired(w, id)) {
        FireKeeps(w, id);
      }
    case Handle =>
      if w.queue != [] {
        HandleKeeps(w);
      }
    case _ =>
      if Drawn(w, a) == [] {
        QuietKeeps(w, a);
      } else {
        DrawnKeeps(w, a);
      }
  }

  lemma {:induction false} RunKeepsInv(w: World, acts: seq<Action>)
    requires Inv(w) && PendingFreshRun(w, acts) && QueueFreshRun(w, acts)
    ensures Inv(RunFrom(w, acts))
  {
    if acts != [] {
      var n := |acts| - 1;
      RunKeepsInv(w, acts[..n]);
      NextKeeps(RunFrom(w, acts[..n]), acts[n]);
    }
  }

  // ------------------------------------------------------------ the budget

  lemma CountedIsOwned(queue: seq<TimerEvent>, e: Entry)
    requires Counted(queue, e)
    ensures Owned(e)
  {
  }

  /** At most `maxRetries + 1` transmissions, and exactly so many when the message is reported. */
  predicate WithinBudget(e: Entry) {
    && (e.timer.maxRetries.Some? ==> e.sends <= e.timer.maxRetries.value + 1)
    && (e.fate.TimedOut? ==> e.timer.maxRetries.Some? && e.sends == e.timer.maxRetries.value + 1)
  }

  /**
   Conservation, over every run whose ids are fresh among pending messages and queued
   events: besides the accounts, a message is transmitted again or given up only for its
   own timer.  With `maxRetries` n it is transmitted at most n + 1 times, and exactly
   so often when it is reported as timed out.
   */
  lemma {:induction false} Conservation(me: Agent, config: Config, acts: seq<Action>)
    requires PendingFreshRun(Begin(me, config), acts) && QueueFreshRun(Begin(me, config), acts)
    ensures var w := RunFrom(Begin(me, config), acts);
            Agree(w.state.timers, w.ledger) && forall e <- w.ledger :: Owned(e) && WithinBudget(e)
  {
    RunKeepsInv(Begin(me, config), acts);
    var w := RunFrom(Begin(me, config), acts);
    forall e | e in w.ledger
      ensures Owned(e) && WithinBudget(e)
    {
      CountedIsOwned(w.queue, e);
    }
  }

  function Handles(n: nat): seq<Action> {
    if n == 0 then [] else Handles(n - 1) + [Handle]
  }

  lemma HandlesStep(w: World, n: nat)
    requires 0 < n
    ensures Handles(n)[..|Handles(n)| - 1] == Handles(n - 1)
    ensures RunFrom(w, Handles(n)) == Next(RunFrom(w, Handles(n - 1)), Handle)
  {
  }

  /** Handling an event draws no id. */
  lemma HandleIsFresh(w: World)
    ensures PendingFresh(w, Handle) && QueueFresh(w, Handle)
  {
  }

  lemma {:induction false} HandlesAreFresh(w: World, n: nat)
    ensures PendingFreshRun(w, Handles(n)) && QueueFreshRun(w, Handles(n))
  {
    if n > 0 {
      var acts := Handles(n);
      assert acts[..|acts| - 1] == Handles(n - 1) && acts[|acts| - 1] == Handle;
      HandlesAreFresh(w, n - 1);
      HandleIsFresh(RunFrom(w, Handles(n - 1)));
    }
  }

  /** Handling an event for another id leaves an entry alone. */
  lemma {:induction false} OtherHandled(w: World, k: nat)
    requires Agree(w.state.timers, w.ledger) && k < |w.ledger| && w.queue != [] && w.queue[0].id != w.ledger[k].msg.id
    ensures var w' := Next(w, Handle);
            && Agree(w'.state.timers, w'.ledger) && w'.queue == w.queue[1..]
            && |w'.ledger| == |w.ledger| && w'.ledger[k] == w.ledger[k]
  {
    HandleMarks(w, k);
    TimerAgrees(w, Handle);
  }

  lemma {:induction false} OthersHandled(w: World, k: nat, n: nat)
    requires Agree(w.state.timers, w.ledger) && k < |w.ledger| && n <= |w.queue|
    requires forall i :: 0 <= i < n ==> w.queue[i].id != w.ledger[k].msg.id
    ensures var w' := RunFrom(w, Handles(n));
            && Agree(w'.state.timers, w'.ledger) && w'.queue == w.queue[n..]
            && |w'.ledger| == |w.ledger| && w'.ledger[k] == w.ledger[k]
  {
    if n > 0 {
      OthersHandled(w, k, n - 1);
      HandlesStep(w, n);
      var v := RunFrom(w, Handles(n - 1));
      assert v.queue[0] == w.queue[n - 1] && v.queue[1..] == w.queue[n..];
      OtherHandled(v, k);
    }
  }

  /** A stale event for a new message is handled on its behalf, although its own timer has not fired. */
  lemma {:induction false} StaleEventHits(w: World, k: nat, j: nat)
    requires Agree(w.state.timers, w.ledger) && k < |w.ledger| && j < |w.queue|
    requires w.ledger[k].fate.Waiting? && w.ledger[k].fired == 0 && w.ledger[k].sends == 1
    requires w.queue[j].id == w.ledger[k].msg.id && forall i :: 0 <= i < j ==> w.queue[i].id != w.ledger[k].msg.id
    ensures var w' := RunFrom(w, Handles(j + 1)); k < |w'.ledger| && !Owned(w'.ledger[k])
  {
    OthersHandled(w, k, j);
    HandlesStep(w, j + 1);
    HandleMarks(RunFrom(w, Handles(j)), k);
  }

  /** In every fresh continuation all messages keep to their own timers. */
  ghost predicate StaysOwned(w: World) {
    forall more :: PendingFreshRun(w, more) && QueueFreshRun(w, more) ==>
                     forall e <- RunFrom(w, more).ledger :: Owned(e)
  }

  lemma {:induction false} FirstOf(queue: seq<TimerEvent>, id: nat, n: nat) returns (j: nat)
    requires n < |queue| && queue[n].id == id
    ensures j < |queue| && queue[j].id == id && forall i :: 0 <= i < j ==> queue[i].id != id
  {
    if i :| 0 <= i < n && queue[i].id == id {
      j := FirstOf(queue, id, i);
    } else {
      j := n;
    }
  }

  lemma {:induction false} BudgetKept(w: World)
    requires Inv(w)
    ensures StaysOwned(w)
  {
    forall more | PendingFreshRun(w, more) && QueueFreshRun(w, more)
      ensures forall e <- RunFrom(w, more).ledger :: Owned(e)
    {
      RunKeepsInv(w, more);
      forall e | e in RunFrom(w, more).ledger
        ensures Owned(e)
      {
        CountedIsOwned(RunFrom(w, more).queue, e);
      }
    }
  }

  /** A new message whose id a queued event carries. */
  lemma {:induction false} BudgetBroken(w: World, k: nat, n: nat)
    requires Agree(w.state.timers, w.ledger) && k < |w.ledger| && n < |w.queue|
    requires w.ledger[k].fate.Waiting? && w.ledger[k].fired == 0 && w.ledger[k].sends == 1
    requires w.queue[n].id == w.ledger[k].msg.id
    ensures !StaysOwned(w)
  {
    var j := FirstOf(w.queue, w.ledger[k].msg.id, n);
    StaleEventHits(w, k, j);
    HandlesAreFresh(w, j + 1);
    assert RunFrom(w, Handles(j + 1)).ledger[k] in RunFrom(w, Handles(j + 1)).ledger;
  }

  /** An id that a queued event still carries is drawn for a new message. */
  lemma {:induction false} StaleDraw(w: World, a: Action, n: nat, i: nat)
    requires Agree(w.state.timers, w.ledger) && PendingFresh(w, a) && w.state.config.timeout.Some?
    requires n < |w.queue| && i < |Drawn(w, a)| && w.queue[n].id == Drawn(w, a)[i].id
    ensures !StaysOwned(Next(w, a))
  {
    NewEntryAt(w, a, i);
    NextAgrees(w, a);
    BudgetBroken(Next(w, a), |w.ledger| + i, n);
  }

  /**
   The queue condition is exact: after an action that draws ids fresh among pending
   messages, all later runs keep every message to its own timer and budget if and
   only if no queued event carries a drawn id.
   */
  lemma {:induction false} BudgetIff(w: World, a: Action)
    requires Inv(w) && PendingFresh(w, a)
    ensures QueueFresh(w, a) <==> StaysOwned(Next(w, a))
  {
    if QueueFresh(w, a) {
      NextKeeps(w, a);
      BudgetKept(Next(w, a));
    } else {
      var ms := Drawn(w, a);
      var n, i :| 0 <= n < |w.queue| && 0 <= i < |ms| && w.queue[n].id == ms[i].id;
      StaleDraw(w, a, n, i);
    }
  }
}
