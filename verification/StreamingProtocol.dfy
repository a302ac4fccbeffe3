/**
 One producer, one receiver and a network that may lose, duplicate, delay and
 reorder every packet.  Whatever has been sent once may arrive any number of
 times, at any later moment, or never.
 */
module StreamingProtocol {
  import opened Messages
  import opened ReorderWindow
  import opened WindowRuns
  import opened Producers
  import opened ReceiverSessions
  import opened Timers

  datatype Parties = Parties(producer: Agent, bidirectional: bool, receiver: Config)

  datatype System = System(
    published: seq<Message>,     // by the producer, in order
    toReceiver: set<Message>,    // every packet ever sent towards the receiver
    toProducer: set<Message>,    // every retransmission request ever sent
    session: Session,            // the receiver's state
    fires: map<nat, nat>,        // how often the current timer of an id has fired
    callbacks: set<Callback>,    // every callback ever queued by a retransmission timer
    heard: seq<Input>,           // what the receiver has processed
    seen: seq<Option<Message>>)  // what its application has been given

  datatype Action =
    | Publish(msg: Message)
    | AnswerRtx(request: Message, conn: nat)
    | SendBeacon
    | Arrive(packet: Message, conn: nat)
    | TimerFires(id: nat)
    | HandleTimer(callback: Callback)

  const START: System := System([], {}, {}, NEW_SESSION, map[], {}, [], [])

  /**
   An application publishes under its own name; only what was sent can arrive.  A request
   reaches the producer it is addressed to and a reply the receiver it is addressed to,
   and the receiver files a packet under the producer it comes from.
   */
  predicate Enabled(ps: Parties, s: System, a: Action) {
    match a
    case Publish(msg) => msg.source == ps.producer
    case AnswerRtx(request, _) =>
      request in s.toProducer && request.header.RtxRequest? && AddressedTo(request, ps.producer)
    case SendBeacon => s.published != []
    case Arrive(packet, _) =>
      && packet in s.toReceiver && packet.source == ps.producer
      && (packet.header.RtxReply? ==> AddressedTo(packet, ps.receiver.me))
    case TimerFires(id) => id in s.session.timers && Fired(s, id) <= ps.receiver.maxRetries
    case HandleTimer(callback) => callback in s.callbacks
  }

  function Fired(s: System, id: nat): nat {
    if id in s.fires then s.fires[id] else 0
  }

  /** The receiver processes one input. */
  function Hear(ps: Parties, s: System, i: Input): System {
    var r := Step(ps.receiver, s.session, i);
    s.(session := r.session, fires := s.fires - (set p <- RequestedBy(s, i)), heard := s.heard + [i],
    seen := s.seen + r.toApp, toProducer := s.toProducer + set m <- r.toSlim)
  }

  /** The ids for which an input starts a new timer. */
  function RequestedBy(s: System, i: Input): seq<nat> {
    if i.Packet? && BufferCall(i).Some? then Apply(s.session.window, BufferCall(i).value).rtx else []
  }

  function TimerInput(c: Callback): Option<Input> {
    if c.OnTimeout? && c.timerId < U32 then Some(RtxTimeout(c.timerId))
    else if c.OnFailure? && c.timerId < U32 then Some(RtxFailure(c.timerId))
    else None
  }

  function Next(ps: Parties, s: System, a: Action): System {
    if !Enabled(ps, s, a) then s
    else
      match a
      case Publish(msg) =>
        var sent := NumberedFor(msg, ps.bidirectional, |s.published| % U32);
        s.(published := s.published + [sent], toReceiver := s.toReceiver + {sent})
      case AnswerRtx(request, conn) =>
        var answer := RtxAnswer(s.published, ps.producer, request.(incomingConn := conn));
        if answer.Some? then s.(toReceiver := s.toReceiver + {answer.value}) else s
      case SendBeacon =>
        var last := s.published[|s.published| - 1];
        s.(toReceiver := s.toReceiver +
                         {BeaconFor(ps.producer, s.published[0].dstType, ps.bidirectional, last.id)})
      case Arrive(packet, conn) => Hear(ps, s, Packet(packet.(incomingConn := conn)))
      case TimerFires(id) =>
        s.(fires := s.fires[id := Fired(s, id) + 1],
        callbacks := s.callbacks + {CallNo(TimerFor(ps.receiver, id), None, Fired(s, id))})
      case HandleTimer(callback) =>
        if TimerInput(callback).Some? then Hear(ps, s, TimerInput(callback).value) else s
  }

  /** The state after a sequence of actions; an action that is not possible does nothing. */
  function RunSystem(ps: Parties, acts: seq<Action>): System {
    if acts == [] then START
    else Next(ps, RunSystem(ps, acts[..|acts| - 1]), acts[|acts| - 1])
  }

  lemma SystemStep(ps: Parties, acts: seq<Action>, a: Action)
    ensures RunSystem(ps, acts + [a]) == Next(ps, RunSystem(ps, acts), a)
  {
    assert (acts + [a])[..|acts + [a]| - 1] == acts;
  }

  /** What the producer's application has handed over, in order. */
  function Submitted(ps: Parties, acts: seq<Action>): seq<Message> {
    if acts == [] then []
    else
      var a := acts[|acts| - 1];
      Submitted(ps, acts[..|acts| - 1]) + if a.Publish? && a.msg.source == ps.producer then [a.msg] else []
  }

  /** The part of a message that numbering leaves alone. */
  function Unnumbered(m: Message): Message {
    m.(header := Unspecified, id := 0)
  }

  /** The publications are the submissions, in order, with a number and a type. */
  ghost predicate PublishedFrom(ps: Parties, published: seq<Message>, submitted: seq<Message>) {
    && |published| == |submitted|
    && (forall k :: 0 <= k < |published| ==> Unnumbered(published[k]) == Unnumbered(submitted[k]))
    && (forall k :: 0 <= k < |published| ==>
          published[k].id == k % U32 && published[k].header == if ps.bidirectional then PubSub else Stream)
  }

  lemma {:induction false} NextPublished(ps: Parties, s: System, a: Action, submitted: seq<Message>)
    requires PublishedFrom(ps, s.published, submitted)
    ensures PublishedFrom(ps, Next(ps, s, a).published,
                          submitted + if a.Publish? && a.msg.source == ps.producer then [a.msg] else [])
  {
  }

  lemma {:induction false} PublishedAre(ps: Parties, acts: seq<Action>)
    ensures PublishedFrom(ps, RunSystem(ps, acts).published, Submitted(ps, acts))
  {
    if acts != [] {
      var before := acts[..|acts| - 1];
      PublishedAre(ps, before);
      NextPublished(ps, RunSystem(ps, before), acts[|acts| - 1], Submitted(ps, before));
    }
  }

  // ------------------------------------------------------------- the promise

  /** The id that the first entry seen by the application stands for. */
  function Base(s: System): int {
    s.session.window.next - |s.seen|
  }

  /** The whole budget of a retransmission timer for `p` was used up, and the receiver was told. */
  ghost predicate TimerExhausted(ps: Parties, s: System, p: nat) {
    && p < U32
    && RtxFailure(p) in s.heard
    && OnFailure(p, ps.receiver.maxRetries + 1) in s.callbacks
    && (forall k :: 1 <= k <= ps.receiver.maxRetries ==> OnTimeout(p, k) in s.callbacks)
  }

  /** The producer answered that it no longer has `p`, and the answer arrived. */
  ghost predicate RefusedByProducer(s: System, p: nat) {
    && p + BUFFER_CAPACITY < |s.published|
    && exists i <- s.heard :: i.Packet? && i.msg.header.RtxReply? && i.msg.error && i.msg.id == p
  }

  /** An entry handed to the application in the place of publication `p` tells the truth. */
  ghost predicate TrueEntry(ps: Parties, s: System, p: int, entry: Option<Message>) {
    && 0 <= p < |s.published|
    && match entry
       case Some(m) => m.id == p && m.payload == s.published[p].payload
       case None => TimerExhausted(ps, s, p) || RefusedByProducer(s, p)
  }

  /** What the application has seen is a contiguous run of the publications, in order. */
  ghost predicate Faithful(ps: Parties, s: System) {
    forall k :: 0 <= k < |s.seen| ==> TrueEntry(ps, s, Base(s) + k, s.seen[k])
  }

  // ---------------------------------------------------------- the invariants

  /** A packet on its way to the receiver agrees with what has been published. */
  ghost predicate Truthful(published: seq<Message>, m: Message) {
    && m.id < |published|
    && match m.header
       case Stream | PubSub => m.payload == published[m.id].payload
       case RtxReply => if m.error then m.id + BUFFER_CAPACITY < |published| else m.payload == published[m.id].payload
       case BeaconStream | BeaconPubSub => true
       case _ => false
  }

  ghost predicate TruthfulInput(ps: Parties, s: System, i: Input) {
    match i
    case Packet(m) => Truthful(s.published, m)
    case RtxTimeout(id) => true
    case RtxFailure(id) => id < |s.published| && OnFailure(id, ps.receiver.maxRetries + 1) in s.callbacks
  }

  ghost predicate NetInv(s: System) {
    && Numbered(s.published)
    && (forall m <- s.toReceiver :: Truthful(s.published, m))
    && (forall m <- s.toProducer :: m.id < |s.published|)
  }

  /** The receiver never works on an id that has not been published. */
  ghost predicate Bounded(w: Window, n: nat) {
    w.Settled() && w.high <= n && forall p <- w.lost :: p < n
  }

  ghost predicate ReceiverInv(ps: Parties, s: System) {
    && Bounded(s.session.window, |s.published|)
    && (forall p :: p in s.session.timers ==> p < |s.published|)
    && (forall p :: p in s.session.rtx ==> s.session.rtx[p] in s.toProducer)
    && (forall i <- s.heard :: TruthfulInput(ps, s, i))
    && RunSession(ps.receiver, s.heard).session == s.session
    && RunSession(ps.receiver, s.heard).toApp == s.seen
  }

  /** The callbacks of a timer are queued in order, one per firing. */
  ghost predicate TimerInv(ps: Parties, s: System) {
    && (forall p, k: nat :: p in s.fires && k < s.fires[p] ==>
          CallNo(TimerFor(ps.receiver, p), None, k) in s.callbacks)
    && (forall c <- s.callbacks :: c.timerId < |s.published|)
    && (forall c <- s.callbacks :: c.OnFailure? ==>
          && c.timeouts == ps.receiver.maxRetries + 1
          && forall k :: 1 <= k <= ps.receiver.maxRetries ==> OnTimeout(c.timerId, k) in s.callbacks)
  }

  ghost predicate Inv(ps: Parties, s: System) {
    NetInv(s) && ReceiverInv(ps, s) && TimerInv(ps, s)
  }

  // ------------------------------------------------------------- one step

  function EventId(e: Event): MsgId {
    match e
    case Recv(m) => m.id
    case Lost(id) => id
    case Beacon(id) => id
  }

  lemma {:induction false} DrainBound(w: Window, n: nat)
    requires w.Valid() && w.high <= n && forall p <- w.lost :: p < n
    ensures w.Drain().window.high <= n
    decreases w.held.Keys, w.lost
  {
    if w.Head().Some? {
      DrainBound(w.Advance(), n);
    }
  }

  /** A call on a published id keeps the window and its requests below the number of publications. */
  lemma {:induction false} CallBound(w: Window, e: Event, n: nat)
    requires Bounded(w, n) && EventId(e) < n
    ensures Bounded(Apply(w, e).window, n)
    ensures forall p <- Apply(w, e).rtx :: p < n
  {
    ApplySettles(w, e);
    CallState(w, e);
    match e
    case Recv(m) =>
      if w.IsHole(m.id) {
        DrainBound(w.(held := w.held[m.id := m]), n);
      }
    case Lost(id) => DrainBound(w.Declare({id}), n);
    case Beacon(id) =>
  }

  lemma {:induction false} RequestsFor(cfg: Config, cause: Message, ids: seq<nat>, m: Message)
    requires forall p <- ids :: p < U32
    requires m in Requests(cfg, cause, ids)
    ensures m.id in ids && m == RequestFor(cfg, cause, m.id)
  {
    var n := |ids| - 1;
    assert ids[n] in ids && forall p <- ids[..n] :: p in ids;
    if m in Requests(cfg, cause, ids[..n]) {
      RequestsFor(cfg, cause, ids[..n], m);
    }
  }

  lemma {:induction false} RequestsAll(cfg: Config, cause: Message, ids: seq<nat>, p: nat)
    requires p in ids
    ensures RequestFor(cfg, cause, p) in Requests(cfg, cause, ids)
  {
    var n := |ids| - 1;
    if p != ids[n] {
      RequestsAll(cfg, cause, ids[..n], p);
    }
  }

  /** Every request that is sent is for a published id, and every stored request has been sent. */
  lemma {:induction false} HearRequests(ps: Parties, s: System, i: Input)
    requires NetInv(s) && ReceiverInv(ps, s) && |s.published| <= U32 && TruthfulInput(ps, s, i)
    ensures var s' := Hear(ps, s, i);
            && (forall m <- s'.toProducer :: m.id < |s.published|)
            && (forall p :: p in s'.session.rtx ==> s'.session.rtx[p] in s'.toProducer)
            && (forall p :: p in s'.session.timers ==> p < |s.published|)
            && Bounded(s'.session.window, |s.published|)
  {
    var r := Step(ps.receiver, s.session, i);
    if BufferCall(i).Some? {
      CallBound(s.session.window, BufferCall(i).value, |s.published|);
      if i.Packet? {
        var ids := Apply(s.session.window, BufferCall(i).value).rtx;
        forall m | m in r.toSlim
          ensures m.id < |s.published|
        {
          RequestsFor(ps.receiver, i.msg, ids, m);
        }
        forall p | p in ids
          ensures RequestFor(ps.receiver, i.msg, p) in r.toSlim
        {
          RequestsAll(ps.receiver, i.msg, ids, p);
        }
      }
    }
  }

  lemma {:induction false} HearKeepsReceiver(ps: Parties, s: System, i: Input)
    requires NetInv(s) && ReceiverInv(ps, s) && |s.published| <= U32 && TruthfulInput(ps, s, i)
    ensures ReceiverInv(ps, Hear(ps, s, i))
  {
    var s' := Hear(ps, s, i);
    HearRequests(ps, s, i);
    assert s'.heard[..|s'.heard| - 1] == s.heard;
    forall x <- s'.heard
      ensures TruthfulInput(ps, s', x)
    {
      assert x in s.heard || x == i;
      assert TruthfulInput(ps, s, x);
    }
  }

  lemma {:induction false} HearKeepsInv(ps: Parties, s: System, i: Input)
    requires Inv(ps, s) && |s.published| <= U32 && TruthfulInput(ps, s, i)
    ensures Inv(ps, Hear(ps, s, i))
  {
    HearRequests(ps, s, i);
    HearKeepsReceiver(ps, s, i);
  }

  lemma {:induction false} TruthfulGrows(published: seq<Message>, m: Message, n: Message)
    requires Truthful(published, m)
    ensures Truthful(published + [n], m)
  {
  }

  /** What the receiver did stays truthful when more is published, sent or queued. */
  lemma {:induction false} GrowthKeepsReceiver(ps: Parties, s: System, s': System)
    requires ReceiverInv(ps, s)
    requires s.published <= s'.published && s.toProducer <= s'.toProducer && s.callbacks <= s'.callbacks
    requires s'.session == s.session && s'.heard == s.heard && s'.seen == s.seen
    ensures ReceiverInv(ps, s')
  {
    forall i <- s'.heard
      ensures TruthfulInput(ps, s', i)
    {
      assert TruthfulInput(ps, s, i);
      assert forall k :: 0 <= k < |s.published| ==> s'.published[k] == s.published[k];
    }
  }

  lemma {:induction false} PublishKeepsNet(ps: Parties, s: System, msg: Message)
    requires NetInv(s) && |s.published| < U32 && msg.source == ps.producer
    ensures NetInv(Next(ps, s, Publish(msg)))
  {
    var s' := Next(ps, s, Publish(msg));
    forall m | Truthful(s.published, m)
      ensures Truthful(s'.published, m)
    {
      TruthfulGrows(s.published, m, s'.published[|s.published|]);
    }
  }

  lemma {:induction false} PublishKeepsInv(ps: Parties, s: System, msg: Message)
    requires Inv(ps, s) && |s.published| < U32 && msg.source == ps.producer
    ensures Inv(ps, Next(ps, s, Publish(msg)))
  {
    PublishKeepsNet(ps, s, msg);
    GrowthKeepsReceiver(ps, s, Next(ps, s, Publish(msg)));
  }

  lemma {:induction false} AnswerKeepsInv(ps: Parties, s: System, request: Message, conn: nat)
    requires Inv(ps, s) && |s.published| <= U32 && request in s.toProducer
    ensures Inv(ps, Next(ps, s, AnswerRtx(request, conn)))
  {
    AnswerMeaning(s.published, ps.producer, request.(incomingConn := conn));
    GrowthKeepsReceiver(ps, s, Next(ps, s, AnswerRtx(request, conn)));
  }

  lemma {:induction false} BeaconKeepsInv(ps: Parties, s: System)
    requires Inv(ps, s) && |s.published| <= U32 && s.published != []
    ensures Inv(ps, Next(ps, s, SendBeacon))
  {
    GrowthKeepsReceiver(ps, s, Next(ps, s, SendBeacon));
  }

  /** When the last callback of a timer is queued, all its timeouts have been. */
  lemma {:induction false} TimeoutsQueued(ps: Parties, s: System, id: nat)
    requires TimerInv(ps, s) && Fired(s, id) == ps.receiver.maxRetries
    ensures forall k :: 1 <= k <= ps.receiver.maxRetries ==> OnTimeout(id, k) in s.callbacks
  {
    forall k | 1 <= k <= ps.receiver.maxRetries
      ensures OnTimeout(id, k) in s.callbacks
    {
      assert CallNo(TimerFor(ps.receiver, id), None, k - 1) == OnTimeout(id, k);
    }
  }

  lemma {:induction false} FireKeepsTimers(ps: Parties, s: System, id: nat)
    requires TimerInv(ps, s) && Enabled(ps, s, TimerFires(id)) && id < |s.published|
    ensures TimerInv(ps, Next(ps, s, TimerFires(id)))
  {
    if Fired(s, id) == ps.receiver.maxRetries {
      TimeoutsQueued(ps, s, id);
    }
    var s' := Next(ps, s, TimerFires(id));
    forall p, k: nat | p in s'.fires && k < s'.fires[p]
      ensures CallNo(TimerFor(ps.receiver, p), None, k) in s'.callbacks
    {
      assert p != id || k < Fired(s, id) ==> p in s.fires && k < s.fires[p];
    }
  }

  lemma {:induction false} FireKeepsInv(ps: Parties, s: System, id: nat)
    requires Inv(ps, s) && Enabled(ps, s, TimerFires(id))
    ensures Inv(ps, Next(ps, s, TimerFires(id)))
  {
    FireKeepsTimers(ps, s, id);
    GrowthKeepsReceiver(ps, s, Next(ps, s, TimerFires(id)));
  }

  lemma {:induction false} NextKeepsInv(ps: Parties, s: System, a: Action)
    requires Inv(ps, s) && |Next(ps, s, a).published| <= U32
    ensures Inv(ps, Next(ps, s, a))
  {
    if Enabled(ps, s, a) {
      match a
      case Publish(msg) => PublishKeepsInv(ps, s, msg);
      case AnswerRtx(request, conn) => AnswerKeepsInv(ps, s, request, conn);
      case SendBeacon => BeaconKeepsInv(ps, s);
      case Arrive(packet, conn) => HearKeepsInv(ps, s, Packet(packet.(incomingConn := conn)));
      case TimerFires(id) => FireKeepsInv(ps, s, id);
      case HandleTimer(callback) =>
        if TimerInput(callback).Some? {
          HearKeepsInv(ps, s, TimerInput(callback).value);
        }
    }
  }

  lemma {:induction false} RunKeepsInv(ps: Parties, acts: seq<Action>)
    requires |RunSystem(ps, acts).published| <= U32
    ensures Inv(ps, RunSystem(ps, acts))
  {
    if acts != [] {
      RunKeepsInv(ps, acts[..|acts| - 1]);
      NextKeepsInv(ps, RunSystem(ps, acts[..|acts| - 1]), acts[|acts| - 1]);
    }
  }

  // ---------------------------------------------------------- end to end

  lemma {:induction false} CallsComeFromInputs(ins: seq<Input>, e: Event) returns (i: Input)
    requires e in BufferCalls(ins)
    ensures i in ins && BufferCall(i) == Some(e)
  {
    var n := |ins| - 1;
    if e in BufferCalls(ins[..n]) {
      i := CallsComeFromInputs(ins[..n], e);
    } else {
      i := ins[n];
    }
  }

  lemma {:induction false} FirstCopyArrived(es: seq<Event>, p: nat)
    requires FirstCopy(es, p).Some?
    ensures FirstCopy(es, p).value.id == p && Recv(FirstCopy(es, p).value) in es
  {
    var n := |es| - 1;
    if FirstCopy(es[..n], p).Some? {
      FirstCopyArrived(es[..n], p);
    }
  }

  /** An honest entry of the buffer is a true entry for the application. */
  lemma {:induction false} HonestIsTrue(ps: Parties, s: System, es: seq<Event>, p: nat, entry: Option<Message>)
    requires Inv(ps, s) && es <= BufferCalls(s.heard) && Honest(es, p, entry)
    ensures TrueEntry(ps, s, p, entry)
  {
    if entry.Some? {
      FirstCopyArrived(es, p);
      var i := CallsComeFromInputs(s.heard, Recv(entry.value));
    } else {
      var e :| e in es && Declares(e, p);
      var i := CallsComeFromInputs(s.heard, e);
      if i.RtxFailure? {
        assert OnFailure(p, ps.receiver.maxRetries + 1) in s.callbacks;
        assert TimerExhausted(ps, s, p);
      } else {
        assert RefusedByProducer(s, p);
      }
    }
  }

  /** Every entry of the application was released by some call of the receiver's buffer. */
  lemma {:induction false} EntryIsTrue(ps: Parties, s: System, k: nat)
    requires Inv(ps, s) && k < |s.seen|
    requires var r := Run(BufferCalls(s.heard)); r.window == s.session.window && r.out == s.seen
    ensures TrueEntry(ps, s, Base(s) + k, s.seen[k])
  {
    var es := BufferCalls(s.heard);
    var j := ReleasingEvent(es, k);
    DeliveryTheorem(es, j, k);
    HonestIsTrue(ps, s, es[..j + 1], Base(s) + k, s.seen[k]);
  }

  /** Every payload shown is the one submitted in that place. */
  ghost predicate ShowsSubmitted(s: System, submitted: seq<Message>) {
    forall k :: 0 <= k < |s.seen| && s.seen[k].Some? ==>
      0 <= Base(s) + k < |submitted| && s.seen[k].value.payload == submitted[Base(s) + k].payload
  }

  lemma {:induction false} FaithfulToSubmitted(ps: Parties, s: System, submitted: seq<Message>)
    requires Faithful(ps, s) && PublishedFrom(ps, s.published, submitted)
    ensures ShowsSubmitted(s, submitted)
  {
    forall k | 0 <= k < |s.seen| && s.seen[k].Some?
      ensures 0 <= Base(s) + k < |submitted| && s.seen[k].value.payload == submitted[Base(s) + k].payload
    {
      assert TrueEntry(ps, s, Base(s) + k, s.seen[k]);
      assert Unnumbered(s.published[Base(s) + k]) == Unnumbered(submitted[Base(s) + k]);
    }
  }

  lemma {:induction false} InvIsFaithful(ps: Parties, s: System)
    requires Inv(ps, s)
    ensures Faithful(ps, s)
  {
    SessionIsRun(ps.receiver, s.heard);
    forall k | 0 <= k < |s.seen|
      ensures TrueEntry(ps, s, Base(s) + k, s.seen[k])
    {
      EntryIsTrue(ps, s, k);
    }
  }

  /**
   End to end: as long as ids have not wrapped, in every run and whatever the
   network does, the application sees a contiguous run of the publications in order.
   Each entry is the payload submitted in that place or a loss marker, and a
   marker means that the producer refused the id after evicting it or that the
   whole retry budget of a timer for the id was used up.
   */
  lemma {:induction false} EndToEnd(ps: Parties, acts: seq<Action>)
    requires |RunSystem(ps, acts).published| <= U32
    ensures Faithful(ps, RunSystem(ps, acts)) && ShowsSubmitted(RunSystem(ps, acts), Submitted(ps, acts))
  {
    RunKeepsInv(ps, acts);
    InvIsFaithful(ps, RunSystem(ps, acts));
    PublishedAre(ps, acts);
    FaithfulToSubmitted(ps, RunSystem(ps, acts), Submitted(ps, acts));
  }

  function Repeat(a: Action, n: nat): seq<Action> {
    if n == 0 then [] else Repeat(a, n - 1) + [a]
  }

  lemma {:induction false} PublishMany(ps: Parties, msg: Message, n: nat)
    requires msg.source == ps.producer
    ensures var s := RunSystem(ps, Repeat(Publish(msg), n));
            && |s.published| == n && (forall m <- s.published :: m.payload == msg.payload)
            && s.session == NEW_SESSION && s.seen == []
  {
    if n > 0 {
      PublishMany(ps, msg, n - 1);
      var acts := Repeat(Publish(msg), n);
      assert acts[..|acts| - 1] == Repeat(Publish(msg), n - 1);
    }
  }

  /** The first packet that a receiver hears starts it. */
  lemma {:induction false} HearsFirst(ps: Parties, s: System, packet: Message)
    requires s.session == NEW_SESSION && s.seen == [] && (packet.header.Stream? || packet.header.PubSub?)
    ensures var s' := Hear(ps, s, Packet(packet));
            s'.seen == [Some(packet)] && Base(s') == packet.id && s'.published == s.published
  {
    assert Apply(FRESH, Recv(packet)) ==
           Effect(Window(true, packet.id + 1, packet.id + 1, map[], {}), [Some(packet)], []);
  }

  /** A receiver that joins after 2^32 publications takes message number 2^32 for number 0. */
  lemma {:induction false} WrappedRun(ps: Parties) returns (acts: seq<Action>)
    ensures |RunSystem(ps, acts).published| == U32 + 1
    ensures !Faithful(ps, RunSystem(ps, acts))
  {
    var msg := Message(ps.producer, 0, None, Unspecified, 0, Some([]), false, 0, None);
    var before := Repeat(Publish(msg), U32);
    PublishMany(ps, msg, U32);
    var s0 := RunSystem(ps, before);
    var last := msg.(payload := Some([0]));
    SystemStep(ps, before, Publish(last));
    var s1 := RunSystem(ps, before + [Publish(last)]);
    var late := s1.published[U32];
    assert late.id == 0 && late in s1.toReceiver;
    acts := before + [Publish(last)] + [Arrive(late, 0)];
    SystemStep(ps, before + [Publish(last)], Arrive(late, 0));
    HearsFirst(ps, s1, late.(incomingConn := 0));
    var s2 := RunSystem(ps, acts);
    assert s2.published[0] == s0.published[0] && s0.published[0] in s0.published;
    assert !TrueEntry(ps, s2, Base(s2) + 0, s2.seen[0]);
  }

  /** The bound of the end-to-end theorem is exact: it is the number of 32-bit ids. */
  lemma {:induction false} BoundIsExact(ps: Parties, n: nat)
    ensures (forall acts :: |RunSystem(ps, acts).published| <= n ==> Faithful(ps, RunSystem(ps, acts)))
            <==> n <= U32
  {
    if n <= U32 {
      forall acts | |RunSystem(ps, acts).published| <= n
        ensures Faithful(ps, RunSystem(ps, acts))
      {
        EndToEnd(ps, acts);
      }
    } else {
      var acts := WrappedRun(ps);
    }
  }
}
