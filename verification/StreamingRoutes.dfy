/**
 Who sends what to whom in a streaming session: every packet of a run comes from the
 producer or the receiver and is addressed to the other, so requests and replies find
 their way back; and a run without losses shows the application every publication.
 */
module StreamingRoutes {
  import opened Messages
  import opened Producers
  import opened ReorderWindow
  import opened WindowRuns
  import opened ReceiverSessions
  import opened SessionDelivery
  import opened StreamingProtocol
  import opened StreamingReceivers

  /** A packet of the producer: its kind fits the session, and a reply is for the receiver. */
  predicate FromProducer(ps: Parties, published: seq<Message>, m: Message) {
    && m.source == ps.producer
    && match m.header
       case Stream => !ps.bidirectional
       case PubSub => ps.bidirectional
       case BeaconStream => !ps.bidirectional && ToTopic(published, m)
       case BeaconPubSub => ps.bidirectional && ToTopic(published, m)
       case RtxReply => AddressedTo(m, ps.receiver.me)
       case _ => false
  }

  /** A beacon goes where the first publication went, to whoever listens there. */
  predicate ToTopic(published: seq<Message>, beacon: Message) {
    published != [] && beacon.dstType == published[0].dstType && beacon.dstId.None?
  }

  predicate FromReceiver(ps: Parties, m: Message) {
    m.header.RtxRequest? && m.source == ps.receiver.me && AddressedTo(m, ps.producer)
  }

  ghost predicate RouteInv(ps: Parties, s: System) {
    && (forall m <- s.toReceiver :: FromProducer(ps, s.published, m))
    && (forall m <- s.toProducer :: FromReceiver(ps, m))
    && (forall p :: p in s.session.rtx ==> FromReceiver(ps, s.session.rtx[p]))
  }

  /** Requests go to the sender of the packet that revealed the loss, over the connection it came on. */
  lemma {:induction false} RequestAddress(cfg: Config, cause: Message, ids: seq<nat>, m: Message)
    requires m in Requests(cfg, cause, ids)
    ensures m.header.RtxRequest? && m.source == cfg.me && AddressedTo(m, cause.source)
    ensures m.forwardTo == Some(cause.incomingConn)
  {
    var n := |ids| - 1;
    if m in Requests(cfg, cause, ids[..n]) {
      RequestAddress(cfg, cause, ids[..n], m);
    }
  }

  lemma {:induction false} HearRoutes(ps: Parties, s: System, i: Input)
    requires RouteInv(ps, s) && (i.Packet? ==> i.msg.source == ps.producer)
    ensures RouteInv(ps, Hear(ps, s, i))
  {
    var r := Step(ps.receiver, s.session, i);
    forall m | m in r.toSlim
      ensures FromReceiver(ps, m)
    {
      if i.Packet? {
        RequestAddress(ps.receiver, i.msg, Apply(s.session.window, BufferCall(i).value).rtx, m);
      }
    }
  }

  lemma {:induction false} PublishRoutes(ps: Parties, s: System, msg: Message)
    requires RouteInv(ps, s) && msg.source == ps.producer
    ensures RouteInv(ps, Next(ps, s, Publish(msg)))
  {
    var s' := Next(ps, s, Publish(msg));
    assert forall m :: FromProducer(ps, s.published, m) ==> FromProducer(ps, s'.published, m);
  }

  lemma {:induction false} NextRoutes(ps: Parties, s: System, a: Action)
    requires RouteInv(ps, s)
    ensures RouteInv(ps, Next(ps, s, a))
  {
    if Enabled(ps, s, a) {
      match a
      case Publish(msg) => PublishRoutes(ps, s, msg);
      case AnswerRtx(request, conn) => AnswerAddress(s.published, ps.producer, request.(incomingConn := conn));
      case SendBeacon =>
      case Arrive(packet, conn) => HearRoutes(ps, s, Packet(packet.(incomingConn := conn)));
      case TimerFires(_) =>
      case HandleTimer(callback) =>
        if TimerInput(callback).Some? {
          HearRoutes(ps, s, TimerInput(callback).value);
        }
    }
  }

  /**
   In every run every packet is from the producer and of the right kind, every reply is for
   the receiver, and every request is for the producer; so nothing that was sent is kept
   from arriving by its address.
   */
  lemma {:induction false} RunRoutes(ps: Parties, acts: seq<Action>)
    ensures RouteInv(ps, RunSystem(ps, acts))
    ensures forall m <- RunSystem(ps, acts).toReceiver :: Enabled(ps, RunSystem(ps, acts), Arrive(m, 0))
    ensures forall m <- RunSystem(ps, acts).toProducer :: Enabled(ps, RunSystem(ps, acts), AnswerRtx(m, 0))
  {
    if acts != [] {
      RunRoutes(ps, acts[..|acts| - 1]);
      NextRoutes(ps, RunSystem(ps, acts[..|acts| - 1]), acts[|acts| - 1]);
    }
  }

  // ------------------------------------------------------------- round trip

  /** All packets of the run come from this producer, as those filed under it do. */
  ghost predicate AllFrom(ins: seq<Input>, producer: Agent) {
    forall i <- ins :: i.Packet? ==> i.msg.source == producer
  }

  /** A request filed under a producer is from this receiver and for that producer. */
  lemma {:induction false} StoredAddress(cfg: Config, producer: Agent, ins: seq<Input>, p: nat)
    requires AllFrom(ins, producer) && p in RunSession(cfg, ins).session.rtx
    ensures var request := RunSession(cfg, ins).session.rtx[p];
            && request.header.RtxRequest? && request.id == p
            && request.source == cfg.me && AddressedTo(request, producer)
  {
    NeverStuck(cfg, ins);
    var n := |ins| - 1;
    var s := RunSession(cfg, ins[..n]).session;
    assert ins[n] in ins && AllFrom(ins[..n], producer);
    if p in s.rtx {
      StoredAddress(cfg, producer, ins[..n], p);
    }
  }

  /** After a message or a loss its id is handed over, held, or known to be lost. */
  lemma {:induction false} CallCovers(w: Window, e: Event)
    requires w.Settled() && !e.Beacon?
    ensures var w', p := Apply(w, e).window, EventId(e); p < w'.next || p in w'.held || p in w'.lost
  {
    CallState(w, e);
    if e.Lost? {
      if Apply(w, e).window.next <= e.id {
        CallKeepsLost(w, e, e.id);
      }
    } else {
      assert Apply(w, e).window.next <= e.m.id ==> Apply(w, e).window.Copy(e.m.id) == Known(w, e, e.m.id);
    }
  }

  lemma {:induction false} ReplySettles(cfg: Config, s: Session, m: Message)
    requires Unstuck(s) && m.header.RtxReply?
    ensures var s' := Step(cfg, s, Packet(m)).session;
            && m.id !in s'.rtx && m.id !in s'.timers
            && (m.id < s'.window.next || m.id in s'.window.held || m.id in s'.window.lost)
  {
    RequestedIff(s.window, BufferCall(Packet(m)).value, m.id);
    CallCovers(s.window, BufferCall(Packet(m)).value);
  }

  /**
   Request and answer: the answer to a request filed under a producer comes from that
   producer and is addressed to this receiver, so it is filed there too; it settles the
   request and its timer, and the message is then handed over, held, or known to be lost.
   */
  lemma {:induction false} RtxRoundTrip(
    cfg: Config, producer: Agent, ins: seq<Input>, p: nat, published: seq<Message>, conn: nat, back: nat)
    requires AllFrom(ins, producer) && p in RunSession(cfg, ins).session.rtx
    ensures var s := RunSession(cfg, ins).session;
            var answer := RtxAnswer(published, producer, s.rtx[p].(incomingConn := conn));
            answer.Some? ==>
              && answer.value.source == producer && AddressedTo(answer.value, cfg.me)
              && answer.value.forwardTo == Some(conn)
              && var s' := Step(cfg, s, Packet(answer.value.(incomingConn := back))).session;
                 && p !in s'.rtx && p !in s'.timers
                 && (p < s'.window.next || p in s'.window.held || p in s'.window.lost)
  {
    var s := RunSession(cfg, ins).session;
    StoredAddress(cfg, producer, ins, p);
    NeverStuck(cfg, ins);
    var request := s.rtx[p].(incomingConn := conn);
    AnswerAddress(published, producer, request);
    var answer := RtxAnswer(published, producer, request);
    if answer.Some? {
      ReplySettles(cfg, s, answer.value.(incomingConn := back));
    }
  }

  lemma {:induction false} AnswerRemoves(
    cfg: Config, producer: Agent, ins: seq<Input>, s: Session, p: nat, answer: Message, published: seq<Message>,
    conn: nat, back: nat)
    requires AllFrom(ins, producer) && s == RunSession(cfg, ins).session && p in s.rtx
    requires RtxAnswer(published, producer, s.rtx[p].(incomingConn := conn)) == Some(answer)
    ensures answer.source == producer
    ensures var s' := Step(cfg, s, Packet(answer.(incomingConn := back))).session; p !in s'.rtx && p !in s'.timers
  {
    RtxRoundTrip(cfg, producer, ins, p, published, conn, back);
  }

  /** The producer's answer to the request that the receiver has stored for `p`. */
  ghost function Answer(state: ReceiverState, producer: Producer, p: nat, conn: nat): Option<Message>
    requires p in state.Of(producer.source).rtx
    reads state, state.buffers.Values, producer
  {
    RtxAnswer(producer.published, producer.source, state.Of(producer.source).rtx[p].(incomingConn := conn))
  }

  /** The two ends of that round trip as they run: the producer's handler, then the receiver's. */
  method AnswerExchange(
    state: ReceiverState, producer: Producer, cfg: Config, p: nat, conn: nat, back: nat, ghost ins: seq<Input>)
    returns (answered: bool, toApp: seq<Option<Message>>)
    requires state.Valid() && producer.Valid() && producer.source in state.buffers
    requires AllFrom(ins, producer.source) && state.Of(producer.source) == RunSession(cfg, ins).session
    requires p in state.Of(producer.source).rtx
    modifies state, state.Footprint(producer.source)
    ensures state.Valid()
    ensures answered <==> old(Answer(state, producer, p, conn)).Some?
    ensures answered ==> p !in state.Of(producer.source).rtx && p !in state.Of(producer.source).timers
    ensures !answered ==> toApp == [] && state.Of(producer.source) == old(state.Of(producer.source))
  {
    ghost var s, answer := state.Of(producer.source), Answer(state, producer, p, conn);
    var request := state.buffers[producer.source].rtxMap[p];
    var reply := producer.ProcessIncomingRtxRequest(request.(incomingConn := conn));
    assert reply == answer;
    answered, toApp := reply.Some?, [];
    if answered {
      AnswerRemoves(cfg, producer.source, ins, s, p, reply.value, producer.published, conn, back);
      var requests;
      toApp, requests := state.ProcessMessageFromSlim(cfg, reply.value.(incomingConn := back));
    }
  }

  // -------------------------------------------------------------- no losses

  /** A publication is made and arrives. */
  function PublishAndArrive(ps: Parties, acts: seq<Action>, m: Message): seq<Action> {
    var published := RunSystem(ps, acts + [Publish(m)]).published;
    if published == [] then acts + [Publish(m)]
    else acts + [Publish(m)] + [Arrive(published[|published| - 1], 0)]
  }

  /** Every publication arrives right after it was made. */
  function InOrderRun(ps: Parties, ms: seq<Message>): seq<Action> {
    if ms == [] then [] else PublishAndArrive(ps, InOrderRun(ps, ms[..|ms| - 1]), ms[|ms| - 1])
  }

  lemma {:induction false} InOrderHear(ps: Parties, s: System, m: Message)
    requires (s.session == NEW_SESSION || s.session == Gapless(m.id)) && (m.header.Stream? || m.header.PubSub?)
    ensures var s' := Hear(ps, s, Packet(m));
            && s'.session == Gapless(m.id + 1) && s'.seen == s.seen + [Some(m)]
            && s'.published == s.published && s'.toProducer == s.toProducer
  {
    InOrderStep(ps.receiver, s.session, m);
  }

  lemma {:induction false} PublishedLast(ps: Parties, s: System, m: Message)
    requires m.source == ps.producer && |s.published| < U32
    ensures var s', n := Next(ps, s, Publish(m)), |s.published|;
            && s' == s.(published := s'.published, toReceiver := s'.toReceiver)
            && |s'.published| == n + 1 && s'.published[n] in s'.toReceiver
            && s'.published[n].id == n && s'.published[n].payload == m.payload && s'.published[n].source == ps.producer
            && (s'.published[n].header.Stream? || s'.published[n].header.PubSub?)
  {
  }

  /** One more submission has been published and seen. */
  ghost predicate OneMore(s: System, s': System, m: Message) {
    && |s'.published| == |s.published| + 1 && s'.toProducer == s.toProducer
    && s'.session == Gapless(|s'.published|) && |s'.seen| == |s.seen| + 1 && s.seen <= s'.seen
    && s'.seen[|s.seen|].Some? && s'.seen[|s.seen|].value.payload == m.payload
  }

  /** One more publication that arrives at once. */
  lemma {:induction false} InOrderOne(ps: Parties, acts: seq<Action>, m: Message)
    requires var s := RunSystem(ps, acts);
             && m.source == ps.producer && |s.published| < U32
             && (s.session == NEW_SESSION || s.session == Gapless(|s.published|))
    ensures var s, s' := RunSystem(ps, acts), RunSystem(ps, PublishAndArrive(ps, acts, m));
            OneMore(s, s', m)
  {
    var s := RunSystem(ps, acts);
    SystemStep(ps, acts, Publish(m));
    PublishedLast(ps, s, m);
    var s1 := RunSystem(ps, acts + [Publish(m)]);
    var sent := s1.published[|s.published|];
    SystemStep(ps, acts + [Publish(m)], Arrive(sent, 0));
    InOrderHear(ps, s1, sent.(incomingConn := 0));
  }

  /** The application has seen exactly these submissions, in order, and nothing was asked for. */
  ghost predicate ShowsAll(s: System, ms: seq<Message>) {
    && |s.published| == |s.seen| == |ms| && s.toProducer == {}
    && s.session == (if ms == [] then NEW_SESSION else Gapless(|ms|))
    && (forall k :: 0 <= k < |ms| ==> s.seen[k].Some? && s.seen[k].value.payload == ms[k].payload)
  }

  lemma {:induction false} ShowsOneMore(s: System, s': System, ms: seq<Message>)
    requires ms != [] && ShowsAll(s, ms[..|ms| - 1]) && OneMore(s, s', ms[|ms| - 1])
    ensures ShowsAll(s', ms)
  {
  }

  /**
   Without losses the application sees exactly what was submitted, in order and with
   nothing asked for again, up to the wrap of ids.
   */
  lemma {:induction false} LossFreeRun(ps: Parties, ms: seq<Message>)
    requires |ms| <= U32 && forall m <- ms :: m.source == ps.producer
    ensures ShowsAll(RunSystem(ps, InOrderRun(ps, ms)), ms)
  {
    if ms != [] {
      var before, last := InOrderRun(ps, ms[..|ms| - 1]), ms[|ms| - 1];
      LossFreeRun(ps, ms[..|ms| - 1]);
      InOrderOne(ps, before, last);
      ShowsOneMore(RunSystem(ps, before), RunSystem(ps, PublishAndArrive(ps, before, last)), ms);
    }
  }
}
