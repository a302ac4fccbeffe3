/**
 Fire-and-forget between two sessions: what one sends the other delivers, the
 acknowledgement settles exactly what was sent, and a discovery binds each session
 to the other over the connection on which it was heard.
 */
module FnfExchange {
  import opened Messages
  import opened FireAndForget
  import opened StickyOrder
  import opened FnfConservation

  // --------------------------------------------------------- what is handed over

  /** The state of a session and all it has sent and delivered. */
  datatype Trace = Trace(state: State, toSlim: seq<Message>, toApp: seq<AppItem>)

  function Traced(s: State, ins: seq<Input>): Trace {
    if ins == [] then Trace(s, [], [])
    else
      var t := Traced(s, ins[..|ins| - 1]);
      var out := Step(t.state, ins[|ins| - 1]);
      Trace(out.state, t.toSlim + out.toSlim, t.toApp + out.toApp)
  }

  /** The messages among what the application is given; the rest are reports of timeouts. */
  function Deliveries(items: seq<AppItem>): seq<Message> {
    if items == [] then []
    else
      var last := items[|items| - 1];
      Deliveries(items[..|items| - 1]) + if last.Deliver? then [last.msg] else []
  }

  lemma {:induction false} DeliveriesConcat(a: seq<AppItem>, b: seq<AppItem>)
    ensures Deliveries(a + b) == Deliveries(a) + Deliveries(b)
  {
    if b == [] {
      assert a + b == a;
    } else {
      assert (a + b)[..|a + b| - 1] == a + b[..|b| - 1];
      DeliveriesConcat(a, b[..|b| - 1]);
    }
  }

  /** A session takes a message from anyone, unless it is sticky and bound to somebody else. */
  predicate Accepts(s: State, m: Message) {
    s.config.sticky && s.name.Some? ==> m.source == s.name.value
  }

  predicate IsData(m: Message) {
    m.header.Fnf? || m.header.FnfReliable?
  }

  /** The data messages that came while the session would take them, in order. */
  function Incoming(s: State, ins: seq<Input>): seq<Message> {
    if ins == [] then []
    else
      var before, i := ins[..|ins| - 1], ins[|ins| - 1];
      Incoming(s, before) +
      if i.FromSlim? && IsData(i.msg) && Accepts(Traced(s, before).state, i.msg) then [i.msg] else []
  }

  lemma {:induction false} StepDelivers(s: State, i: Input)
    ensures Deliveries(Step(s, i).toApp) ==
            if i.FromSlim? && IsData(i.msg) && Accepts(s, i.msg) then [i.msg] else []
  {
    if i.FromSlim? && i.msg.header.FnfDiscoveryReply? {
      SendAllShape(Bind(s, i.msg).(buffer := []), s.buffer, i.ids);
    }
    var items := Step(s, i).toApp;
    assert |items| <= 1;
    if |items| == 1 {
      assert items[..0] == [];
    }
  }

  /** Over every run the application is given exactly the messages that came for it, in order, once each. */
  lemma {:induction false} Delivered(s: State, ins: seq<Input>)
    ensures Deliveries(Traced(s, ins).toApp) == Incoming(s, ins)
  {
    if ins != [] {
      var before := ins[..|ins| - 1];
      var t := Traced(s, before);
      Delivered(s, before);
      StepDelivers(t.state, ins[|ins| - 1]);
      DeliveriesConcat(t.toApp, Step(t.state, ins[|ins| - 1]).toApp);
    }
  }

  // ------------------------------------------------------------ acknowledgements

  function Acks(ms: seq<Message>): seq<Message> {
    if ms == [] then []
    else
      var last := ms[|ms| - 1];
      Acks(ms[..|ms| - 1]) + if last.header.FnfAck? then [last] else []
  }

  lemma {:induction false} AcksConcat(a: seq<Message>, b: seq<Message>)
    ensures Acks(a + b) == Acks(a) + Acks(b)
  {
    if b == [] {
      assert a + b == a;
    } else {
      assert (a + b)[..|a + b| - 1] == a + b[..|b| - 1];
      AcksConcat(a, b[..|b| - 1]);
    }
  }

  lemma {:induction false} NoAcks(ms: seq<Message>)
    requires forall m <- ms :: !m.header.FnfAck?
    ensures Acks(ms) == []
  {
    if ms != [] {
      NoAcks(ms[..|ms| - 1]);
    }
  }

  function Reliables(ms: seq<Message>): seq<Message> {
    if ms == [] then []
    else
      var last := ms[|ms| - 1];
      Reliables(ms[..|ms| - 1]) + if last.header.FnfReliable? then [last] else []
  }

  /** `ack` tells the sender of `m`, over the connection it came on, that `me` has got it. */
  predicate Acknowledges(me: Agent, ack: Message, m: Message) {
    && ack.header.FnfAck? && ack.id == m.id && ack.source == me
    && AddressedTo(ack, m.source) && ack.forwardTo == Some(m.incomingConn)
  }

  /** What waits is data, and what a session may send again is never an acknowledgement. */
  ghost predicate KeepsNoAcks(s: State) {
    && (forall id :: id in s.timers ==> !s.timers[id].msg.header.FnfAck?)
    && (forall m <- s.buffer :: IsData(m))
  }

  lemma {:induction false} SendAllKeepsNoAcks(s: State, ms: seq<Message>, ids: seq<MsgId>)
    requires KeepsNoAcks(s) && forall m <- ms :: !m.header.FnfAck?
    ensures KeepsNoAcks(SendAll(s, ms, ids).state)
    ensures forall m <- SendAll(s, ms, ids).toSlim :: !m.header.FnfAck?
  {
    if ms != [] {
      SendAllKeepsNoAcks(s, ms[..|ms| - 1], ids);
    }
  }

  lemma {:induction false} SlimKeepsNoAcks(s: State, msg: Message, ids: seq<MsgId>)
    requires KeepsNoAcks(s)
    ensures KeepsNoAcks(MessageToApp(s, msg, ids).state) && MessageToApp(s, msg, ids).state.me == s.me
    ensures !msg.header.FnfReliable? ==> forall m <- MessageToApp(s, msg, ids).toSlim :: !m.header.FnfAck?
  {
    if msg.header.FnfDiscoveryReply? {
      SendAllKeepsNoAcks(Bind(s, msg).(buffer := []), s.buffer, ids);
      SendAllShape(Bind(s, msg).(buffer := []), s.buffer, ids);
    }
  }

  lemma {:induction false} StepKeepsNoAcks(s: State, i: Input)
    requires KeepsNoAcks(s)
    ensures KeepsNoAcks(Step(s, i).state) && Step(s, i).state.me == s.me
    ensures !(i.FromSlim? && i.msg.header.FnfReliable?) ==> forall m <- Step(s, i).toSlim :: !m.header.FnfAck?
  {
    if i.FromSlim? {
      SlimKeepsNoAcks(s, i.msg, i.ids);
    }
  }

  lemma {:induction false} StepAcks(s: State, i: Input)
    requires KeepsNoAcks(s)
    ensures var acks := Acks(Step(s, i).toSlim);
            if i.FromSlim? && i.msg.header.FnfReliable? && Accepts(s, i.msg)
            then |acks| == 1 && Acknowledges(s.me, acks[0], i.msg)
            else acks == []
  {
    StepKeepsNoAcks(s, i);
    var sent := Step(s, i).toSlim;
    if i.FromSlim? && i.msg.header.FnfReliable? && Accepts(s, i.msg) {
      assert sent[..0] == [];
    } else {
      NoAcks(sent);
    }
  }

  /** Over every run each reliable message that came is acknowledged once, in order, to its sender. */
  lemma {:induction false} Acknowledged(me: Agent, config: Config, ins: seq<Input>)
    ensures var t := Traced(Initial(me, config), ins);
            var acks, ms := Acks(t.toSlim), Reliables(Incoming(Initial(me, config), ins));
            && KeepsNoAcks(t.state) && t.state.me == me
            && |acks| == |ms| && forall k :: 0 <= k < |ms| ==> Acknowledges(me, acks[k], ms[k])
  {
    if ins != [] {
      var before, i := ins[..|ins| - 1], ins[|ins| - 1];
      var t := Traced(Initial(me, config), before);
      Acknowledged(me, config, before);
      StepAcks(t.state, i);
      StepKeepsNoAcks(t.state, i);
      AcksConcat(t.toSlim, Step(t.state, i).toSlim);
      IncomingReliables(Initial(me, config), ins);
    }
  }

  lemma IncomingReliables(s: State, ins: seq<Input>)
    requires ins != []
    ensures var before, i := ins[..|ins| - 1], ins[|ins| - 1];
            Reliables(Incoming(s, ins)) ==
            Reliables(Incoming(s, before)) +
            if i.FromSlim? && i.msg.header.FnfReliable? && Accepts(Traced(s, before).state, i.msg) then [i.msg] else []
  {
    var before, i := ins[..|ins| - 1], ins[|ins| - 1];
    if i.FromSlim? && IsData(i.msg) && Accepts(Traced(s, before).state, i.msg) {
      assert Incoming(s, ins)[..|Incoming(s, ins)| - 1] == Incoming(s, before);
    } else {
      assert Incoming(s, ins) == Incoming(s, before);
    }
  }

  // --------------------------------------------------------------- configuration

  /** The configuration set last. */
  function LastConfig(config: Config, ins: seq<Input>): Config {
    if ins == [] then config
    else if ins[|ins| - 1].SetConfig? then ins[|ins| - 1].config
    else LastConfig(config, ins[..|ins| - 1])
  }

  /** A session works with the configuration set last, which nothing else changes. */
  lemma {:induction false} ConfigInForce(s: State, ins: seq<Input>)
    ensures Traced(s, ins).state.config == LastConfig(s.config, ins)
  {
    if ins != [] {
      ConfigInForce(s, ins[..|ins| - 1]);
      var t, i := Traced(s, ins[..|ins| - 1]).state, ins[|ins| - 1];
      if i.FromSlim? {
        SendAllShape(Bind(t, i.msg).(buffer := []), t.buffer, i.ids);
      }
    }
  }

  // --------------------------------------------------------------------- binding

  /** The message binds the session to its sender: a discovery, or the answer to its own discovery. */
  predicate Binds(s: State, i: Input) {
    && i.FromSlim? && Accepts(s, i.msg)
    && (i.msg.header.FnfDiscovery? || (i.msg.header.FnfDiscoveryReply? && s.status.Discovering?))
  }

  lemma {:induction false} SlimBinds(s: State, msg: Message, ids: seq<MsgId>)
    requires BindingInv(s)
    ensures var s' := MessageToApp(s, msg, ids).state;
            if Binds(s, FromSlim(msg, ids))
            then s'.name == Some(msg.source) && s'.conn == Some(msg.incomingConn) && s'.status.Established?
            else s'.name == s.name && s'.conn == s.conn && s'.status == s.status
  {
    if msg.header.FnfDiscoveryReply? {
      SendAllShape(Bind(s, msg).(buffer := []), s.buffer, ids);
    }
  }

  /** Nothing else changes what the session is bound to. */
  lemma {:induction false} StepBinds(s: State, i: Input)
    requires BindingInv(s)
    ensures var s' := Step(s, i).state;
            if Binds(s, i)
            then s'.name == Some(i.msg.source) && s'.conn == Some(i.msg.incomingConn) && s'.status.Established?
            else s'.name == s.name && s'.conn == s.conn && (s'.status.Established? <==> s.status.Established?)
  {
    if i.FromSlim? {
      SlimBinds(s, i.msg, i.ids);
    }
  }

  /** The message that bound the session last. */
  function LastBinding(s: State, ins: seq<Input>): Option<Message> {
    if ins == [] then None
    else if Binds(Traced(s, ins[..|ins| - 1]).state, ins[|ins| - 1]) then Some(ins[|ins| - 1].msg)
    else LastBinding(s, ins[..|ins| - 1])
  }

  /** In every run a session is bound to the sender of the message that bound it last, over its connection. */
  lemma {:induction false} BoundBy(me: Agent, config: Config, ins: seq<Input>)
    ensures var s, cause := Traced(Initial(me, config), ins).state, LastBinding(Initial(me, config), ins);
            && s.name == (if cause.Some? then Some(cause.value.source) else None)
            && s.conn == (if cause.Some? then Some(cause.value.incomingConn) else None)
            && (cause.Some? <==> s.status.Established?)
  {
    if ins != [] {
      BoundBy(me, config, ins[..|ins| - 1]);
      StepBinds(Traced(Initial(me, config), ins[..|ins| - 1]).state, ins[|ins| - 1]);
    }
  }

  // ------------------------------------------------------------------ round trip

  /** The session sends at once: it has a peer, or needs none. */
  predicate Ready(s: State) {
    s.config.sticky ==> s.name.Some?
  }

  /** A submission goes out with its id, payload and source, typed by the configuration, to its destination or the peer. */
  lemma {:induction false} Sent(s: State, msg: Message, id: MsgId)
    requires Ready(s)
    ensures var out := Step(s, FromApp(msg, id));
            && |out.toSlim| == 1 && out.toApp == []
            && var sent := out.toSlim[0];
               && sent.id == id && sent.payload == msg.payload && sent.source == msg.source
               && sent.header == (if s.config.timeout.Some? then FnfReliable else Fnf)
               && (if s.name.Some? then SentTo(sent, s.name.value) && sent.forwardTo == s.conn
                   else sent.dstType == msg.dstType && sent.dstId == msg.dstId && sent.forwardTo == msg.forwardTo)
  {
  }

  /** The other session delivers it if it takes messages from this sender, and acknowledges it if it is reliable. */
  lemma {:induction false} Got(s: State, m: Message, ids: seq<MsgId>)
    requires IsData(m)
    ensures var got := Step(s, FromSlim(m, ids));
            && got.state == s
            && got.toApp == (if Accepts(s, m) then [Deliver(m)] else [])
            && |got.toSlim| == (if Accepts(s, m) && m.header.FnfReliable? then 1 else 0)
            && (|got.toSlim| == 1 ==> Acknowledges(s.me, got.toSlim[0], m))
  {
  }

  /** An acknowledgement settles the entry of its id and no other. */
  lemma {:induction false} AckSettles(ledger: seq<Entry>, timers: map<nat, Pending>, e: Entry)
    requires Agree(timers, ledger) && e.msg.id !in timers && e.fate.Waiting?
    ensures Settle(ledger + [e], e.msg.id, Acked) == ledger + [e.(fate := Acked)]
  {
  }

  lemma {:induction false} SentIsEntered(w: World, msg: Message, id: MsgId)
    requires Ready(w.state) && w.state.config.timeout.Some?
    ensures var m := Step(w.state, FromApp(msg, id)).toSlim[0];
            var w' := Next(w, App(msg, id));
            && w'.ledger == w.ledger + [NewEntry(w.state.config, m)] && m.id == id
            && w'.state == w.state.(timers := w.state.timers[id := w'.state.timers[id]])
  {
    var m := Step(w.state, FromApp(msg, id)).toSlim[0];
    assert NewEntries(w.state.config, [m]) == [NewEntry(w.state.config, m)];
  }

  lemma {:induction false} AckIsHandled(w: World, ack: Message, ids: seq<MsgId>)
    requires ack.header.FnfAck? && Accepts(w.state, ack)
    ensures var w' := Next(w, Slim(ack, ids));
            w'.state == w.state.(timers := w.state.timers - {ack.id}) && w'.ledger == Settle(w.ledger, ack.id, Acked)
  {
    assert NewEntries(w.state.config, []) == [];
  }

  /**
   Round trip of a reliable message between two sessions: it is delivered once with its
   payload, and when the acknowledgement is back, exactly its entry is settled and exactly
   its copy and timer are gone.
   */
  lemma {:induction false} ReliableRoundTrip(
    w: World, msg: Message, id: MsgId, peer: State, conn: nat, back: nat, ids: seq<MsgId>)
    requires Agree(w.state.timers, w.ledger) && PendingFresh(w, App(msg, id))
    requires Ready(w.state) && w.state.config.timeout.Some? && msg.source == w.state.me
    ensures var sent := Step(w.state, FromApp(msg, id)).toSlim[0].(incomingConn := conn);
            Accepts(peer, sent) ==>
              var got := Step(peer, FromSlim(sent, ids));
              && got.toApp == [Deliver(sent)] && sent.payload == msg.payload
              && |got.toSlim| == 1 && AddressedTo(got.toSlim[0], w.state.me) && got.toSlim[0].forwardTo == Some(conn)
              && var ack := got.toSlim[0].(incomingConn := back);
                 Accepts(Next(w, App(msg, id)).state, ack) ==>
                   var w' := Next(Next(w, App(msg, id)), Slim(ack, ids));
                   && w'.state == w.state
                   && w'.ledger ==
                      w.ledger + [NewEntry(w.state.config, sent.(incomingConn := msg.incomingConn)).(fate := Acked)]
  {
    Sent(w.state, msg, id);
    SentIsEntered(w, msg, id);
    var m := Step(w.state, FromApp(msg, id)).toSlim[0];
    var sent := m.(incomingConn := conn);
    assert id !in w.state.timers by {
      assert Drawn(w, App(msg, id))[0].id == id;
    }
    Got(peer, sent, ids);
    if Accepts(peer, sent) {
      var w1, ack := Next(w, App(msg, id)), Step(peer, FromSlim(sent, ids)).toSlim[0].(incomingConn := back);
      if Accepts(w1.state, ack) {
        AckIsHandled(w1, ack, ids);
        AckSettles(w.ledger, w.state.timers, NewEntry(w.state.config, m));
        assert w1.state.timers - {id} == w.state.timers;
      }
    }
  }

  // ------------------------------------------------------------------- discovery

  /** The first message of a sticky session sends a probe to any agent of the destination's type. */
  lemma {:induction false} ProbeGoesOut(s: State, msg: Message, id: MsgId)
    requires s.config.sticky && s.name.None? && s.status.Uninitialized?
    ensures var out := Step(s, FromApp(msg, id));
            && |out.toSlim| == 1 && out.toSlim[0].header.FnfDiscovery?
            && out.toSlim[0].source == s.me && out.toSlim[0].dstType == msg.dstType && out.toSlim[0].dstId.None?
            && out.state.status.Discovering? && |out.state.buffer| == |s.buffer| + 1
            && var waiting := out.state.buffer[|s.buffer|];
               && waiting.payload == msg.payload && waiting.source == msg.source
               && waiting.header == if s.config.timeout.Some? then FnfReliable else Fnf
  {
  }

  /** A session that is discovered binds to the discoverer over the connection of the probe, and answers there. */
  lemma {:induction false} ProbeBinds(s: State, probe: Message, ids: seq<MsgId>)
    requires probe.header.FnfDiscovery? && Accepts(s, probe)
    ensures var out := Step(s, FromSlim(probe, ids));
            && out.state.name == Some(probe.source) && out.state.conn == Some(probe.incomingConn)
            && out.state.status.Established? && out.state.me == s.me && out.state.config == s.config
            && out.toApp == [] && |out.toSlim| == 1 && out.toSlim[0].header.FnfDiscoveryReply?
            && out.toSlim[0].source == s.me && SentTo(out.toSlim[0], probe.source)
            && out.toSlim[0].forwardTo == Some(probe.incomingConn)
  {
  }

  /** A session that waits binds to the one that answers, and sends it everything that waits over that connection. */
  lemma {:induction false} ReplyBinds(s: State, reply: Message, ids: seq<MsgId>)
    requires reply.header.FnfDiscoveryReply? && s.status.Discovering? && s.name.None?
    ensures var out := Step(s, FromSlim(reply, ids));
            && out.state.name == Some(reply.source) && out.state.conn == Some(reply.incomingConn)
            && out.state.status.Established? && out.state.buffer == []
            && out.toApp == [] && |out.toSlim| == |s.buffer|
            && forall k :: 0 <= k < |s.buffer| ==>
                 && SentTo(out.toSlim[k], reply.source) && out.toSlim[k].forwardTo == Some(reply.incomingConn)
                 && out.toSlim[k].payload == s.buffer[k].payload && out.toSlim[k].header == s.buffer[k].header
                 && out.toSlim[k].source == s.buffer[k].source
  {
    SendAllShape(Bind(s, reply).(buffer := []), s.buffer, ids);
  }

  /** The messages as they arrive on a connection. */
  function Over(ms: seq<Message>, conn: nat): seq<Message> {
    seq(|ms|, k requires 0 <= k < |ms| => ms[k].(incomingConn := conn))
  }

  function Arrivals(ms: seq<Message>): seq<Input> {
    seq(|ms|, k requires 0 <= k < |ms| => FromSlim(ms[k], []))
  }

  lemma ArrivalsLast(s: State, ms: seq<Message>)
    requires ms != []
    ensures var n := |ms| - 1;
            var t := Traced(s, Arrivals(ms[..n]));
            var out := Step(t.state, FromSlim(ms[n], []));
            Traced(s, Arrivals(ms)) == Trace(out.state, t.toSlim + out.toSlim, t.toApp + out.toApp)
  {
    assert Arrivals(ms)[..|ms| - 1] == Arrivals(ms[..|ms| - 1]);
  }

  /** Data messages from one accepted sender are all delivered, in order, and change nothing. */
  lemma {:induction false} AllDelivered(s: State, ms: seq<Message>)
    requires forall m <- ms :: IsData(m) && Accepts(s, m)
    ensures Traced(s, Arrivals(ms)).state == s && Deliveries(Traced(s, Arrivals(ms)).toApp) == ms
  {
    if ms != [] {
      var n := |ms| - 1;
      assert ms == ms[..n] + [ms[n]] && ms[n] in ms;
      AllDelivered(s, ms[..n]);
      ArrivalsLast(s, ms);
      Got(s, ms[n], []);
      StepDelivers(s, FromSlim(ms[n], []));
      DeliveriesConcat(Traced(s, Arrivals(ms[..n])).toApp, Step(s, FromSlim(ms[n], [])).toApp);
    }
  }

  /** What a session sends to one that is bound to it arrives there with its payloads. */
  lemma {:induction false} AllArrive(s: State, from: Agent, sent: seq<Message>, conn: nat)
    requires s.name == Some(from) && forall k :: 0 <= k < |sent| ==> IsData(sent[k]) && sent[k].source == from
    ensures var got := Deliveries(Traced(s, Arrivals(Over(sent, conn))).toApp);
            && |got| == |sent|
            && forall k :: 0 <= k < |got| ==>
                 got[k].payload == sent[k].payload && got[k].header == sent[k].header && got[k].source == from
  {
    var arrived := Over(sent, conn);
    forall m | m in arrived
      ensures IsData(m) && Accepts(s, m)
    {
      var k :| 0 <= k < |arrived| && arrived[k] == m;
    }
    AllDelivered(s, arrived);
  }

  /**
   Discovery from both sides: a waiting session's probe finds a session that takes it; after
   probe and answer each is bound to the other over the connection it heard it on, and the
   messages that waited are delivered there, all of them, in order and with their payloads.
   */
  lemma {:induction false} Handshake(
    s: State, probe: Message, peer: State, conn: nat, back: nat, ids: seq<MsgId>, more: seq<MsgId>)
    requires s.status.Discovering? && s.name.None? && probe.header.FnfDiscovery? && probe.source == s.me
    requires forall m <- s.buffer :: IsData(m) && m.source == s.me
    requires Accepts(peer, probe)
    ensures var found := Step(peer, FromSlim(probe.(incomingConn := conn), ids));
            && |found.toSlim| == 1
            && var bound := Step(s, FromSlim(found.toSlim[0].(incomingConn := back), more));
               && bound.state.name == Some(peer.me) && bound.state.conn == Some(back) && bound.state.buffer == []
               && found.state.name == Some(s.me) && found.state.conn == Some(conn)
               && var got := Deliveries(Traced(found.state, Arrivals(Over(bound.toSlim, conn))).toApp);
                  && |got| == |s.buffer|
                  && forall k :: 0 <= k < |got| ==>
                       && got[k].payload == s.buffer[k].payload && got[k].header == s.buffer[k].header
                       && got[k].source == s.me
  {
    ProbeBinds(peer, probe.(incomingConn := conn), ids);
    var found := Step(peer, FromSlim(probe.(incomingConn := conn), ids));
    var reply := found.toSlim[0].(incomingConn := back);
    ReplyBinds(s, reply, more);
    var sent := Step(s, FromSlim(reply, more)).toSlim;
    assert forall k :: 0 <= k < |sent| ==> s.buffer[k] in s.buffer;
    AllArrive(found.state, s.me, sent, conn);
  }

  /**
   The first message of a sticky session, all the way: a probe goes to any agent of the
   destination's type, and if one takes it, the message is delivered there, reliable exactly
   when a timeout is configured.
   */
  lemma {:induction false} FirstContact(
    s: State, msg: Message, id: MsgId, peer: State, conn: nat, back: nat, ids: seq<MsgId>, more: seq<MsgId>)
    requires s.config.sticky && s.name.None? && s.status.Uninitialized? && s.buffer == [] && msg.source == s.me
    ensures var out := Step(s, FromApp(msg, id));
            && |out.toSlim| == 1
            && var probe := out.toSlim[0];
               && probe.dstType == msg.dstType && probe.dstId.None?
               && (Accepts(peer, probe) ==>
                     var found := Step(peer, FromSlim(probe.(incomingConn := conn), ids));
                     && |found.toSlim| == 1
                     && var bound := Step(out.state, FromSlim(found.toSlim[0].(incomingConn := back), more));
                        var got := Deliveries(Traced(found.state, Arrivals(Over(bound.toSlim, conn))).toApp);
                        && |got| == 1 && got[0].payload == msg.payload && got[0].source == s.me
                        && got[0].header == if s.config.timeout.Some? then FnfReliable else Fnf)
  {
    ProbeGoesOut(s, msg, id);
    var out := Step(s, FromApp(msg, id));
    if Accepts(peer, out.toSlim[0]) {
      Handshake(out.state, out.toSlim[0], peer, conn, back, ids, more);
    }
  }

  /**
   A discovered session that is reliable keeps its answer pending like any other message,
   but no session acknowledges an answer: its timer is never stopped by the peer.
   */
  lemma {:induction false} AnswerNeverAcknowledged(
    s: State, probe: Message, ids: seq<MsgId>, peer: State, conn: nat, more: seq<MsgId>)
    requires probe.header.FnfDiscovery? && Accepts(s, probe) && s.config.timeout.Some? && KeepsNoAcks(peer)
    ensures var found := Step(s, FromSlim(probe, ids));
            && |found.toSlim| == 1 && found.toSlim[0].id in found.state.timers
            && found.state.timers[found.toSlim[0].id].msg == found.toSlim[0]
            && Acks(Step(peer, FromSlim(found.toSlim[0].(incomingConn := conn), more)).toSlim) == []
  {
    ProbeBinds(s, probe, ids);
    var reply := Step(s, FromSlim(probe, ids)).toSlim[0];
    StepAcks(peer, FromSlim(reply.(incomingConn := conn), more));
  }
}
