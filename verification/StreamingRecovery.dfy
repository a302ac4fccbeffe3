/**
 Recovery: even if none of the publications made so far ever arrives, beacons,
 retransmission requests, their replies and the retransmission timers can bring
 the receiving application up to date, from every reachable state in which
 something can still start the receiver.
 */
module StreamingRecovery {
  import opened Messages
  import opened ReorderWindow
  import opened WindowRuns
  import opened Producers
  import opened ReceiverSessions
  import opened StreamingProtocol
  import opened StreamingRoutes
  import opened Timers

  predicate IsBeacon(m: Message) {
    m.header.BeaconStream? || m.header.BeaconPubSub?
  }

  /** An action that publishes nothing and delivers no original publication. */
  predicate Repairs(a: Action) {
    match a
    case Publish(_) => false
    case Arrive(packet, _) => packet.header.RtxReply? || IsBeacon(packet)
    case _ => true
  }

  /** `more` extends `acts` by repairing actions only. */
  ghost predicate Repaired(acts: seq<Action>, more: seq<Action>) {
    acts <= more && forall k :: |acts| <= k < |more| ==> Repairs(more[k])
  }

  /** Between the two states nothing was published, and only publications without a payload were given up. */
  ghost predicate GaveUpOnlyEmpty(s: System, s': System) {
    && s'.published == s.published
    && forall p: MsgId :: RtxFailure(p) in s'.heard && RtxFailure(p) !in s.heard ==>
         p < |s.published| && s.published[p].payload.None?
  }

  ghost predicate Repair(ps: Parties, acts: seq<Action>, more: seq<Action>) {
    Repaired(acts, more) && GaveUpOnlyEmpty(RunSystem(ps, acts), RunSystem(ps, more))
  }

  lemma RepairTransitive(ps: Parties, a: seq<Action>, b: seq<Action>, c: seq<Action>)
    requires Repair(ps, a, b) && Repair(ps, b, c)
    ensures Repair(ps, a, c)
  {
    assert forall k :: |a| <= k < |b| ==> c[k] == b[k];
  }

  /** A known fate of the front id moves the window on, also when it has no slot yet. */
  lemma {:induction false} FrontMoves(w: Window, e: Event)
    requires w.Settled() && w.started && EventId(e) == w.next && !e.Beacon?
    ensures w.next < Apply(w, e).window.next
  {
  }

  /** The receiver processes an input that leads to a buffer call. */
  lemma HearCall(ps: Parties, s: System, i: Input)
    requires BufferCall(i).Some?
    ensures var s', e := Hear(ps, s, i), Apply(s.session.window, BufferCall(i).value);
            && s'.published == s.published && s'.heard == s.heard + [i]
            && s'.session.window == e.window
            && (i.Packet? ==> forall p <- e.rtx :: p in s'.session.rtx && p in s'.session.timers)
  {
  }

  // ------------------------------------------------------- single repairs

  /** A repairing packet that was sent at some time arrives. */
  lemma {:induction false} SentArrives(ps: Parties, acts: seq<Action>, packet: Message) returns (more: seq<Action>)
    requires packet in RunSystem(ps, acts).toReceiver && Repairs(Arrive(packet, 0))
    requires BufferCall(Packet(packet.(incomingConn := 0))).Some?
    ensures Repair(ps, acts, more)
    ensures var s, s' := RunSystem(ps, acts), RunSystem(ps, more);
            var e := Apply(s.session.window, BufferCall(Packet(packet.(incomingConn := 0))).value);
            s'.session.window == e.window && forall p <- e.rtx :: p in s'.session.rtx && p in s'.session.timers
  {
    RunRoutes(ps, acts);
    SystemStep(ps, acts, Arrive(packet, 0));
    HearCall(ps, RunSystem(ps, acts), Packet(packet.(incomingConn := 0)));
    more := acts + [Arrive(packet, 0)];
  }

  /** A repairing packet is sent and arrives. */
  lemma {:induction false} PacketArrives(ps: Parties, acts: seq<Action>, a: Action, packet: Message)
    returns (more: seq<Action>)
    requires var s := RunSystem(ps, acts); Next(ps, s, a) == s.(toReceiver := s.toReceiver + {packet})
    requires Repairs(a) && Repairs(Arrive(packet, 0))
    requires BufferCall(Packet(packet.(incomingConn := 0))).Some?
    ensures Repair(ps, acts, more)
    ensures var s, s' := RunSystem(ps, acts), RunSystem(ps, more);
            var e := Apply(s.session.window, BufferCall(Packet(packet.(incomingConn := 0))).value);
            s'.session.window == e.window && forall p <- e.rtx :: p in s'.session.rtx && p in s'.session.timers
  {
    SystemStep(ps, acts, a);
    more := SentArrives(ps, acts + [a], packet);
    RepairTransitive(ps, acts, acts + [a], more);
  }

  /** The beacon for the last publication. */
  lemma {:induction false} BeaconSent(ps: Parties, acts: seq<Action>) returns (beacon: Message)
    requires 0 < |RunSystem(ps, acts).published| <= U32
    ensures var s := RunSystem(ps, acts);
            && IsBeacon(beacon) && beacon.id == |s.published| - 1
            && RunSystem(ps, acts + [SendBeacon]) == s.(toReceiver := s.toReceiver + {beacon})
  {
    var s := RunSystem(ps, acts);
    assert Numbered(s.published) by {
      RunKeepsInv(ps, acts);
    }
    SystemStep(ps, acts, SendBeacon);
    beacon := BeaconFor(ps.producer, s.published[0].dstType, ps.bidirectional, s.published[|s.published| - 1].id);
  }

  /** A beacon for the last publication is sent and arrives. */
  lemma {:induction false} BeaconArrives(ps: Parties, acts: seq<Action>) returns (more: seq<Action>)
    requires 0 < |RunSystem(ps, acts).published| <= U32
    ensures Repair(ps, acts, more)
    ensures var s, s' := RunSystem(ps, acts), RunSystem(ps, more);
            var e := Apply(s.session.window, Beacon(|s.published| - 1));
            s'.session.window == e.window && forall p <- e.rtx :: p in s'.session.rtx && p in s'.session.timers
  {
    var beacon := BeaconSent(ps, acts);
    more := SentArrives(ps, acts + [SendBeacon], beacon);
    RepairTransitive(ps, acts, acts + [SendBeacon], more);
  }

  /** The fate of a requested id as the producer decides it, when it answers at all. */
  function Answered(m: Message): Event {
    if m.error then Lost(m.id) else Recv(m)
  }

  /** The producer answers a pending request and the answer arrives. */
  lemma {:induction false} AnswerArrives(ps: Parties, acts: seq<Action>, p: nat)
    returns (more: seq<Action>, m: Message)
    requires var s := RunSystem(ps, acts);
             && |s.published| <= U32 && p in s.session.rtx && p < |s.published|
             && !(|s.published| <= p + BUFFER_CAPACITY && s.published[p].payload.None?)
    ensures Repair(ps, acts, more)
    ensures var s, s' := RunSystem(ps, acts), RunSystem(ps, more);
            && m.id == p && (m.error <==> p + BUFFER_CAPACITY < |s.published|)
            && s'.session.window == Apply(s.session.window, Answered(m)).window
  {
    var s := RunSystem(ps, acts);
    var request := s.session.rtx[p];
    assert Numbered(s.published) && request.id == p && request in s.toProducer by {
      RunKeepsInv(ps, acts);
      NeverStuck(ps.receiver, s.heard);
    }
    RunRoutes(ps, acts);
    AnswerMeaning(s.published, ps.producer, request.(incomingConn := 0));
    var reply := RtxAnswer(s.published, ps.producer, request.(incomingConn := 0)).value;
    m := reply.(incomingConn := 0);
    more := PacketArrives(ps, acts, AnswerRtx(request, 0), reply);
  }

  /** A running timer fires until its budget is used up. */
  lemma {:induction false} TimerRunsOut(ps: Parties, acts: seq<Action>, p: nat) returns (more: seq<Action>)
    requires |RunSystem(ps, acts).published| <= U32 && p in RunSystem(ps, acts).session.timers
    ensures Repaired(acts, more)
    ensures var s, s' := RunSystem(ps, acts), RunSystem(ps, more);
            && s' == s.(fires := s'.fires, callbacks := s'.callbacks)
            && OnFailure(p, ps.receiver.maxRetries + 1) in s'.callbacks
    decreases ps.receiver.maxRetries + 1 - Fired(RunSystem(ps, acts), p)
  {
    var s := RunSystem(ps, acts);
    if Fired(s, p) <= ps.receiver.maxRetries {
      SystemStep(ps, acts, TimerFires(p));
      more := TimerRunsOut(ps, acts + [TimerFires(p)], p);
      assert forall k :: |acts| < k < |more| ==> Repairs(more[k]);
      assert more[|acts|] == TimerFires(p);
    } else {
      RunKeepsInv(ps, acts);
      more := acts;
      assert CallNo(TimerFor(ps.receiver, p), None, ps.receiver.maxRetries) in s.callbacks;
    }
  }

  /** The timer of a publication that is never answered runs out and the receiver is told. */
  lemma {:induction false} TimerGivesUp(ps: Parties, acts: seq<Action>, p: nat) returns (more: seq<Action>)
    requires var s := RunSystem(ps, acts);
             && |s.published| <= U32 && p in s.session.timers && p < |s.published|
             && s.published[p].payload.None?
    ensures Repair(ps, acts, more)
    ensures RunSystem(ps, more).session.window == Apply(RunSystem(ps, acts).session.window, Lost(p)).window
  {
    var expired := TimerRunsOut(ps, acts, p);
    var callback := OnFailure(p, ps.receiver.maxRetries + 1);
    SystemStep(ps, expired, HandleTimer(callback));
    HearCall(ps, RunSystem(ps, expired), RtxFailure(p));
    more := expired + [HandleTimer(callback)];
  }

  /** One way or the other the fate of a pending id becomes known. */
  lemma {:induction false} FateArrives(ps: Parties, acts: seq<Action>, p: nat) returns (more: seq<Action>, e: Event)
    requires var s := RunSystem(ps, acts); |s.published| <= U32 && p in s.session.rtx
    ensures Repair(ps, acts, more)
    ensures var s, s' := RunSystem(ps, acts), RunSystem(ps, more);
            && !e.Beacon? && EventId(e) == p < |s.published|
            && s'.session.window == Apply(s.session.window, e).window
            && (|s.published| <= p + BUFFER_CAPACITY && s.published[p].payload.Some? ==> e.Recv?)
  {
    var s := RunSystem(ps, acts);
    RunKeepsInv(ps, acts);
    NeverStuck(ps.receiver, s.heard);
    if |s.published| <= p + BUFFER_CAPACITY && s.published[p].payload.None? {
      more := TimerGivesUp(ps, acts, p);
      e := Lost(p);
    } else {
      var m;
      more, m := AnswerArrives(ps, acts, p);
      e := Answered(m);
    }
  }

  // ------------------------------------------------------------- catching up

  /** Asking for publication `p` starts the receiver: with its payload, or with a loss marker for the first id. */
  predicate CanStart(s: System, p: nat) {
    p == 0 || (p < |s.published| <= p + BUFFER_CAPACITY && s.published[p].payload.Some?)
  }

  /**
   The receiver has started or has nothing to start with; or a payload was sent in reply
   to a request; or a beacon, sent before or to be sent now, names a publication that can
   start it.
   */
  ghost predicate Startable(s: System) {
    || s.session.window.started
    || s.published == []
    || CanStart(s, |s.published| - 1)
    || exists m <- s.toReceiver :: (m.header.RtxReply? && !m.error) || (IsBeacon(m) && CanStart(s, m.id))
  }

  /** A first message starts the receiver, and so does the loss of id 0. */
  lemma {:induction false} StartMoves(w: Window, e: Event)
    requires w.Settled() && !w.started && (e.Recv? || e == Lost(0))
    ensures w.next < Apply(w, e).window.next
  {
  }

  /** After a beacon for it, the fate of a publication that can start the receiver does. */
  lemma {:induction false} RequestStarts(ps: Parties, acts: seq<Action>, p: nat) returns (more: seq<Action>)
    requires |RunSystem(ps, acts).published| <= U32
    requires var s := RunSystem(ps, acts); !s.session.window.started && p in s.session.rtx && CanStart(s, p)
    ensures Repair(ps, acts, more)
    ensures RunSystem(ps, acts).session.window.next < RunSystem(ps, more).session.window.next
  {
    RunKeepsInv(ps, acts);
    var e;
    more, e := FateArrives(ps, acts, p);
    StartMoves(RunSystem(ps, acts).session.window, e);
  }

  /** A beacon that was sent at some time starts the receiver, if it names a publication that can. */
  lemma {:induction false} BeaconStarts(ps: Parties, acts: seq<Action>, beacon: Message) returns (more: seq<Action>)
    requires |RunSystem(ps, acts).published| <= U32 && !RunSystem(ps, acts).session.window.started
    requires var s := RunSystem(ps, acts); beacon in s.toReceiver && IsBeacon(beacon) && CanStart(s, beacon.id)
    ensures Repair(ps, acts, more)
    ensures RunSystem(ps, acts).session.window.next < RunSystem(ps, more).session.window.next
  {
    var after := SentArrives(ps, acts, beacon);
    assert beacon.id in Apply(RunSystem(ps, acts).session.window, Beacon(beacon.id)).rtx;
    more := RequestStarts(ps, after, beacon.id);
    RepairTransitive(ps, acts, after, more);
  }

  /** A receiver that has not started is started by a reply or a beacon. */
  lemma {:induction false} Starts(ps: Parties, acts: seq<Action>) returns (more: seq<Action>)
    requires |RunSystem(ps, acts).published| <= U32
    requires var s := RunSystem(ps, acts); !s.session.window.started && s.published != [] && Startable(s)
    ensures Repair(ps, acts, more)
    ensures RunSystem(ps, acts).session.window.next < RunSystem(ps, more).session.window.next
  {
    var s := RunSystem(ps, acts);
    if m :| m in s.toReceiver && m.header.RtxReply? && !m.error {
      RunKeepsInv(ps, acts);
      more := SentArrives(ps, acts, m);
      StartMoves(s.session.window, Recv(m.(incomingConn := 0)));
    } else if m :| m in s.toReceiver && IsBeacon(m) && CanStart(s, m.id) {
      more := BeaconStarts(ps, acts, m);
    } else {
      var beacon := BeaconSent(ps, acts);
      more := BeaconStarts(ps, acts + [SendBeacon], beacon);
      RepairTransitive(ps, acts, acts + [SendBeacon], more);
    }
  }

  /** With a hole at the front, its fate moves the window on. */
  lemma {:induction false} FrontRecovers(ps: Parties, acts: seq<Action>) returns (more: seq<Action>)
    requires |RunSystem(ps, acts).published| <= U32
    requires var w := RunSystem(ps, acts).session.window; w.next < w.high
    ensures Repair(ps, acts, more)
    ensures RunSystem(ps, acts).session.window.next < RunSystem(ps, more).session.window.next
  {
    var s := RunSystem(ps, acts);
    RunKeepsInv(ps, acts);
    NeverStuck(ps.receiver, s.heard);
    var e;
    more, e := FateArrives(ps, acts, s.session.window.next);
    FrontMoves(s.session.window, e);
  }

  /** With no hole, the receiver is started, or a beacon opens a hole or asks for the last publication directly. */
  lemma {:induction false} EmptyRecovers(ps: Parties, acts: seq<Action>) returns (more: seq<Action>)
    requires |RunSystem(ps, acts).published| <= U32 && Startable(RunSystem(ps, acts))
    requires var s := RunSystem(ps, acts); s.session.window.next == s.session.window.high < |s.published|
    ensures Repair(ps, acts, more)
    ensures RunSystem(ps, acts).session.window.next < RunSystem(ps, more).session.window.next
  {
    var s := RunSystem(ps, acts);
    var w, id := s.session.window, |s.published| - 1;
    RunKeepsInv(ps, acts);
    if !w.started {
      more := Starts(ps, acts);
    } else {
      var after := BeaconArrives(ps, acts);
      if id == w.next {
        assert id in Apply(w, Beacon(id)).rtx;
        var e;
        more, e := FateArrives(ps, after, id);
        FrontMoves(w, e);
      } else {
        more := FrontRecovers(ps, after);
      }
      RepairTransitive(ps, acts, after, more);
    }
  }

  /** The window reaches the last publication, entry by entry. */
  lemma {:induction false} ReachesEnd(ps: Parties, acts: seq<Action>) returns (more: seq<Action>)
    requires |RunSystem(ps, acts).published| <= U32 && Startable(RunSystem(ps, acts))
    ensures Repair(ps, acts, more)
    ensures RunSystem(ps, more).session.window.next == |RunSystem(ps, acts).published|
    decreases |RunSystem(ps, acts).published| - RunSystem(ps, acts).session.window.next
  {
    var s := RunSystem(ps, acts);
    var w := s.session.window;
    RunKeepsInv(ps, acts);
    if w.next == |s.published| {
      more := acts;
    } else {
      var step;
      if w.next < w.high {
        step := FrontRecovers(ps, acts);
      } else {
        step := EmptyRecovers(ps, acts);
      }
      RunKeepsInv(ps, step);
      more := ReachesEnd(ps, step);
      RepairTransitive(ps, acts, step, more);
    }
  }

  /** Publication `p` can still be had: it is retained, has a payload, and has not been given up. */
  ghost predicate Recoverable(s: System, p: int) {
    && 0 <= p < |s.published| && p < U32
    && |s.published| <= p + BUFFER_CAPACITY
    && s.published[p].payload.Some?
    && RtxFailure(p) !in s.heard
  }

  /** Every entry from the first one seen on is true, and what could be had was delivered with its payload. */
  ghost predicate CaughtUp(ps: Parties, s: System, s': System) {
    && Base(s') + |s'.seen| == |s.published|
    && Faithful(ps, s')
    && forall k :: 0 <= k < |s'.seen| && Recoverable(s, Base(s') + k) ==>
         s'.seen[k].Some? && s'.seen[k].value.payload == s.published[Base(s') + k].payload
  }

  /**
   Recovery: from every reachable state in which the receiver has started or can be
   started, there are repairing actions after which the application has been given an
   entry for every publication from its first one on.  Each publication that is still
   retained, has a payload and had not been given up before is among them with its payload.
   */
  lemma {:induction false} CatchUp(ps: Parties, acts: seq<Action>) returns (more: seq<Action>)
    requires |RunSystem(ps, acts).published| <= U32
    ensures Repair(ps, acts, more)
    ensures Startable(RunSystem(ps, acts)) ==> CaughtUp(ps, RunSystem(ps, acts), RunSystem(ps, more))
  {
    var s := RunSystem(ps, acts);
    if !Startable(s) {
      return acts;
    }
    more := ReachesEnd(ps, acts);
    EndToEnd(ps, more);
    var s' := RunSystem(ps, more);
    forall k | 0 <= k < |s'.seen| && Recoverable(s, Base(s') + k)
      ensures s'.seen[k].Some? && s'.seen[k].value.payload == s.published[Base(s') + k].payload
    {
      assert TrueEntry(ps, s', Base(s') + k, s'.seen[k]);
    }
  }

  // ----------------------------------------------- a start that cannot happen

  /** The ids named by beacons so far. */
  ghost function Announced(s: System): set<nat> {
    set m | m in s.toReceiver && IsBeacon(m) :: m.id as nat
  }

  /** A receiver that has not started has dealt with nothing but what a beacon announced. */
  ghost predicate OnlyAnnounced(s: System) {
    && s.session.window.Settled()
    && (!s.session.window.started ==>
          && s.session.window.lost <= Announced(s)
          && s.session.timers.Keys <= Announced(s)
          && (forall p <- s.session.rtx :: p in Announced(s) && s.session.rtx[p].id == p)
          && (forall m <- s.toProducer :: m.id in Announced(s))
          && (forall m <- s.toReceiver :: m.header.RtxReply? ==> m.id in Announced(s))
          && (forall c <- s.callbacks :: c.timerId in Announced(s)))
  }

  /** A call after which the receiver has still not started. */
  lemma {:induction false} NoStart(w: Window, e: Event)
    requires w.Settled() && !Apply(w, e).window.started
    ensures !w.started && !e.Recv?
    ensures e.Beacon? ==> Apply(w, e) == Effect(w, [], [e.id])
    ensures e.Lost? ==> Apply(w, e).rtx == [] && Apply(w, e).window.lost <= w.lost + {e.id}
  {
    CallState(w, e);
  }

  /** A packet that does not start the receiver leads to a request for its own id or to none. */
  lemma {:induction false} NoStartRequests(cfg: Config, s: Session, m: Message)
    requires s.window.Settled() && BufferCall(Packet(m)).Some?
    requires !Step(cfg, s, Packet(m)).session.window.started
    ensures var r := Step(cfg, s, Packet(m));
            && !s.window.started && (IsBeacon(m) || m.header.RtxReply?)
            && r.session.window.lost <= s.window.lost + {m.id}
            && r.session.timers.Keys <= s.timers.Keys + {m.id}
            && (forall p <- r.session.rtx ::
                  (p in s.rtx && r.session.rtx[p] == s.rtx[p]) || p == r.session.rtx[p].id == m.id)
            && (forall q <- r.toSlim :: q.id == m.id)
  {
    NoStart(s.window, BufferCall(Packet(m)).value);
    var ids := Apply(s.window, BufferCall(Packet(m)).value).rtx;
    if ids != [] {
      assert ids == [m.id as nat] && ids[..0] == [];
      assert Requests(cfg, m, ids) == [RequestFor(cfg, m, m.id)];
    }
  }

  lemma {:induction false} PacketAnnounced(ps: Parties, s: System, m: Message)
    requires OnlyAnnounced(s)
    requires !s.session.window.started && (IsBeacon(m) || m.header.RtxReply?) ==> m.id in Announced(s)
    ensures OnlyAnnounced(Hear(ps, s, Packet(m)))
  {
    var s' := Hear(ps, s, Packet(m));
    assert Announced(s') == Announced(s);
    if BufferCall(Packet(m)).Some? {
      ApplySettles(s.session.window, BufferCall(Packet(m)).value);
      if !s'.session.window.started {
        NoStartRequests(ps.receiver, s.session, m);
      }
    }
  }

  lemma {:induction false} TimerAnnounced(ps: Parties, s: System, i: Input)
    requires OnlyAnnounced(s) && !i.Packet?
    requires !s.session.window.started && i.RtxFailure? ==> i.id in Announced(s)
    ensures OnlyAnnounced(Hear(ps, s, i))
  {
    var s' := Hear(ps, s, i);
    assert Announced(s') == Announced(s);
    if i.RtxFailure? {
      ApplySettles(s.session.window, Lost(i.id));
      if !s'.session.window.started {
        NoStart(s.session.window, Lost(i.id));
      }
    }
  }

  lemma {:induction false} NextAnnounced(ps: Parties, s: System, a: Action)
    requires OnlyAnnounced(s)
    ensures OnlyAnnounced(Next(ps, s, a))
  {
    if Enabled(ps, s, a) {
      var s' := Next(ps, s, a);
      match a
      case Arrive(packet, conn) =>
        assert IsBeacon(packet) ==> packet.id in Announced(s);
        PacketAnnounced(ps, s, packet.(incomingConn := conn));
      case HandleTimer(callback) =>
        if TimerInput(callback).Some? {
          TimerAnnounced(ps, s, TimerInput(callback).value);
        }
      case _ =>
        assert s.toReceiver <= s'.toReceiver;
        assert Announced(s) <= Announced(s');
    }
  }

  lemma {:induction false} RunAnnounced(ps: Parties, acts: seq<Action>)
    ensures OnlyAnnounced(RunSystem(ps, acts))
  {
    if acts != [] {
      RunAnnounced(ps, acts[..|acts| - 1]);
      NextAnnounced(ps, RunSystem(ps, acts[..|acts| - 1]), acts[|acts| - 1]);
    }
  }

  /** Nothing that a receiver hears of starts it, when nothing announced can. */
  lemma {:induction false} HearNoStart(ps: Parties, s: System, i: Input)
    requires !Startable(s) && OnlyAnnounced(s)
    requires match i
             case Packet(m) => (IsBeacon(m) || (m.header.RtxReply? && m.error)) && m.id in Announced(s)
             case RtxTimeout(p) => true
             case RtxFailure(p) => p in Announced(s)
    ensures !Startable(Hear(ps, s, i))
  {
    var w := s.session.window;
    assert 0 !in Announced(s);
    if BufferCall(i).Some? && BufferCall(i).value.Lost? {
      assert w.Declare({EventId(BufferCall(i).value)}).Head().None?;
    }
  }

  /** One more packet that does not help does not help. */
  lemma {:induction false} SendNoStart(s: System, m: Message)
    requires !Startable(s) && (IsBeacon(m) ==> !CanStart(s, m.id)) && (m.header.RtxReply? ==> m.error)
    ensures !Startable(s.(toReceiver := s.toReceiver + {m}))
  {
  }

  lemma {:induction false} AnswerNoStart(ps: Parties, s: System, request: Message, conn: nat)
    requires !Startable(s) && OnlyAnnounced(s) && Numbered(s.published) && |s.published| <= U32
    requires request in s.toProducer && request.id < |s.published|
    ensures !Startable(Next(ps, s, AnswerRtx(request, conn)))
  {
    var answer := RtxAnswer(s.published, ps.producer, request.(incomingConn := conn));
    AnswerMeaning(s.published, ps.producer, request.(incomingConn := conn));
    if answer.Some? {
      assert request.id in Announced(s);
      SendNoStart(s, answer.value);
    }
  }

  lemma {:induction false} BeaconNoStart(ps: Parties, s: System)
    requires !Startable(s) && Numbered(s.published) && |s.published| <= U32
    ensures !Startable(Next(ps, s, SendBeacon))
  {
    var last := s.published[|s.published| - 1];
    assert last.id == |s.published| - 1;
    SendNoStart(s, BeaconFor(ps.producer, s.published[0].dstType, ps.bidirectional, last.id));
  }

  lemma {:induction false} ArriveNoStart(ps: Parties, s: System, packet: Message, conn: nat)
    requires !Startable(s) && OnlyAnnounced(s)
    requires packet in s.toReceiver && Repairs(Arrive(packet, conn))
    ensures !Startable(Next(ps, s, Arrive(packet, conn)))
  {
    assert packet.id in Announced(s);
    HearNoStart(ps, s, Packet(packet.(incomingConn := conn)));
  }

  lemma {:induction false} CallbackNoStart(ps: Parties, s: System, callback: Callback)
    requires !Startable(s) && OnlyAnnounced(s) && callback in s.callbacks
    ensures !Startable(Next(ps, s, HandleTimer(callback)))
  {
    assert callback.timerId in Announced(s);
    if TimerInput(callback).Some? {
      HearNoStart(ps, s, TimerInput(callback).value);
    }
  }

  lemma {:induction false} FireNoStart(ps: Parties, s: System, id: nat)
    requires !Startable(s) && Enabled(ps, s, TimerFires(id))
    ensures !Startable(Next(ps, s, TimerFires(id)))
  {
    assert Next(ps, s, TimerFires(id)).toReceiver == s.toReceiver;
  }

  lemma {:induction false} RepairNoStart(ps: Parties, s: System, a: Action)
    requires !Startable(s) && OnlyAnnounced(s) && NetInv(s) && |s.published| <= U32
    requires Enabled(ps, s, a) && Repairs(a)
    ensures !Startable(Next(ps, s, a))
  {
    match a
    case AnswerRtx(request, conn) => AnswerNoStart(ps, s, request, conn);
    case SendBeacon => BeaconNoStart(ps, s);
    case Arrive(packet, conn) => ArriveNoStart(ps, s, packet, conn);
    case TimerFires(id) => FireNoStart(ps, s, id);
    case HandleTimer(callback) => CallbackNoStart(ps, s, callback);
  }

  lemma {:induction false} NeverStarts(ps: Parties, acts: seq<Action>, more: seq<Action>)
    requires Repaired(acts, more) && |RunSystem(ps, acts).published| <= U32 && !Startable(RunSystem(ps, acts))
    ensures !Startable(RunSystem(ps, more)) && RunSystem(ps, more).published == RunSystem(ps, acts).published
    decreases |more|
  {
    if more != acts {
      var n := |more| - 1;
      NeverStarts(ps, acts, more[..n]);
      RunKeepsInv(ps, more[..n]);
      RunAnnounced(ps, more[..n]);
      if Enabled(ps, RunSystem(ps, more[..n]), more[n]) {
        RepairNoStart(ps, RunSystem(ps, more[..n]), more[n]);
      }
    } else {
      assert more == acts;
    }
  }

  /**
   The condition of recovery is exact: from every reachable state, repairing actions can
   bring the application up to date if and only if the receiver has started or can be
   started.  A publication without a payload is retained, but a request for it is never
   answered, so it cannot start a receiver unless it is the very first one.
   */
  lemma {:induction false} CatchUpIff(ps: Parties, acts: seq<Action>)
    requires |RunSystem(ps, acts).published| <= U32
    ensures Startable(RunSystem(ps, acts)) <==>
            exists more :: Repair(ps, acts, more) && CaughtUp(ps, RunSystem(ps, acts), RunSystem(ps, more))
  {
    var s := RunSystem(ps, acts);
    if Startable(s) {
      var more := CatchUp(ps, acts);
    } else {
      forall more | Repair(ps, acts, more)
        ensures !CaughtUp(ps, s, RunSystem(ps, more))
      {
        NeverStarts(ps, acts, more);
        RunKeepsInv(ps, more);
      }
    }
  }

  /** So far the producer has only published. */
  lemma {:induction false} OnlyPublished(ps: Parties, acts: seq<Action>)
    requires forall a <- acts :: a.Publish?
    ensures var s := RunSystem(ps, acts);
            && s == START.(published := s.published, toReceiver := s.toReceiver)
            && forall m <- s.toReceiver :: m.header.Stream? || m.header.PubSub?
  {
    if acts != [] {
      OnlyPublished(ps, acts[..|acts| - 1]);
    }
  }

  /** For a receiver that joins after any publications, none of which reaches it, the last one decides. */
  lemma {:induction false} LateJoinerIff(ps: Parties, acts: seq<Action>)
    requires (forall a <- acts :: a.Publish?) && |RunSystem(ps, acts).published| <= U32
    ensures var published := RunSystem(ps, acts).published;
            |published| <= 1 || published[|published| - 1].payload.Some? <==>
            exists more :: Repair(ps, acts, more) && CaughtUp(ps, RunSystem(ps, acts), RunSystem(ps, more))
  {
    OnlyPublished(ps, acts);
    CatchUpIff(ps, acts);
  }
}
