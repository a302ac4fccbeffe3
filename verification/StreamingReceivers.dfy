/**
 The receiver endpoint of a streaming session: one receive buffer, request map
 and timer map per producer, updated in place by packets and timer events.
 */
module StreamingReceivers {
  import opened Messages
  import opened ReorderWindow
  import opened WindowRuns
  import opened ReceiverBuffers
  import opened ReceiverSessions
  import opened Timers

  class Receiver {
    const buffer: ReceiverBuffer
    var rtxMap: map<nat, Message>
    var timersMap: map<nat, Timer>
    ghost var state: Session  // the session these fields stand for

    ghost predicate Valid()
      reads this, buffer
    {
      buffer.Valid() && rtxMap.Keys == timersMap.Keys && state == Session(buffer.Abs(), rtxMap, timersMap)
    }

    constructor ()
      ensures Valid() && fresh(buffer) && state == NEW_SESSION
    {
      buffer := new ReceiverBuffer();
      rtxMap, timersMap, state := map[], map[], NEW_SESSION;
    }

    method ProcessMessage(cfg: Config, msg: Message) returns (toApp: seq<Option<Message>>, toSlim: seq<Message>)
      requires Valid()
      modifies this, buffer
      ensures Valid()
      ensures Reaction(state, toApp, toSlim) == Step(cfg, old(state), Packet(msg))
    {
      var rtx, handled;
      toApp, rtx, handled := UpdateBuffer(msg);
      if handled {
        toSlim := SendRtx(cfg, msg, rtx);
      } else {
        toSlim := [];
      }
      state := Session(buffer.Abs(), rtxMap, timersMap);
    }

    /** Pass the packet to the buffer; a reply also settles its own request. */
    method UpdateBuffer(msg: Message) returns (toApp: seq<Option<Message>>, rtx: seq<MsgId>, handled: bool)
      requires Valid()
      modifies this`rtxMap, this`timersMap, buffer
      ensures buffer.Valid() && rtxMap.Keys == timersMap.Keys
      ensures handled == BufferCall(Packet(msg)).Some?
      ensures if handled
              then Effect(buffer.Abs(), toApp, rtx) == Apply(old(buffer.Abs()), BufferCall(Packet(msg)).value)
              else buffer.Abs() == old(buffer.Abs()) && toApp == []
      ensures rtxMap == old(rtxMap) - Forgotten(Packet(msg))
      ensures timersMap == old(timersMap) - Forgotten(Packet(msg))
    {
      toApp, rtx, handled := [], [], true;
      assert rtxMap - {} == rtxMap && timersMap - {} == timersMap;
      match msg.header {
        case Stream | PubSub =>
          toApp, rtx := buffer.OnReceivedMessage(msg);
        case RtxReply =>
          toApp, rtx := UpdateByReply(msg);
        case BeaconStream | BeaconPubSub =>
          rtx := buffer.OnBeaconMessage(msg.id);
        case _ =>
          handled := false;
      }
    }

    /** A reply brings the message or declares it lost. */
    method UpdateByReply(msg: Message) returns (toApp: seq<Option<Message>>, rtx: seq<MsgId>)
      requires Valid() && msg.header.RtxReply?
      modifies this`rtxMap, this`timersMap, buffer
      ensures buffer.Valid() && rtxMap.Keys == timersMap.Keys
      ensures Effect(buffer.Abs(), toApp, rtx) == Apply(old(buffer.Abs()), BufferCall(Packet(msg)).value)
      ensures rtxMap == old(rtxMap) - {msg.id} && timersMap == old(timersMap) - {msg.id}
    {
      rtx := [];
      if msg.error {
        toApp := buffer.OnLostMessage(msg.id);
      } else {
        toApp, rtx := buffer.OnReceivedMessage(msg);
      }
      Settle(msg.id);
    }

    /** Drop the request, and its timer if there is one. */
    method Settle(id: MsgId)
      requires rtxMap.Keys == timersMap.Keys
      modifies this`rtxMap, this`timersMap
      ensures rtxMap == old(rtxMap) - {id} && timersMap == old(timersMap) - {id}
      ensures rtxMap.Keys == timersMap.Keys
    {
      if id in timersMap {
        timersMap := timersMap - {id};
      }
      rtxMap := rtxMap - {id};
    }

    /** Request every missing id and start its timer. */
    method SendRtx(cfg: Config, msg: Message, rtx: seq<MsgId>) returns (toSlim: seq<Message>)
      requires rtxMap.Keys == timersMap.Keys
      modifies this`rtxMap, this`timersMap
      ensures rtxMap.Keys == timersMap.Keys
      ensures rtxMap == Requested(old(rtxMap), cfg, msg, rtx)
      ensures timersMap == Timed(old(timersMap), cfg, rtx)
      ensures toSlim == Requests(cfg, msg, rtx)
    {
      toSlim := [];
      for k := 0 to |rtx|
        invariant rtxMap.Keys == timersMap.Keys
        invariant rtxMap == Requested(old(rtxMap), cfg, msg, rtx[..k])
        invariant timersMap == Timed(old(timersMap), cfg, rtx[..k])
        invariant toSlim == Requests(cfg, msg, rtx[..k])
      {
        var r := rtx[k];
        assert rtx[..k + 1][..k] == rtx[..k];
        rtxMap := rtxMap[r := RequestFor(cfg, msg, r)];
        timersMap := timersMap[r := TimerFor(cfg, r)];
        toSlim := toSlim + [RequestFor(cfg, msg, r)];
      }
      assert rtx[..|rtx|] == rtx;
    }

    method HandleRtxTimeout(cfg: Config, msgId: MsgId) returns (toSlim: seq<Message>)
      requires Valid()
      ensures Reaction(state, [], toSlim) == Step(cfg, state, RtxTimeout(msgId))
    {
      if msgId in rtxMap {
        toSlim := [rtxMap[msgId]];
      } else {
        // no request stored, so no timer either: there is nothing to stop
        assert msgId !in timersMap;
        toSlim := [];
      }
    }

    method HandleRtxFailure(cfg: Config, msgId: MsgId) returns (toApp: seq<Option<Message>>)
      requires Valid()
      modifies this, buffer
      ensures Valid()
      ensures Reaction(state, toApp, []) == Step(cfg, old(state), RtxFailure(msgId))
    {
      rtxMap := rtxMap - {msgId};
      timersMap := timersMap - {msgId};
      toApp := buffer.OnLostMessage(msgId);
      state := Session(buffer.Abs(), rtxMap, timersMap);
    }
  }

  class ReceiverState {
    var buffers: map<Agent, Receiver>

    ghost function Buffers(): set<ReceiverBuffer>
      reads this
    {
      set a <- buffers :: buffers[a].buffer
    }

    ghost predicate Valid()
      reads this, buffers.Values, Buffers()
    {
      && (forall a <- buffers :: buffers[a].Valid())
      && (forall a, b :: a in buffers && b in buffers && a != b ==>
            buffers[a] != buffers[b] && buffers[a].buffer != buffers[b].buffer)
    }

    /** The session kept for a producer, fresh if the producer is unknown. */
    ghost function Of(producer: Agent): Session
      reads this, buffers.Values
    {
      if producer in buffers then buffers[producer].state else NEW_SESSION
    }

    /** A further producer leaves the sessions of the others alone. */
    twostate lemma OthersKept(producer: Agent, new state: Receiver)
      requires buffers == old(buffers)[producer := state] && state.state == NEW_SESSION && producer !in old(buffers)
      requires forall a <- old(buffers) :: unchanged(old(buffers)[a])
      ensures forall a :: Of(a) == old(Of(a))
    {
    }

    /** The objects that belong to one producer. */
    ghost function Footprint(producer: Agent): set<object>
      reads this
    {
      if producer in buffers then {buffers[producer], buffers[producer].buffer} else {}
    }

    constructor ()
      ensures Valid() && buffers == map[]
    {
      buffers := map[];
    }

    /** The state of an unknown producer is created by its first packet, whatever its type. */
    method ProcessMessageFromSlim(cfg: Config, msg: Message) returns (toApp: seq<Option<Message>>, toSlim: seq<Message>)
      requires Valid()
      modifies this, Footprint(msg.source)
      ensures Valid() && buffers.Keys == old(buffers).Keys + {msg.source}
      ensures Reaction(Of(msg.source), toApp, toSlim) == Step(cfg, old(Of(msg.source)), Packet(msg))
      ensures forall a <- old(buffers) :: a != msg.source ==> Of(a) == old(Of(a))
    {
      if msg.source !in buffers {
        var state := AddProducer(msg.source);
        OthersKept(msg.source, state);
      }
      toApp, toSlim := Deliver(cfg, msg);
    }

    method Deliver(cfg: Config, msg: Message) returns (toApp: seq<Option<Message>>, toSlim: seq<Message>)
      requires Valid() && msg.source in buffers
      modifies Footprint(msg.source)
      ensures Valid() && buffers == old(buffers)
      ensures Reaction(Of(msg.source), toApp, toSlim) == Step(cfg, old(Of(msg.source)), Packet(msg))
      ensures forall a <- buffers :: a != msg.source ==> Of(a) == old(Of(a))
    {
      toApp, toSlim := buffers[msg.source].ProcessMessage(cfg, msg);
    }

    method AddProducer(producer: Agent) returns (state: Receiver)
      requires Valid() && producer !in buffers
      modifies this
      ensures Valid() && buffers == old(buffers)[producer := state]
      ensures fresh(state) && fresh(state.buffer) && state.state == NEW_SESSION
    {
      state := new Receiver();
      buffers := buffers[producer := state];
    }

    method HandleRtxTimeout(cfg: Config, producer: Agent, msgId: MsgId) returns (toSlim: seq<Message>)
      requires Valid()
      ensures toSlim == Step(cfg, Of(producer), RtxTimeout(msgId)).toSlim
    {
      if producer !in buffers {
        return [];
      }
      toSlim := buffers[producer].HandleRtxTimeout(cfg, msgId);
    }

    method HandleRtxFailure(cfg: Config, producer: Agent, msgId: MsgId) returns (toApp: seq<Option<Message>>)
      requires Valid()
      modifies Footprint(producer)
      ensures Valid()
      ensures producer in buffers ==>
                Reaction(Of(producer), toApp, []) == Step(cfg, old(Of(producer)), RtxFailure(msgId))
      ensures producer !in buffers ==> toApp == []
      ensures forall a <- buffers :: a != producer ==> Of(a) == old(Of(a))
    {
      if producer !in buffers {
        return [];
      }
      toApp := buffers[producer].HandleRtxFailure(cfg, msgId);
    }
  }
}
