/**
 The processor of a fire-and-forget session, which updates its state in place.
 Each handler is proved to do what `FireAndForget.Step` says.
 */
module FireAndForgetProcessors {
  import opened Messages
  import opened Timers
  import opened FireAndForget

  class FireAndForgetProcessor {
    const source: Agent
    var config: Config
    var timers: map<nat, Pending>
    var stickyName: Option<Agent>
    var stickyConnection: Option<nat>
    var stickySessionStatus: Status
    var stickyBuffer: seq<Message>

    ghost function Abs(): State
      reads this
    {
      State(source, config, timers, stickyName, stickyConnection, stickySessionStatus, stickyBuffer)
    }

    constructor (source: Agent, config: Config)
      ensures Abs() == Initial(source, config) && BindingInv(Abs())
    {
      this.source := source;
      this.config := config;
      timers := map[];
      stickyName, stickyConnection := None, None;
      stickySessionStatus := Uninitialized;
      stickyBuffer := [];
    }

    method SendMessage(message: Message, messageId: MsgId) returns (toSlim: seq<Message>)
      modifies this
      ensures Out(Abs(), toSlim, [], toSlim) == Send(old(Abs()), message, messageId)
    {
      var m := message.(id := messageId);
      if stickyName.Some? {
        var name := stickyName.value;
        m := m.(dstType := name.agentType, dstId := OptionalId(name.agentId));
        m := m.(forwardTo := stickyConnection);
      }
      if config.timeout.Some? {
        var timer := Timer(m.id, Constant, config.timeout.value, None, config.maxRetries);
        timers := timers[m.id := Pending(timer, m)];
      }
      toSlim := [m];
    }

    /** The arm for an established session without a name is never reached. */
    method HandleMessageToSlim(message: Message, messageId: MsgId)
      returns (toSlim: seq<Message>, ghost numbered: seq<Message>)
      requires BindingInv(Abs())
      modifies this
      ensures BindingInv(Abs())
      ensures Out(Abs(), toSlim, [], numbered) == Step(old(Abs()), FromApp(message, messageId))
    {
      BindingKept(Abs(), FromApp(message, messageId));
      var m := message.(header := if config.timeout.Some? then FnfReliable else Fnf);
      toSlim, numbered := [], [];
      if config.sticky {
        if stickyName.Some? {
          var name := stickyName.value;
          m := m.(dstType := name.agentType, dstId := OptionalId(name.agentId), forwardTo := stickyConnection);
        } else {
          match stickySessionStatus {
            case Uninitialized =>
              toSlim := StartStickySessionDiscovery(m.dstType, m);
              stickyBuffer := stickyBuffer + [m];
            case Discovering =>
              stickyBuffer := stickyBuffer + [m];
            case Established =>
              assert false;
          }
          return;
        }
      }
      toSlim := SendMessage(m, messageId);
      numbered := toSlim;
    }

    /** Begin the discovery that `cause` has to wait for. */
    method StartStickySessionDiscovery(agentType: nat, ghost cause: Message) returns (toSlim: seq<Message>)
      requires cause.dstType == agentType
      modifies this`stickySessionStatus
      ensures Abs() == old(Abs()).(status := Discovering)
      ensures toSlim == [Probe(old(Abs()), cause)]
    {
      stickySessionStatus := Discovering;
      toSlim := [Message(source, agentType, None, FnfDiscovery, 0, Some([]), false, 0, None)];
    }

    method HandleMessageToApp(message: Message, ids: seq<MsgId>)
      returns (toSlim: seq<Message>, toApp: seq<AppItem>, ghost numbered: seq<Message>)
      requires BindingInv(Abs())
      modifies this
      ensures BindingInv(Abs())
      ensures Out(Abs(), toSlim, toApp, numbered) == Step(old(Abs()), FromSlim(message, ids))
    {
      BindingKept(Abs(), FromSlim(message, ids));
      toSlim, toApp, numbered := [], [], [];
      if config.sticky && stickyName.Some? && stickyName.value != message.source {
        return;
      }
      match message.header {
        case Fnf =>
          toApp := [Deliver(message)];
        case FnfReliable =>
          toSlim := [Message(source, message.source.agentType, Some(message.source.agentId), FnfAck, message.id,
                             Some([]), false, 0, Some(message.incomingConn))];
          toApp := [Deliver(message)];
        case FnfAck =>
          timers := timers - {message.id};
        case FnfDiscovery =>
          toSlim := HandleStickySessionDiscovery(message, ids);
          numbered := toSlim;
        case FnfDiscoveryReply =>
          toSlim := HandleStickySessionDiscoveryReply(message, ids);
          numbered := toSlim;
        case _ =>
      }
    }

    method HandleStickySessionDiscovery(message: Message, ids: seq<MsgId>) returns (toSlim: seq<Message>)
      modifies this
      ensures Out(Abs(), toSlim, [], toSlim) ==
              Send(Bind(old(Abs()), message), DiscoveryReply(old(Abs()), message), IdAt(ids, 0))
    {
      var reply := Message(source, message.source.agentType, Some(message.source.agentId), FnfDiscoveryReply, 0,
                           Some([]), false, 0, Some(message.incomingConn));
      stickyName, stickyConnection := Some(message.source), Some(message.incomingConn);
      stickySessionStatus := Established;
      toSlim := SendMessage(reply, IdAt(ids, 0));
    }

    /** Bind to the peer and send what has been waiting, in order. */
    method HandleStickySessionDiscoveryReply(message: Message, ids: seq<MsgId>) returns (toSlim: seq<Message>)
      modifies this
      ensures Out(Abs(), toSlim, [], toSlim) ==
              if old(Abs()).status.Discovering?
              then SendAll(Bind(old(Abs()), message).(buffer := []), old(Abs()).buffer, ids)
              else Nothing(old(Abs()))
    {
      toSlim := [];
      if stickySessionStatus != Discovering {
        return;
      }
      stickyName, stickyConnection := Some(message.source), Some(message.incomingConn);
      stickySessionStatus := Established;
      var messages := stickyBuffer;
      stickyBuffer := [];
      ghost var bound := Abs();
      for k := 0 to |messages|
        invariant Out(Abs(), toSlim, [], toSlim) == SendAll(bound, messages[..k], ids)
      {
        SendAllStep(bound, messages, ids, k);
        var sent := SendMessage(messages[k], IdAt(ids, k));
        toSlim := toSlim + sent;
      }
      assert messages[..|messages|] == messages;
    }

    method ApplyConfig(newConfig: Config)
      modifies this`config
      ensures Abs() == Step(old(Abs()), SetConfig(newConfig)).state
    {
      config := newConfig;
    }

    method HandleTimerTimeout(messageId: MsgId) returns (toSlim: seq<Message>)
      ensures Out(Abs(), toSlim, [], []) == Step(Abs(), TimerTimeout(messageId))
    {
      toSlim := if messageId in timers then [timers[messageId].msg] else [];
    }

    method HandleTimerFailure(messageId: MsgId) returns (toApp: seq<AppItem>)
      modifies this
      ensures Out(Abs(), [], toApp, []) == Step(old(Abs()), TimerFailure(messageId))
    {
      toApp := [];
      if messageId in timers {
        var message := timers[messageId].msg;
        timers := timers - {messageId};
        toApp := [TimeoutError(messageId, message)];
      }
    }
  }
}
