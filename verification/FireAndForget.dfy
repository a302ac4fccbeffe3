/**
 The fire-and-forget session: optional reliability (acknowledgements and a
 retry timer per message) and optional stickiness (discovery of one peer to
 which all messages are then bound).
 */
module FireAndForget {
  import opened Messages
  import opened Timers

  datatype Config = Config(timeout: Option<nat>, maxRetries: Option<nat>, sticky: bool)

  datatype Status = Uninitialized | Discovering | Established

  datatype Pending = Pending(timer: Timer, msg: Message)

  datatype State = State(
    me: Agent,
    config: Config,
    timers: map<nat, Pending>,
    name: Option<Agent>,
    conn: Option<nat>,
    status: Status,
    buffer: seq<Message>)

  datatype Input =
    | FromApp(msg: Message, id: MsgId)          // with the random id drawn for it
    | FromSlim(msg: Message, ids: seq<MsgId>)   // with the random ids drawn while handling it
    | SetConfig(config: Config)
    | TimerTimeout(id: MsgId)
    | TimerFailure(id: MsgId)

  datatype AppItem = Deliver(msg: Message) | TimeoutError(id: nat, msg: Message)

  /** The new state, the messages sent to the network and to the application, and
      those of the former that were given an id of their own by `send_message`. */
  datatype Out = Out(state: State, toSlim: seq<Message>, toApp: seq<AppItem>, numbered: seq<Message>)

  function Initial(me: Agent, config: Config): State {
    State(me, config, map[], None, None, Uninitialized, [])
  }

  function Nothing(s: State): Out {
    Out(s, [], [], [])
  }

  /** Direct a message to the bound peer, if there is one. */
  function Addressed(s: State, m: Message): Message {
    if s.name.Some? then
      m.(dstType := s.name.value.agentType, dstId := OptionalId(s.name.value.agentId), forwardTo := s.conn)
    else m
  }

  function Send(s: State, m: Message, id: MsgId): Out {
    var sent := Addressed(s, m.(id := id));
    var timers :=
      if s.config.timeout.Some? then
        s.timers[id := Pending(Timer(id, Constant, s.config.timeout.value, None, s.config.maxRetries), sent)]
      else s.timers;
    Out(s.(timers := timers), [sent], [], [sent])
  }

  function IdAt(ids: seq<MsgId>, k: nat): MsgId {
    if k < |ids| then ids[k] else 0
  }

  /** Send the messages one after the other. */
  function SendAll(s: State, ms: seq<Message>, ids: seq<MsgId>): Out {
    if ms == [] then Nothing(s)
    else
      var n := |ms| - 1;
      var before := SendAll(s, ms[..n], ids);
      var last := Send(before.state, ms[n], IdAt(ids, n));
      Out(last.state, before.toSlim + last.toSlim, [], before.numbered + last.numbered)
  }

  lemma SendAllStep(s: State, ms: seq<Message>, ids: seq<MsgId>, k: nat)
    requires k < |ms|
    ensures var before := SendAll(s, ms[..k], ids);
            var last := Send(before.state, ms[k], IdAt(ids, k));
            SendAll(s, ms[..k + 1], ids) ==
            Out(last.state, before.toSlim + last.toSlim, [], before.numbered + last.numbered)
  {
    assert ms[..k + 1][..k] == ms[..k];
  }

  function WithType(s: State, m: Message): Message {
    m.(header := if s.config.timeout.Some? then FnfReliable else Fnf)
  }

  function Probe(s: State, m: Message): Message {
    Message(s.me, m.dstType, None, FnfDiscovery, 0, Some([]), false, 0, None)
  }

  function MessageToSlim(s: State, msg: Message, id: MsgId): Out {
    var m := WithType(s, msg);
    if s.config.sticky && s.name.None? then
      match s.status
      case Uninitialized =>
        Out(s.(status := Discovering, buffer := s.buffer + [m]), [Probe(s, m)], [], [])
      case Established => Nothing(s)
      case Discovering => Nothing(s.(buffer := s.buffer + [m]))
    else
      Send(s, m, id)
  }

  function Ack(s: State, m: Message): Message {
    Message(s.me, m.source.agentType, Some(m.source.agentId), FnfAck, m.id, Some([]), false, 0, Some(m.incomingConn))
  }

  function DiscoveryReply(s: State, m: Message): Message {
    Message(s.me, m.source.agentType, Some(m.source.agentId), FnfDiscoveryReply, 0, Some([]), false, 0, Some(m.incomingConn))
  }

  function Bind(s: State, m: Message): State {
    s.(name := Some(m.source), conn := Some(m.incomingConn), status := Established)
  }

  /** A sticky session drops what does not come from the peer it is bound to. */
  predicate FromStranger(s: State, m: Message) {
    s.config.sticky && s.name.Some? && s.name.value != m.source
  }

  function MessageToApp(s: State, m: Message, ids: seq<MsgId>): Out {
    if FromStranger(s, m) then Nothing(s)
    else
      match m.header
      case Fnf => Out(s, [], [Deliver(m)], [])
      case FnfReliable => Out(s, [Ack(s, m)], [Deliver(m)], [])
      case FnfAck => Nothing(s.(timers := s.timers - {m.id}))
      case FnfDiscovery => Send(Bind(s, m), DiscoveryReply(s, m), IdAt(ids, 0))
      case FnfDiscoveryReply =>
        if s.status.Discovering? then SendAll(Bind(s, m).(buffer := []), s.buffer, ids) else Nothing(s)
      case _ => Nothing(s)
  }

  function Step(s: State, i: Input): Out {
    match i
    case FromApp(msg, id) => MessageToSlim(s, msg, id)
    case FromSlim(msg, ids) => MessageToApp(s, msg, ids)
    case SetConfig(config) => Nothing(s.(config := config))
    case TimerTimeout(id) => if id in s.timers then Out(s, [s.timers[id].msg], [], []) else Nothing(s)
    case TimerFailure(id) =>
      if id in s.timers then Out(s.(timers := s.timers - {id}), [], [TimeoutError(id, s.timers[id].msg)], [])
      else Nothing(s)
  }

  /** Sending a row of messages changes nothing but the timers, and sends each message once, in order. */
  lemma {:induction false} SendAllShape(s: State, ms: seq<Message>, ids: seq<MsgId>)
    ensures var r := SendAll(s, ms, ids);
            && r.state == s.(timers := r.state.timers)
            && r.toSlim == r.numbered && |r.numbered| == |ms| && r.toApp == []
            && (forall k :: 0 <= k < |ms| ==> r.numbered[k] == Addressed(s, ms[k].(id := IdAt(ids, k))))
  {
    if ms != [] {
      SendAllShape(s, ms[..|ms| - 1], ids);
    }
  }

  // ----------------------------------------------------- the sticky binding

  /** Established, bound name and bound connection always come together. */
  ghost predicate BindingInv(s: State) {
    (s.status.Established? <==> s.name.Some?) && (s.name.Some? <==> s.conn.Some?)
  }

  lemma {:induction false} BindingKept(s: State, i: Input)
    requires BindingInv(s)
    ensures BindingInv(Step(s, i).state)
  {
    if i.FromSlim? {
      SendAllShape(Bind(s, i.msg).(buffer := []), s.buffer, i.ids);
    }
  }

  /** A bound name is replaced exactly when a non-sticky session is discovered by someone else. */
  lemma {:induction false} RebindingIff(s: State, i: Input)
    requires BindingInv(s) && s.name.Some?
    ensures Step(s, i).state.name != s.name <==>
            (!s.config.sticky && i.FromSlim? && i.msg.header.FnfDiscovery? && i.msg.source != s.name.value)
  {
  }

  function RunFnf(s: State, ins: seq<Input>): State {
    if ins == [] then s else Step(RunFnf(s, ins[..|ins| - 1]), ins[|ins| - 1]).state
  }

  /** Over every run of a session: the binding fields agree. */
  lemma {:induction false} BindingAlways(me: Agent, config: Config, ins: seq<Input>)
    ensures BindingInv(RunFnf(Initial(me, config), ins))
  {
    if ins != [] {
      BindingAlways(me, config, ins[..|ins| - 1]);
      BindingKept(RunFnf(Initial(me, config), ins[..|ins| - 1]), ins[|ins| - 1]);
    }
  }

  predicate StaysSticky(i: Input) {
    i.SetConfig? ==> i.config.sticky
  }

  /** While the configuration stays sticky, the bound name never changes again. */
  lemma {:induction false} BoundForGood(s: State, ins: seq<Input>)
    requires BindingInv(s) && s.name.Some? && s.config.sticky && forall i <- ins :: StaysSticky(i)
    ensures RunFnf(s, ins).name == s.name && RunFnf(s, ins).config.sticky && BindingInv(RunFnf(s, ins))
  {
    if ins != [] {
      var n := |ins| - 1;
      BoundForGood(s, ins[..n]);
      var t := RunFnf(s, ins[..n]);
      RebindingIff(t, ins[n]);
      BindingKept(t, ins[n]);
      assert StaysSticky(ins[n]);
      if ins[n].FromSlim? {
        SendAllShape(Bind(t, ins[n].msg).(buffer := []), t.buffer, ins[n].ids);
      }
    }
  }

  // ---------------------------------------------------------- one discovery

  function Probes(ms: seq<Message>): nat {
    if ms == [] then 0
    else Probes(ms[..|ms| - 1]) + if ms[|ms| - 1].header.FnfDiscovery? then 1 else 0
  }

  lemma {:induction false} NoProbes(ms: seq<Message>)
    requires forall m <- ms :: !m.header.FnfDiscovery?
    ensures Probes(ms) == 0
  {
    if ms != [] {
      NoProbes(ms[..|ms| - 1]);
    }
  }

  /** The number of probes sent over a run. */
  function RunProbes(s: State, ins: seq<Input>): nat {
    if ins == [] then 0
    else RunProbes(s, ins[..|ins| - 1]) + Probes(Step(RunFnf(s, ins[..|ins| - 1]), ins[|ins| - 1]).toSlim)
  }

  /** Probes are neither stored for retransmission nor kept waiting. */
  ghost predicate NoneStored(s: State) {
    && (forall id :: id in s.timers ==> !s.timers[id].msg.header.FnfDiscovery?)
    && (forall m <- s.buffer :: !m.header.FnfDiscovery?)
  }

  lemma {:induction false} SendAllStores(s: State, ms: seq<Message>, ids: seq<MsgId>)
    requires NoneStored(s) && forall m <- ms :: !m.header.FnfDiscovery?
    ensures NoneStored(SendAll(s, ms, ids).state)
    ensures forall m <- SendAll(s, ms, ids).toSlim :: !m.header.FnfDiscovery?
  {
    if ms != [] {
      SendAllStores(s, ms[..|ms| - 1], ids);
    }
  }

  /** The step that begins the discovery. */
  predicate Begins(s: State, i: Input) {
    s.status.Uninitialized? && Step(s, i).state.status.Discovering?
  }

  lemma {:induction false} SlimStores(s: State, msg: Message, ids: seq<MsgId>)
    requires NoneStored(s)
    ensures NoneStored(MessageToApp(s, msg, ids).state)
    ensures forall m <- MessageToApp(s, msg, ids).toSlim :: !m.header.FnfDiscovery?
  {
    if msg.header.FnfDiscoveryReply? {
      SendAllStores(Bind(s, msg).(buffer := []), s.buffer, ids);
    }
  }

  lemma {:induction false} StepStores(s: State, i: Input)
    requires BindingInv(s) && NoneStored(s)
    ensures NoneStored(Step(s, i).state)
    ensures !Begins(s, i) ==> forall m <- Step(s, i).toSlim :: !m.header.FnfDiscovery?
  {
    if i.FromSlim? {
      SlimStores(s, i.msg, i.ids);
    }
  }

  /** Discovery begins at most once: from the initial status, which is never entered again. */
  lemma {:induction false} StepStatus(s: State, i: Input)
    requires BindingInv(s)
    ensures Step(s, i).state.status.Uninitialized? ==> s.status.Uninitialized?
    ensures Step(s, i).state.status.Discovering? ==> !s.status.Established?
    ensures Begins(s, i) ==> |Step(s, i).toSlim| == 1 && Step(s, i).toSlim[0].header.FnfDiscovery?
  {
    if i.FromSlim? {
      SendAllShape(Bind(s, i.msg).(buffer := []), s.buffer, i.ids);
    }
  }

  /** Only the step that begins the discovery sends a probe, and it sends one. */
  lemma {:induction false} StepProbes(s: State, i: Input)
    requires BindingInv(s) && NoneStored(s)
    ensures Probes(Step(s, i).toSlim) == if Begins(s, i) then 1 else 0
  {
    StepStores(s, i);
    StepStatus(s, i);
    if Begins(s, i) {
      assert Step(s, i).toSlim[..0] == [];
    } else {
      NoProbes(Step(s, i).toSlim);
    }
  }

  /**
   Over every run at most one discovery is started: no probe before the first message
   has to wait, exactly one while waiting, and never another one.
   */
  lemma {:induction false} ProbeOnce(me: Agent, config: Config, ins: seq<Input>)
    ensures var s, n := RunFnf(Initial(me, config), ins), RunProbes(Initial(me, config), ins);
            NoneStored(s) && n <= 1 && (s.status.Uninitialized? ==> n == 0) && (s.status.Discovering? ==> n == 1)
  {
    if ins != [] {
      ProbeOnce(me, config, ins[..|ins| - 1]);
      BindingAlways(me, config, ins[..|ins| - 1]);
      var s := RunFnf(Initial(me, config), ins[..|ins| - 1]);
      StepStores(s, ins[|ins| - 1]);
      StepStatus(s, ins[|ins| - 1]);
      StepProbes(s, ins[|ins| - 1]);
    }
  }
}
