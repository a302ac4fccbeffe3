/**
 Message order of a sticky fire-and-forget session: nothing is lost, repeated
 or reordered between the application and the first transmission, except when
 the session is itself discovered while it is still discovering its peer.
 */
module StickyOrder {
  import opened Messages
  import opened FireAndForget

  /** A session with its history. */
  datatype History = History(
    state: State,
    submitted: seq<Message>,   // by the application
    sent: seq<Message>,        // first transmissions of what it submitted
    via: seq<Option<nat>>)     // the connection bound when each of them was made

  function Times(c: Option<nat>, n: nat): (r: seq<Option<nat>>)
    ensures |r| == n && forall k :: 0 <= k < n ==> r[k] == c
  {
    if n == 0 then [] else Times(c, n - 1) + [c]
  }

  predicate IsDiscovery(i: Input) {
    i.FromSlim? && i.msg.header.FnfDiscovery?
  }

  function Follow(h: History, i: Input): History {
    var out := Step(h.state, i);
    var sent := if IsDiscovery(i) then [] else out.numbered;
    History(out.state,
            h.submitted + (if i.FromApp? then [i.msg] else []),
            h.sent + sent, h.via + Times(out.state.conn, |sent|))
  }

  function RunHistory(me: Agent, config: Config, ins: seq<Input>): History {
    if ins == [] then History(Initial(me, config), [], [], [])
    else Follow(RunHistory(me, config, ins[..|ins| - 1]), ins[|ins| - 1])
  }

  lemma {:induction false} HistoryState(me: Agent, config: Config, ins: seq<Input>)
    ensures RunHistory(me, config, ins).state == RunFnf(Initial(me, config), ins)
  {
    if ins != [] {
      HistoryState(me, config, ins[..|ins| - 1]);
    }
  }

  /** The part of a message that the session leaves alone. */
  function Content(m: Message): Message {
    m.(header := Unspecified, id := 0, dstType := 0, dstId := None, forwardTo := None)
  }

  function Contents(ms: seq<Message>): seq<Message> {
    seq(|ms|, k requires 0 <= k < |ms| => Content(ms[k]))
  }

  lemma ContentsConcat(a: seq<Message>, b: seq<Message>)
    ensures Contents(a + b) == Contents(a) + Contents(b)
  {
  }

  /** The first transmissions followed by the waiting messages are the submissions, in order. */
  ghost predicate InOrder(h: History) {
    Contents(h.sent) + Contents(h.state.buffer) == Contents(h.submitted)
  }

  /** Bound to a peer while messages still wait for one: nothing will ever send them. */
  predicate Stranded(s: State) {
    s.name.Some? && s.buffer != []
  }

  predicate SentTo(m: Message, peer: Agent) {
    m.dstType == peer.agentType && m.dstId == OptionalId(peer.agentId)
  }

  ghost predicate StickyInv(h: History) {
    && BindingInv(h.state) && h.state.config.sticky
    && (h.state.buffer != [] <==> h.state.status.Discovering?)
    && InOrder(h)
    && (forall m <- h.sent :: h.state.name.Some? && SentTo(m, h.state.name.value))
    && ForcedVia(h)
  }

  /** Every first transmission is forced onto the connection that was bound when it was made. */
  ghost predicate ForcedVia(h: History) {
    |h.via| == |h.sent| && forall k :: 0 <= k < |h.sent| ==> h.via[k].Some? && h.sent[k].forwardTo == h.via[k]
  }

  /** The discovery of this session by a peer, at a moment when it waits for one itself. */
  predicate Crossing(s: State, i: Input) {
    IsDiscovery(i) && s.status.Discovering?
  }

  lemma {:induction false} SubmitKeeps(h: History, msg: Message, id: MsgId)
    requires StickyInv(h)
    ensures StickyInv(Follow(h, FromApp(msg, id)))
  {
    var h' := Follow(h, FromApp(msg, id));
    var m := WithType(h.state, msg);
    BindingKept(h.state, FromApp(msg, id));
    ContentsConcat(h.submitted, [msg]);
    assert Content(m) == Content(msg);
    if h.state.name.Some? {
      var out := Step(h.state, FromApp(msg, id));
      ContentsConcat(h.sent, out.numbered);
      assert Contents(out.numbered) == [Content(msg)];
    } else {
      ContentsConcat(h.state.buffer, [m]);
      assert h'.sent == h.sent;
    }
  }

  lemma {:induction false} ReplyKeeps(h: History, msg: Message, ids: seq<MsgId>)
    requires StickyInv(h) && h.state.status.Discovering? && msg.header.FnfDiscoveryReply?
    ensures StickyInv(Follow(h, FromSlim(msg, ids)))
  {
    var s := Bind(h.state, msg).(buffer := []);
    var out := SendAll(s, h.state.buffer, ids);
    BindingKept(h.state, FromSlim(msg, ids));
    SendAllShape(s, h.state.buffer, ids);
    assert Contents(out.numbered) == Contents(h.state.buffer);
    ContentsConcat(h.sent, out.numbered);
    assert Follow(h, FromSlim(msg, ids)).sent == h.sent + out.numbered;
    assert Follow(h, FromSlim(msg, ids)).submitted == h.submitted;
  }

  /** Every input keeps the order, except a crossing discovery. */
  lemma {:induction false} FollowKeeps(h: History, i: Input)
    requires StickyInv(h) && StaysSticky(i) && !Crossing(h.state, i)
    ensures StickyInv(Follow(h, i))
  {
    if i.FromApp? {
      SubmitKeeps(h, i.msg, i.id);
    } else if i.FromSlim? && i.msg.header.FnfDiscoveryReply? && h.state.status.Discovering? {
      ReplyKeeps(h, i.msg, i.ids);
    } else {
      BindingKept(h.state, i);
      assert Follow(h, i).sent == h.sent && Follow(h, i).submitted == h.submitted;
      if h.state.name.Some? {
        RebindingIff(h.state, i);
      }
    }
  }

  /** Some discovery of this session came while it was discovering. */
  ghost predicate Crossed(me: Agent, config: Config, ins: seq<Input>) {
    && ins != []
    && var n := |ins| - 1;
       Crossed(me, config, ins[..n]) || Crossing(RunHistory(me, config, ins[..n]).state, ins[n])
  }

  /** Sticky order: over every sticky run without a crossing discovery. */
  lemma {:induction false} OrderTheorem(me: Agent, config: Config, ins: seq<Input>)
    requires config.sticky && (forall i <- ins :: StaysSticky(i)) && !Crossed(me, config, ins)
    ensures StickyInv(RunHistory(me, config, ins))
  {
    if ins != [] {
      var n := |ins| - 1;
      OrderTheorem(me, config, ins[..n]);
      FollowKeeps(RunHistory(me, config, ins[..n]), ins[n]);
    }
  }

  // ------------------------------------------------- when the order is lost

  /** A stranded session stays stranded, however it is configured: the waiting messages are never sent. */
  lemma {:induction false} StrandedForGood(s: State, ins: seq<Input>)
    requires BindingInv(s) && Stranded(s)
    ensures BindingInv(RunFnf(s, ins)) && Stranded(RunFnf(s, ins)) && RunFnf(s, ins).buffer == s.buffer
  {
    if ins != [] {
      var n := |ins| - 1;
      StrandedForGood(s, ins[..n]);
      BindingKept(RunFnf(s, ins[..n]), ins[n]);
    }
  }

  /** A sticky session is stranded exactly when a discovery crossed its own. */
  lemma {:induction false} StrandedIffCrossed(me: Agent, config: Config, ins: seq<Input>)
    requires config.sticky && forall i <- ins :: StaysSticky(i)
    ensures Stranded(RunHistory(me, config, ins).state) <==> Crossed(me, config, ins)
  {
    if !Crossed(me, config, ins) {
      OrderTheorem(me, config, ins);
    } else {
      var n := |ins| - 1;
      StrandedIffCrossed(me, config, ins[..n]);
      HistoryState(me, config, ins[..n]);
      HistoryState(me, config, ins);
      BindingAlways(me, config, ins[..n]);
      var s := RunFnf(Initial(me, config), ins[..n]);
      if Stranded(s) {
        assert [ins[n]][..0] == [] && RunFnf(s, [ins[n]]) == Step(s, ins[n]).state;
        StrandedForGood(s, [ins[n]]);
      } else {
        OrderTheorem(me, config, ins[..n]);
      }
    }
  }

  /** As long as the order holds, every further submission keeps it if and only if the session is not stranded. */
  lemma {:induction false} OrderIffNotStranded(h: History)
    requires BindingInv(h.state) && h.state.config.sticky && InOrder(h)
    ensures (forall msg, id :: InOrder(Follow(h, FromApp(msg, id)))) <==> !Stranded(h.state)
  {
    var buffer := h.state.buffer;
    forall msg, id: MsgId
      ensures !Stranded(h.state) ==> InOrder(Follow(h, FromApp(msg, id)))
      ensures Stranded(h.state) && buffer[0].payload != msg.payload ==> !InOrder(Follow(h, FromApp(msg, id)))
    {
      var m, h' := WithType(h.state, msg), Follow(h, FromApp(msg, id));
      ContentsConcat(h.submitted, [msg]);
      ContentsConcat(buffer, [m]);
      ContentsConcat(h.sent, Step(h.state, FromApp(msg, id)).numbered);
      assert Content(m) == Content(msg);
      if h.state.name.Some? {
        assert Contents(Step(h.state, FromApp(msg, id)).numbered) == [Content(msg)];
        if Stranded(h.state) {
          assert Contents(h'.submitted)[|h.sent|] == Content(buffer[0]);
          assert (Contents(h'.sent) + Contents(buffer))[|h.sent|] == Content(msg);
        }
      } else {
        assert h'.sent == h.sent;
      }
    }
    if Stranded(h.state) {
      var other := buffer[0].(payload := if buffer[0].payload == Some([]) then Some([0]) else Some([]));
      assert !InOrder(Follow(h, FromApp(other, 0)));
    }
  }

  /** Such a run exists: a submission starts the discovery and the peer's own discovery arrives. */
  function CrossingRun(msg: Message, discovery: Message): seq<Input> {
    [FromApp(msg, 0), FromSlim(discovery, [])]
  }

  /**
   From then on the first message waits for ever, and the next one overtakes it: it is
   the only one transmitted, although it was submitted second.
   */
  lemma {:induction false} CrossingOvertakes(
    me: Agent, config: Config, msg: Message, discovery: Message, other: Message, id: MsgId)
    requires config.sticky && discovery.header.FnfDiscovery?
    ensures Crossed(me, config, CrossingRun(msg, discovery))
    ensures var h := RunHistory(me, config, CrossingRun(msg, discovery));
            var h' := Follow(h, FromApp(other, id));
            && Stranded(h.state) && InOrder(h) && Contents(h.state.buffer) == [Content(msg)]
            && h'.state.buffer == h.state.buffer
            && Contents(h'.submitted) == [Content(msg), Content(other)]
            && Contents(h'.sent) == [Content(other)]
  {
    var ins := CrossingRun(msg, discovery);
    var first := [FromApp(msg, 0)];
    assert ins[..|ins| - 1] == first && first[..|first| - 1] == [];
    var h0 := RunHistory(me, config, []);
    var h1 := RunHistory(me, config, first);
    assert h1 == Follow(h0, FromApp(msg, 0));
    assert h1.state.status.Discovering? && h1.state.buffer == [WithType(Initial(me, config), msg)];
    assert h1.submitted == [msg] && h1.sent == [];
    assert Crossing(h1.state, ins[1]);
    var h := RunHistory(me, config, ins);
    assert h == Follow(h1, ins[1]);
    assert h.submitted == [msg] && h.sent == [] && h.state.buffer == h1.state.buffer;
    var h' := Follow(h, FromApp(other, id));
    assert h'.submitted == [msg, other] && |h'.sent| == 1 && Content(h'.sent[0]) == Content(other);
  }
}
