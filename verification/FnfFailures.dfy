/**
 Two runs of a reliable fire-and-forget session in which random ids meet:
 one loses a message, the other transmits a message too often.
 */
module FnfFailures {
  import opened Messages
  import opened Timers
  import opened FireAndForget
  import opened FnfConservation

  /** One retry, no peer to be bound to. */
  const ONE_RETRY: Config := Config(Some(1), Some(1), false)

  const TIMER_FIVE: Timer := Timer(5, Constant, 1, None, Some(1))

  /** The message as it is sent under id 5. */
  function Five(msg: Message): Message {
    msg.(header := FnfReliable, id := 5)
  }

  function Pend(me: Agent, msg: Message): State {
    Initial(me, ONE_RETRY).(timers := map[5 := Pending(TIMER_FIVE, Five(msg))])
  }

  lemma RunSnoc(w: World, acts: seq<Action>, a: Action)
    ensures RunFrom(w, acts + [a]) == Next(RunFrom(w, acts), a)
    ensures PendingFreshRun(w, acts + [a]) <==> PendingFreshRun(w, acts) && PendingFresh(RunFrom(w, acts), a)
  {
    assert (acts + [a])[..|acts + [a]| - 1] == acts;
  }

  /** A message is sent under id 5 while nothing is pending. */
  lemma SendFive(w: World, me: Agent, msg: Message)
    requires w.state == Initial(me, ONE_RETRY)
    ensures Next(w, App(msg, 5)) ==
            World(Pend(me, msg), w.queue, w.fires - {5}, w.ledger + [Entry(Five(msg), TIMER_FIVE, 0, 1, Waiting)])
    ensures PendingFresh(w, App(msg, 5))
  {
    assert Step(w.state, FromApp(msg, 5)).numbered == [Five(msg)];
    assert NewTimers(ONE_RETRY, [Five(msg)]) == {5} by {
      assert Five(msg) in [Five(msg)];
    }
    assert NewEntries(ONE_RETRY, [Five(msg)]) == [Entry(Five(msg), TIMER_FIVE, 0, 1, Waiting)];
    assert map[][5 := Pending(TIMER_FIVE, Five(msg))] == map[5 := Pending(TIMER_FIVE, Five(msg))];
  }

  /** Two messages under the same id: the older one still waits, but the session holds only the newer one. */
  lemma CollisionRun(me: Agent, msg: Message, other: Message)
    requires msg.payload != other.payload
    ensures var w := RunFrom(Begin(me, ONE_RETRY), [App(msg, 5)] + [App(other, 5)]);
            && !PendingFreshRun(Begin(me, ONE_RETRY), [App(msg, 5)] + [App(other, 5)])
            && |w.ledger| == 2 && w.ledger[0].msg == Five(msg) && w.ledger[0].fate.Waiting?
            && w.state.timers == map[5 := Pending(TIMER_FIVE, Five(other))]
  {
    var w0 := Begin(me, ONE_RETRY);
    RunSnoc(w0, [], App(msg, 5));
    assert [] + [App(msg, 5)] == [App(msg, 5)];
    SendFive(w0, me, msg);
    RunSnoc(w0, [App(msg, 5)], App(other, 5));
    var w1 := RunFrom(w0, [App(msg, 5)]);
    assert Drawn(w1, App(other, 5)) == [Five(other)] && Drawn(w1, App(other, 5))[0].id in w1.state.timers;
    DrawnEntered(w1, App(other, 5));
  }

  /** After the retry of an acknowledged message is left in the queue, its id is drawn again. */
  function Reuse(msg: Message, ack: Message): seq<Action> {
    [App(msg, 5)] + [Fire(5)] + [Slim(ack, [])] + [App(msg, 5)]
  }

  /** The retry is queued before the acknowledgement is handled, which leaves it there. */
  lemma StaleRetry(me: Agent, msg: Message, ack: Message)
    requires ack.header.FnfAck? && ack.id == 5
    ensures var w := World(Pend(me, msg), [], map[], [Entry(Five(msg), TIMER_FIVE, 0, 1, Waiting)]);
            Next(Next(w, Fire(5)), Slim(ack, [])) ==
            World(Initial(me, ONE_RETRY), [Retry(5)], map[5 := 1], [Entry(Five(msg), TIMER_FIVE, 1, 1, Acked)])
  {
    var w := World(Pend(me, msg), [], map[], [Entry(Five(msg), TIMER_FIVE, 0, 1, Waiting)]);
    var w' := Next(w, Fire(5));
    assert w' == World(Pend(me, msg), [Retry(5)], map[5 := 1], [Entry(Five(msg), TIMER_FIVE, 1, 1, Waiting)]);
    var w'' := Next(w', Slim(ack, []));
    assert w''.ledger == [Entry(Five(msg), TIMER_FIVE, 1, 1, Acked)];
    assert map[5 := Pending(TIMER_FIVE, Five(msg))] - {5} == map[] && w''.fires == w'.fires;
  }

  lemma ReuseRun(me: Agent, msg: Message, ack: Message)
    requires ack.header.FnfAck? && ack.id == 5
    ensures PendingFreshRun(Begin(me, ONE_RETRY), Reuse(msg, ack))
    ensures RunFrom(Begin(me, ONE_RETRY), Reuse(msg, ack)) ==
            World(Pend(me, msg), [Retry(5)], map[],
                  [Entry(Five(msg), TIMER_FIVE, 1, 1, Acked), Entry(Five(msg), TIMER_FIVE, 0, 1, Waiting)])
  {
    var w0 := Begin(me, ONE_RETRY);
    RunSnoc(w0, [], App(msg, 5));
    assert [] + [App(msg, 5)] == [App(msg, 5)];
    SendFive(w0, me, msg);
    StaleRetry(me, msg, ack);
    RunSnoc(w0, [App(msg, 5)], Fire(5));
    RunSnoc(w0, [App(msg, 5)] + [Fire(5)], Slim(ack, []));
    RunSnoc(w0, [App(msg, 5)] + [Fire(5)] + [Slim(ack, [])], App(msg, 5));
    SendFive(RunFrom(w0, [App(msg, 5)] + [Fire(5)] + [Slim(ack, [])]), me, msg);
  }

  /** The message as the run finds it after `fired` firings of its timer and `sends` transmissions. */
  function Reused(me: Agent, msg: Message, queue: seq<TimerEvent>, fires: map<nat, nat>, fired: nat, sends: nat): World {
    World(Pend(me, msg), queue, fires,
          [Entry(Five(msg), TIMER_FIVE, 1, 1, Acked), Entry(Five(msg), TIMER_FIVE, fired, sends, Waiting)])
  }

  lemma RetryOnce(me: Agent, msg: Message, fires: map<nat, nat>, fired: nat, sends: nat)
    ensures Next(Reused(me, msg, [Retry(5)], fires, fired, sends), Handle) == Reused(me, msg, [], fires, fired, sends + 1)
  {
    var w' := Next(Reused(me, msg, [Retry(5)], fires, fired, sends), Handle);
    assert w'.queue == [] && w'.fires == fires - {} == fires;
    assert w'.ledger == Reused(me, msg, [], fires, fired, sends + 1).ledger;
  }

  lemma FireOnce(me: Agent, msg: Message)
    ensures Next(Reused(me, msg, [], map[], 0, 2), Fire(5)) == Reused(me, msg, [Retry(5)], map[5 := 1], 1, 2)
  {
    var w' := Next(Reused(me, msg, [], map[], 0, 2), Fire(5));
    assert w'.queue == [Retry(5)] && w'.fires == map[5 := 1];
    assert w'.ledger == Reused(me, msg, [Retry(5)], map[5 := 1], 1, 2).ledger;
  }

  /** The queued retry of the old message and the one retry of the new one: three transmissions instead of two. */
  lemma OverrunRun(me: Agent, msg: Message, ack: Message)
    requires ack.header.FnfAck? && ack.id == 5
    ensures var acts := Reuse(msg, ack) + [Handle] + [Fire(5)] + [Handle];
            && PendingFreshRun(Begin(me, ONE_RETRY), acts)
            && |RunFrom(Begin(me, ONE_RETRY), acts).ledger| == 2
            && RunFrom(Begin(me, ONE_RETRY), acts).ledger[1].sends == 3
            && !WithinBudget(RunFrom(Begin(me, ONE_RETRY), acts).ledger[1])
  {
    var w0, acts := Begin(me, ONE_RETRY), Reuse(msg, ack);
    ReuseRun(me, msg, ack);
    RunSnoc(w0, acts, Handle);
    RetryOnce(me, msg, map[], 0, 1);
    RunSnoc(w0, acts + [Handle], Fire(5));
    FireOnce(me, msg);
    RunSnoc(w0, acts + [Handle] + [Fire(5)], Handle);
    RetryOnce(me, msg, map[5 := 1], 1, 2);
  }
}
