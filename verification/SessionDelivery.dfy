/**
 What a receiver makes of the packets and timer events it hears, said in terms of
 those inputs alone: which messages reach the application, and how often a missing
 one is asked for.
 */
module SessionDelivery {
  import opened Messages
  import opened ReorderWindow
  import opened WindowRuns
  import opened WindowLosses
  import opened ReceiverSessions

  // ------------------------------------------------------------- deliveries

  /** A packet with a message of the stream: an original, or a reply that is not a refusal. */
  predicate Carries(m: Message) {
    m.header.Stream? || m.header.PubSub? || (m.header.RtxReply? && !m.error)
  }

  /** The first message with id `p` that was heard. */
  function FirstHeard(ins: seq<Input>, p: nat): Option<Message> {
    if ins == [] then None
    else
      var earlier, i := FirstHeard(ins[..|ins| - 1], p), ins[|ins| - 1];
      if earlier.Some? then earlier
      else if i.Packet? && Carries(i.msg) && i.msg.id == p then Some(i.msg)
      else None
  }

  /** The input says that `p` is lost: a refusal of the producer, or the failure of its timer. */
  predicate SaysLost(i: Input, p: nat) {
    match i
    case Packet(m) => m.header.RtxReply? && m.error && m.id == p
    case RtxTimeout(_) => false
    case RtxFailure(id) => id == p
  }

  ghost predicate SaidLost(ins: seq<Input>, p: nat) {
    exists i <- ins :: SaysLost(i, p)
  }

  lemma {:induction false} HeardIsCopy(ins: seq<Input>, p: nat)
    ensures FirstHeard(ins, p) == FirstCopy(BufferCalls(ins), p)
  {
    if ins != [] {
      var n := |ins| - 1;
      HeardIsCopy(ins[..n], p);
      var call := BufferCall(ins[n]);
      if call.Some? {
        assert BufferCalls(ins)[..|BufferCalls(ins)| - 1] == BufferCalls(ins[..n]);
      } else {
        assert BufferCalls(ins) == BufferCalls(ins[..n]);
      }
    }
  }

  lemma {:induction false} LostIsDeclared(ins: seq<Input>, p: nat)
    requires DeclaredLost(BufferCalls(ins), p)
    ensures SaidLost(ins, p)
  {
    var n := |ins| - 1;
    if DeclaredLost(BufferCalls(ins[..n]), p) {
      LostIsDeclared(ins[..n], p);
      var i :| i in ins[..n] && SaysLost(i, p);
      assert i in ins;
    } else {
      assert SaysLost(ins[n], p) && ins[n] in ins;
    }
  }

  lemma {:induction false} FirstCopyStays(es: seq<Event>, j: nat, p: nat)
    requires j <= |es| && FirstCopy(es[..j], p).Some?
    ensures FirstCopy(es, p) == FirstCopy(es[..j], p)
  {
    if j < |es| {
      assert es[..|es| - 1][..j] == es[..j];
      FirstCopyStays(es[..|es| - 1], j, p);
    } else {
      assert es[..j] == es;
    }
  }

  /** An entry that was right for the calls so far is right for what was heard. */
  lemma {:induction false} HonestIsHeard(ins: seq<Input>, es: seq<Event>, p: nat, entry: Option<Message>)
    requires es <= BufferCalls(ins) && Honest(es, p, entry)
    ensures (entry.Some? ==> entry == FirstHeard(ins, p)) && (entry.None? ==> SaidLost(ins, p))
  {
    HeardIsCopy(ins, p);
    if entry.Some? {
      assert BufferCalls(ins)[..|es|] == es;
      FirstCopyStays(BufferCalls(ins), |es|, p);
    } else {
      var e :| e in es && Declares(e, p);
      assert e in BufferCalls(ins);
      LostIsDeclared(ins, p);
    }
  }

  /** The id that the first entry of a session stands for. */
  function First(r: Reaction): int {
    r.session.window.next - |r.toApp|
  }

  /**
   What was heard reaches the application.  Once any message has been heard, the session
   has started; from its first id on every message heard has been handed over or is held
   in its first copy; and what is handed over next is exactly what has not been heard yet.
   */
  lemma {:induction false} HeardTheorem(cfg: Config, ins: seq<Input>, p: nat)
    requires FirstHeard(ins, p).Some?
    ensures var r := RunSession(cfg, ins);
            && r.toApp != [] && 0 <= First(r)
            && (p < r.session.window.next || r.session.window.Copy(p) == FirstHeard(ins, p))
            && FirstHeard(ins, r.session.window.next).None?
  {
    var r := RunSession(cfg, ins);
    SessionIsRun(cfg, ins);
    RunInv(BufferCalls(ins));
    HeardIsCopy(ins, p);
    HeardIsCopy(ins, r.session.window.next);
  }

  /** Entry `k` is the first copy heard of its id, or a marker for an id that was said to be lost. */
  ghost predicate RightEntry(ins: seq<Input>, r: Reaction, k: nat)
    requires k < |r.toApp|
  {
    var p := First(r) + k;
    && 0 <= p && (r.toApp[k].Some? ==> r.toApp[k] == FirstHeard(ins, p))
    && (r.toApp[k].None? ==> SaidLost(ins, p))
  }

  lemma {:induction false} RunEntry(ins: seq<Input>, r: Reaction, k: nat)
    requires k < |r.toApp|
    requires var run := Run(BufferCalls(ins)); run.window == r.session.window && run.out == r.toApp
    ensures RightEntry(ins, r, k)
  {
    var es := BufferCalls(ins);
    var j := ReleasingEvent(es, k);
    DeliveryTheorem(es, j, k);
    HonestIsHeard(ins, es[..j + 1], First(r) + k, r.toApp[k]);
  }

  /** The entry for an id is the first copy heard of it, unless the session was told that it is lost. */
  lemma {:induction false} EntryTheorem(cfg: Config, ins: seq<Input>, k: nat)
    requires k < |RunSession(cfg, ins).toApp|
    ensures RightEntry(ins, RunSession(cfg, ins), k)
  {
    SessionIsRun(cfg, ins);
    RunEntry(ins, RunSession(cfg, ins), k);
  }

  /** Everything from the first id up to `n` has been heard, and none of it was said to be lost. */
  ghost predicate AllHeard(ins: seq<Input>, r: Reaction, n: nat) {
    && 0 <= First(r) < n
    && forall p :: First(r) <= p < n ==> FirstHeard(ins, p).Some? && !SaidLost(ins, p)
  }

  /** The first entries are the first copies heard of the ids up to `n`, in order. */
  ghost predicate AllGiven(ins: seq<Input>, r: Reaction, n: nat) {
    && 0 <= First(r) && n - First(r) <= |r.toApp|
    && forall k :: 0 <= k < n - First(r) ==> r.toApp[k] == FirstHeard(ins, First(r) + k)
  }

  lemma {:induction false} AllHeardAreGiven(ins: seq<Input>, r: Reaction, n: nat)
    requires AllHeard(ins, r, n) && FirstHeard(ins, r.session.window.next).None?
    requires forall k :: 0 <= k < |r.toApp| ==> RightEntry(ins, r, k)
    ensures AllGiven(ins, r, n)
  {
    assert First(r) <= r.session.window.next && n <= r.session.window.next;
    forall k | 0 <= k < n - First(r)
      ensures r.toApp[k] == FirstHeard(ins, First(r) + k)
    {
      assert RightEntry(ins, r, k) && !SaidLost(ins, First(r) + k);
    }
  }

  /**
   Complete delivery: when every id from the first one up to `n` has been heard, in any
   order and any number of times, and none was said to be lost, the application has been
   given all of them, in order, each in its first copy.
   */
  lemma {:induction false} CompleteDelivery(cfg: Config, ins: seq<Input>, n: nat)
    requires AllHeard(ins, RunSession(cfg, ins), n)
    ensures AllGiven(ins, RunSession(cfg, ins), n)
  {
    var r := RunSession(cfg, ins);
    HeardTheorem(cfg, ins, First(r));
    forall k | 0 <= k < |r.toApp|
      ensures RightEntry(ins, r, k)
    {
      EntryTheorem(cfg, ins, k);
    }
    AllHeardAreGiven(ins, r, n);
  }

  /** One publication: it is kept or handed over, and at once if it is the one owed or the very first. */
  lemma {:induction false} PublicationStep(cfg: Config, s: Session, m: Message)
    requires Unstuck(s) && (m.header.Stream? || m.header.PubSub?)
    ensures var r := Step(cfg, s, Packet(m));
            && (m.id < r.session.window.next || m.id in r.session.window.held)
            && (!s.window.started || m.id == s.window.next ==> r.toApp != [] && r.toApp[0] == Some(m))
  {
    var w := s.window;
    CallState(w, Recv(m));
    CallFront(w, Recv(m));
    var w' := Apply(w, Recv(m)).window;
    assert w'.next <= m.id ==> w'.Copy(m.id) == Known(w, Recv(m), m.id);
    if !w.started || m.id == w.next {
      if Apply(w, Recv(m)).out != [] {
        CallOutput(w, Recv(m), 0);
      }
    }
  }

  function Packets(ms: seq<Message>): seq<Input> {
    seq(|ms|, k requires 0 <= k < |ms| => Packet(ms[k]))
  }

  function Entries(ms: seq<Message>): seq<Option<Message>> {
    seq(|ms|, k requires 0 <= k < |ms| => Some(ms[k]))
  }

  lemma PacketsLast(ms: seq<Message>)
    requires ms != []
    ensures var n := |ms| - 1;
            && Packets(ms)[..n] == Packets(ms[..n]) && Packets(ms)[n] == Packet(ms[n])
            && Entries(ms) == Entries(ms[..n]) + [Some(ms[n])]
  {
  }

  lemma SessionStep(cfg: Config, ins: seq<Input>)
    requires ins != []
    ensures var r0 := RunSession(cfg, ins[..|ins| - 1]);
            var r := Step(cfg, r0.session, ins[|ins| - 1]);
            RunSession(cfg, ins) == Reaction(r.session, r0.toApp + r.toApp, r0.toSlim + r.toSlim)
  {
  }

  /** A session without gaps whose next id is `next`. */
  function Gapless(next: nat): Session {
    Session(Window(true, next, next, map[], {}), map[], map[])
  }

  lemma InOrderStep(cfg: Config, s: Session, m: Message)
    requires (s == NEW_SESSION || s == Gapless(m.id)) && (m.header.Stream? || m.header.PubSub?)
    ensures Step(cfg, s, Packet(m)) == Reaction(Gapless(m.id + 1), [Some(m)], [])
  {
    assert s.rtx - {} == s.rtx && s.timers - {} == s.timers;
  }

  /** Without losses and in order, the application is given exactly the publications and nothing is asked for. */
  lemma {:induction false} LossFree(cfg: Config, ms: seq<Message>)
    requires forall k :: 0 <= k < |ms| ==> ms[k].header.Stream? || ms[k].header.PubSub?
    requires forall k :: 0 <= k < |ms| ==> ms[k].id == ms[0].id + k
    ensures var r := RunSession(cfg, Packets(ms));
            && r.toApp == Entries(ms) && r.toSlim == []
            && (ms != [] ==> r.session == Gapless(ms[0].id + |ms|))
  {
    if ms != [] {
      var n := |ms| - 1;
      LossFree(cfg, ms[..n]);
      PacketsLast(ms);
      SessionStep(cfg, Packets(ms));
      InOrderStep(cfg, RunSession(cfg, Packets(ms[..n])).session, ms[n]);
    }
  }

  // --------------------------------------------------------------- requests

  /** The ids that the input makes the buffer ask for. */
  function AskedBy(s: Session, i: Input): seq<nat> {
    if i.Packet? && BufferCall(i).Some? then Apply(s.window, BufferCall(i).value).rtx else []
  }

  /** How often the buffer has asked for `p`. */
  function Asked(cfg: Config, ins: seq<Input>, p: nat): nat {
    if ins == [] then 0
    else
      var s := RunSession(cfg, ins[..|ins| - 1]).session;
      Asked(cfg, ins[..|ins| - 1], p) + if p in AskedBy(s, ins[|ins| - 1]) then 1 else 0
  }

  /** The input settles `p`: any reply for it, or the failure of its timer. */
  predicate Settles(i: Input, p: nat) {
    match i
    case Packet(m) => m.header.RtxReply? && m.id == p
    case RtxTimeout(_) => false
    case RtxFailure(id) => id == p
  }

  /** `p` has been asked for and nothing has settled it since. */
  predicate Awaited(cfg: Config, ins: seq<Input>, p: nat) {
    && ins != []
    && var before, i := ins[..|ins| - 1], ins[|ins| - 1];
       || p in AskedBy(RunSession(cfg, before).session, i)
       || (Awaited(cfg, before, p) && !Settles(i, p))
  }

  /** How often the timer of an awaited `p` has asked for it again. */
  function Retried(cfg: Config, ins: seq<Input>, p: nat): nat {
    if ins == [] then 0
    else
      var before := ins[..|ins| - 1];
      Retried(cfg, before, p) +
      if ins[|ins| - 1].RtxTimeout? && ins[|ins| - 1].id == p && Awaited(cfg, before, p) then 1 else 0
  }

  /** How many of the messages ask for `p`. */
  function RequestsIn(ms: seq<Message>, p: nat): nat {
    if ms == [] then 0
    else
      var m := ms[|ms| - 1];
      RequestsIn(ms[..|ms| - 1], p) + if m.header.RtxRequest? && m.id == p then 1 else 0
  }

  lemma {:induction false} RequestsInConcat(a: seq<Message>, b: seq<Message>, p: nat)
    ensures RequestsIn(a + b, p) == RequestsIn(a, p) + RequestsIn(b, p)
  {
    if b == [] {
      assert a + b == a;
    } else {
      assert (a + b)[..|a + b| - 1] == a + b[..|b| - 1];
      RequestsInConcat(a, b[..|b| - 1], p);
    }
  }

  lemma {:induction false} OneRequestEach(cfg: Config, cause: Message, ids: seq<nat>, p: nat)
    requires forall i :: 0 <= i < |ids| ==> ids[i] < U32
    requires forall i, j :: 0 <= i < j < |ids| ==> ids[i] < ids[j]
    ensures RequestsIn(Requests(cfg, cause, ids), p) == if p in ids then 1 else 0
  {
    if ids != [] {
      var n := |ids| - 1;
      OneRequestEach(cfg, cause, ids[..n], p);
      var ms := Requests(cfg, cause, ids);
      assert ms[..|ms| - 1] == Requests(cfg, cause, ids[..n]);
      assert p in ids <==> p in ids[..n] || p == ids[n];
    }
  }

  /** A retransmission timeout sends exactly one message: the request for its own id. */
  lemma {:induction false} TimeoutSends(cfg: Config, s: Session, p: MsgId)
    requires Unstuck(s) && Pending(s)
    ensures var r := Step(cfg, s, RtxTimeout(p));
            && r.session == s && r.toApp == []
            && (p in s.timers ==> |r.toSlim| == 1 && r.toSlim[0].header.RtxRequest? && r.toSlim[0].id == p)
            && (p !in s.timers ==> r.toSlim == [])
  {
  }

  lemma {:induction false} StepRequests(cfg: Config, s: Session, i: Input, p: nat)
    requires Unstuck(s) && Pending(s)
    ensures RequestsIn(Step(cfg, s, i).toSlim, p) ==
            (if p in AskedBy(s, i) then 1 else 0) + if i.RtxTimeout? && i.id == p && p in s.timers then 1 else 0
  {
    match i
    case Packet(m) =>
      if BufferCall(i).Some? {
        CallRequests(s.window, BufferCall(i).value);
        OneRequestEach(cfg, m, AskedBy(s, i), p);
      }
    case RtxTimeout(id) =>
      TimeoutSends(cfg, s, id);
      assert Step(cfg, s, i).toSlim[..0] == [];
    case RtxFailure(_) =>
  }

  lemma {:induction false} StepAwaited(cfg: Config, s: Session, i: Input, p: nat)
    ensures p in Step(cfg, s, i).session.timers <==> p in AskedBy(s, i) || (p in s.timers && !Settles(i, p))
  {
  }

  lemma {:induction false} AwaitedIff(cfg: Config, ins: seq<Input>, p: nat)
    ensures p in RunSession(cfg, ins).session.timers <==> Awaited(cfg, ins, p)
  {
    if ins != [] {
      AwaitedIff(cfg, ins[..|ins| - 1], p);
      StepAwaited(cfg, RunSession(cfg, ins[..|ins| - 1]).session, ins[|ins| - 1], p);
    }
  }

  /**
   Requests are counted exactly, over every run: `p` has been asked for on the network once
   for every time the buffer missed it and once for every timeout while it was awaited;
   and a timer is running for `p` if and only if it is awaited.
   */
  lemma {:induction false} RetryCount(cfg: Config, ins: seq<Input>, p: nat)
    ensures var r := RunSession(cfg, ins);
            && RequestsIn(r.toSlim, p) == Asked(cfg, ins, p) + Retried(cfg, ins, p)
            && (p in r.session.timers <==> Awaited(cfg, ins, p))
  {
    AwaitedIff(cfg, ins, p);
    if ins != [] {
      var n := |ins| - 1;
      var r0 := RunSession(cfg, ins[..n]);
      RetryCount(cfg, ins[..n], p);
      NeverStuck(cfg, ins[..n]);
      StepRequests(cfg, r0.session, ins[n], p);
      RequestsInConcat(r0.toSlim, Step(cfg, r0.session, ins[n]).toSlim, p);
    }
  }

  // ---------------------------------------------------- complete detection

  lemma {:induction false} CallsPrefix(ins: seq<Input>, j: nat)
    requires j <= |ins|
    ensures BufferCalls(ins[..j]) <= BufferCalls(ins)
  {
    if j < |ins| {
      assert ins[..|ins| - 1][..j] == ins[..j];
      CallsPrefix(ins[..|ins| - 1], j);
    } else {
      assert ins[..j] == ins;
    }
  }

  /** The buffer call of an input, and those before it. */
  lemma {:induction false} CallAt(ins: seq<Input>, j: nat)
    requires j < |ins| && BufferCall(ins[j]).Some?
    ensures var es, n := BufferCalls(ins), |BufferCalls(ins[..j])|;
            n < |es| && es[..n] == BufferCalls(ins[..j]) && es[n] == BufferCall(ins[j]).value
  {
    assert ins[..j + 1][..j] == ins[..j];
    CallsPrefix(ins, j + 1);
  }

  lemma {:induction false} AskedIff(cfg: Config, ins: seq<Input>, p: nat)
    ensures 0 < Asked(cfg, ins, p) <==> p in Run(BufferCalls(ins)).rtx
  {
    if ins != [] {
      var n := |ins| - 1;
      AskedIff(cfg, ins[..n], p);
      SessionIsRun(cfg, ins[..n]);
      var call := BufferCall(ins[n]);
      if call.Some? {
        RunStep(FRESH, BufferCalls(ins[..n]), call.value);
      } else {
        assert BufferCalls(ins) == BufferCalls(ins[..n]);
      }
    }
  }

  /** The packet names its id: it carries the message or announces it. */
  predicate Names(i: Input) {
    i.Packet? && (Carries(i.msg) || i.msg.header.BeaconStream? || i.msg.header.BeaconPubSub?)
  }

  /**
   Nothing that was named is overlooked: after the first message, whatever lies at or below
   the id of a packet heard has been handed over, is held, or has been asked for.
   */
  lemma {:induction false} NothingOverlooked(cfg: Config, ins: seq<Input>, j: nat, p: nat)
    requires j < |ins| && Names(ins[j]) && p <= ins[j].msg.id
    requires RunSession(cfg, ins[..j]).toApp != []
    ensures var r := RunSession(cfg, ins);
            p < r.session.window.next || p in r.session.window.held || 0 < RequestsIn(r.toSlim, p)
  {
    var es, es0 := BufferCalls(ins), BufferCalls(ins[..j]);
    CallAt(ins, j);
    assert Run(es0).window.started by {
      SessionIsRun(cfg, ins[..j]);
      RunInv(es0);
    }
    NamedTheorem(es, |es0|, p);
    SessionIsRun(cfg, ins);
    AskedIff(cfg, ins, p);
    RetryCount(cfg, ins, p);
  }
}
