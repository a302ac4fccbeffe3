/**
 The receiver side of a streaming session, for one producer: the reorder
 window, the pending retransmission requests and their timers.
 */
module ReceiverSessions {
  import opened Messages
  import opened ReorderWindow
  import opened WindowRuns
  import opened WindowLosses
  import opened Timers

  datatype Config = Config(me: Agent, maxRetries: nat, timeout: nat)

  datatype Session = Session(window: Window, rtx: map<nat, Message>, timers: map<nat, Timer>)

  datatype Input = Packet(msg: Message) | RtxTimeout(id: MsgId) | RtxFailure(id: MsgId)

  datatype Reaction = Reaction(session: Session, toApp: seq<Option<Message>>, toSlim: seq<Message>)

  const NEW_SESSION: Session := Session(FRESH, map[], map[])

  /** The buffer call that an input leads to. */
  function BufferCall(i: Input): Option<Event> {
    match i
    case Packet(m) =>
      (match m.header
       case Stream | PubSub => Some(Recv(m))
       case RtxReply => Some(if m.error then Lost(m.id) else Recv(m))
       case BeaconStream | BeaconPubSub => Some(Beacon(m.id))
       case _ => None)
    case RtxTimeout(_) => None
    case RtxFailure(id) => Some(Lost(id))
  }

  function RequestFor(cfg: Config, cause: Message, r: nat): Message {
    Message(cfg.me, cause.source.agentType, Some(cause.source.agentId), RtxRequest, AsU32(r),
            Some([]), false, 0, Some(cause.incomingConn))
  }

  function TimerFor(cfg: Config, r: nat): Timer {
    Timer(r, Constant, cfg.timeout, None, Some(cfg.maxRetries))
  }

  /** A request that is never answered is given up after `maxRetries` retries and as many waits and one more. */
  lemma RtxTimerBudget(cfg: Config, r: nat)
    ensures TotalWait(TimerFor(cfg, r), cfg.maxRetries + 1) == (cfg.maxRetries + 1) * cfg.timeout
    ensures CallNo(TimerFor(cfg, r), None, cfg.maxRetries) == OnFailure(r, cfg.maxRetries + 1)
    ensures forall k :: 0 <= k < cfg.maxRetries ==> CallNo(TimerFor(cfg, r), None, k) == OnTimeout(r, k + 1)
  {
    ConstantTotal(TimerFor(cfg, r), cfg.maxRetries + 1);
  }

  /** The requests sent for a list of missing ids, one per id and in order. */
  function Requests(cfg: Config, cause: Message, ids: seq<nat>): seq<Message> {
    if ids == [] then []
    else Requests(cfg, cause, ids[..|ids| - 1]) + [RequestFor(cfg, cause, ids[|ids| - 1])]
  }

  /** The request map after storing a request for each of `ids`. */
  function Requested(m: map<nat, Message>, cfg: Config, cause: Message, ids: seq<nat>): (r: map<nat, Message>)
    ensures forall p :: p in r <==> p in m || p in ids
    ensures forall p :: p in r ==> r[p] == if p in ids then RequestFor(cfg, cause, p) else m[p]
  {
    if ids == [] then m
    else
      var p := ids[|ids| - 1];
      Requested(m, cfg, cause, ids[..|ids| - 1])[p := RequestFor(cfg, cause, p)]
  }

  /** The timer map after starting a timer for each of `ids`. */
  function Timed(m: map<nat, Timer>, cfg: Config, ids: seq<nat>): (r: map<nat, Timer>)
    ensures forall p :: p in r <==> p in m || p in ids
    ensures forall p :: p in r ==> r[p] == if p in ids then TimerFor(cfg, p) else m[p]
  {
    if ids == [] then m
    else
      var p := ids[|ids| - 1];
      Timed(m, cfg, ids[..|ids| - 1])[p := TimerFor(cfg, p)]
  }

  /** The ids whose request and timer are dropped by an input. */
  function Forgotten(i: Input): set<nat> {
    match i
    case Packet(m) => if m.header.RtxReply? then {m.id} else {}
    case RtxTimeout(_) => {}
    case RtxFailure(id) => {id}
  }

  function Step(cfg: Config, s: Session, i: Input): Reaction {
    match BufferCall(i)
    case None =>
      Reaction(s, [], if i.RtxTimeout? && i.id in s.rtx then [s.rtx[i.id]] else [])
    case Some(call) =>
      var r := Apply(s.window, call);
      var gone := Forgotten(i);
      if i.Packet? then
        Reaction(Session(r.window, Requested(s.rtx - gone, cfg, i.msg, r.rtx), Timed(s.timers - gone, cfg, r.rtx)),
                 r.out, Requests(cfg, i.msg, r.rtx))
      else
        Reaction(Session(r.window, s.rtx - gone, s.timers - gone), r.out, [])
  }

  /** The final session and everything sent to the application, over a run. */
  function RunSession(cfg: Config, ins: seq<Input>): Reaction {
    if ins == [] then Reaction(NEW_SESSION, [], [])
    else
      var r0 := RunSession(cfg, ins[..|ins| - 1]);
      var r := Step(cfg, r0.session, ins[|ins| - 1]);
      Reaction(r.session, r0.toApp + r.toApp, r0.toSlim + r.toSlim)
  }

  /** The buffer calls of a run, in order. */
  function BufferCalls(ins: seq<Input>): seq<Event> {
    if ins == [] then []
    else
      var call := BufferCall(ins[|ins| - 1]);
      BufferCalls(ins[..|ins| - 1]) + if call.Some? then [call.value] else []
  }

  /** A session run delivers what the run of its buffer calls delivers. */
  lemma {:induction false} SessionIsRun(cfg: Config, ins: seq<Input>)
    ensures RunSession(cfg, ins).session.window == Run(BufferCalls(ins)).window
    ensures RunSession(cfg, ins).toApp == Run(BufferCalls(ins)).out
  {
    if ins != [] {
      var ins0 := ins[..|ins| - 1];
      SessionIsRun(cfg, ins0);
      var call := BufferCall(ins[|ins| - 1]);
      if call.Some? {
        RunStep(FRESH, BufferCalls(ins0), call.value);
      } else {
        assert BufferCalls(ins) == BufferCalls(ins0);
      }
    }
  }

  // ------------------------------------------------------------ never stuck

  /**
   The stream cannot get stuck: requests and timers go together, a non-empty
   window has a timer for its front id, and every other hole has a timer or is
   already known to be lost.
   */
  ghost predicate Unstuck(s: Session) {
    && s.window.Settled()
    && s.rtx.Keys == s.timers.Keys
    && (forall p :: s.window.IsHole(p) ==> p in s.timers || p in s.window.lost)
    && (s.window.next < s.window.high ==> s.window.next in s.timers)
  }

  /** Every stored request asks for its own id. */
  ghost predicate Pending(s: Session) {
    forall p :: p in s.rtx ==> s.rtx[p].header.RtxRequest? && s.rtx[p].id == p
  }

  /** A declared loss stays known until its id is reported. */
  lemma {:induction false} CallKeepsLost(w: Window, e: Event, p: nat)
    requires w.Settled() && Apply(w, e).window.next <= p
    requires p in w.lost || Declares(e, p)
    ensures p in Apply(w, e).window.lost
  {
    match e
    case Recv(m) =>
      if w.IsHole(m.id) {
        DrainRest(w.(held := w.held[m.id := m]));
      }
    case Lost(id) => DrainRest(w.Declare({id}));
    case Beacon(id) =>
  }

  /** A hole after a call was a hole before or has just been requested; it was not just received. */
  lemma {:induction false} CallHole(w: Window, e: Event, p: nat)
    requires w.Settled() && Apply(w, e).window.IsHole(p)
    ensures w.IsHole(p) || p in Apply(w, e).rtx
    ensures Arriving(e, p).None?
  {
    CallRequests(w, e);
    CallState(w, e);
  }

  /** The front hole after a call: just requested, or an old hole not known to be lost, or the old front. */
  lemma {:induction false} CallFrontHole(w: Window, e: Event)
    requires w.Settled() && Apply(w, e).window.next < Apply(w, e).window.high
    ensures var p := Apply(w, e).window.next;
            || p in Apply(w, e).rtx
            || (w.IsHole(p) && p !in w.lost && !Declares(e, p))
            || (p == w.next < w.high && !Declares(e, p))
  {
    var p := Apply(w, e).window.next;
    ApplySettles(w, e);
    CallHole(w, e, p);
    if p !in Apply(w, e).rtx && (p in w.lost || Declares(e, p)) {
      CallKeepsLost(w, e, p);
    }
  }

  lemma {:induction false} StepCoversHoles(cfg: Config, s: Session, i: Input, p: nat)
    requires Unstuck(s) && Step(cfg, s, i).session.window.IsHole(p)
    ensures p in Step(cfg, s, i).session.timers || p in Step(cfg, s, i).session.window.lost
  {
    if BufferCall(i).Some? {
      var w, e := s.window, BufferCall(i).value;
      CallHole(w, e, p);
      if p in w.lost || Declares(e, p) {
        CallKeepsLost(w, e, p);
      }
    }
  }

  lemma {:induction false} StepCoversFront(cfg: Config, s: Session, i: Input)
    requires Unstuck(s)
    ensures var s' := Step(cfg, s, i).session; s'.window.next < s'.window.high ==> s'.window.next in s'.timers
  {
    var s' := Step(cfg, s, i).session;
    if BufferCall(i).Some? && s'.window.next < s'.window.high {
      var w, e := s.window, BufferCall(i).value;
      ApplySettles(w, e);
      CallFrontHole(w, e);
      CallHole(w, e, s'.window.next);
    }
  }

  lemma {:induction false} StepSettles(cfg: Config, s: Session, i: Input)
    requires s.window.Settled() && s.rtx.Keys == s.timers.Keys
    ensures var s' := Step(cfg, s, i).session; s'.window.Settled() && s'.rtx.Keys == s'.timers.Keys
  {
    if BufferCall(i).Some? {
      ApplySettles(s.window, BufferCall(i).value);
    }
  }

  lemma {:induction false} StepPending(cfg: Config, s: Session, i: Input)
    requires s.window.Settled() && s.rtx.Keys == s.timers.Keys && Pending(s)
    ensures var s' := Step(cfg, s, i).session; s'.window.Settled() && s'.rtx.Keys == s'.timers.Keys && Pending(s')
  {
    StepSettles(cfg, s, i);
    if BufferCall(i).Some? {
      CallRequests(s.window, BufferCall(i).value);
    }
  }

  lemma {:induction false} StepUnstuck(cfg: Config, s: Session, i: Input)
    requires Unstuck(s) && Pending(s)
    ensures Unstuck(Step(cfg, s, i).session) && Pending(Step(cfg, s, i).session)
  {
    var s' := Step(cfg, s, i).session;
    StepPending(cfg, s, i);
    StepCoversFront(cfg, s, i);
    forall p | s'.window.IsHole(p)
      ensures p in s'.timers || p in s'.window.lost
    {
      StepCoversHoles(cfg, s, i, p);
    }
  }

  lemma {:induction false} NeverStuck(cfg: Config, ins: seq<Input>)
    ensures Unstuck(RunSession(cfg, ins).session) && Pending(RunSession(cfg, ins).session)
  {
    if ins != [] {
      NeverStuck(cfg, ins[..|ins| - 1]);
      StepUnstuck(cfg, RunSession(cfg, ins[..|ins| - 1]).session, ins[|ins| - 1]);
    }
  }

  // ------------------------------------------------------------------ drain

  function Failures(ids: seq<MsgId>): seq<Input> {
    seq(|ids|, k requires 0 <= k < |ids| => RtxFailure(ids[k]))
  }

  lemma {:induction false} CallsOfFailures(ins: seq<Input>, ids: seq<MsgId>)
    ensures BufferCalls(ins + Failures(ids)) == BufferCalls(ins) + Losses(ids)
  {
    if ids == [] {
      assert ins + Failures(ids) == ins;
    } else {
      var n := |ids| - 1;
      var all := ins + Failures(ids);
      CallsOfFailures(ins, ids[..n]);
      assert all[..|all| - 1] == ins + Failures(ids[..n]);
      assert all[|all| - 1] == RtxFailure(ids[n]);
      assert Losses(ids) == Losses(ids[..n]) + [Lost(ids[n])];
    }
  }

  lemma {:induction false} FailuresRun(cfg: Config, ins: seq<Input>, ids: seq<MsgId>)
    ensures var before := RunSession(cfg, ins);
            var after := RunSession(cfg, ins + Failures(ids));
            var r := RunFrom(before.session.window, Losses(ids));
            after.session.window == r.window && after.toApp == before.toApp + r.out
  {
    SessionIsRun(cfg, ins);
    SessionIsRun(cfg, ins + Failures(ids));
    CallsOfFailures(ins, ids);
    RunSplit(FRESH, BufferCalls(ins), Losses(ids));
  }

  /**
   `w` has been emptied into `w'`, handing over `entries`: one for every id from
   `w.next` on, covering the whole window, each the held copy or a loss marker.
   */
  ghost predicate Emptied(w: Window, w': Window, entries: seq<Option<Message>>) {
    && w.high <= w'.next == w'.high == w.next + |entries|
    && (forall k :: 0 <= k < |entries| ==> entries[k] == w.Copy(w.next + k))
  }

  /**
   Drain: once the failure of every pending request has been handled, in any
   order and with any extra failures in between, the window is empty.  Every id
   of the window has been handed over exactly once, in order: the buffered message,
   or a loss marker for a hole; anything after them is a loss marker.
   */
  lemma {:induction false} DrainTheorem(cfg: Config, ins: seq<Input>, ids: seq<MsgId>)
    requires forall p :: p in RunSession(cfg, ins).session.timers ==> p in SetOf(ids)
    ensures var before := RunSession(cfg, ins);
            var after := RunSession(cfg, ins + Failures(ids));
            && before.toApp <= after.toApp
            && Emptied(before.session.window, after.session.window, after.toApp[|before.toApp|..])
  {
    var w := RunSession(cfg, ins).session.window;
    var r := RunFrom(w, Losses(ids));
    FailuresRun(cfg, ins, ids);
    NeverStuck(cfg, ins);
    if ids != [] {
      LossesEmptyWindow(w, ids);
    }
    assert Emptied(w, r.window, r.out);
    assert (RunSession(cfg, ins).toApp + r.out)[|RunSession(cfg, ins).toApp|..] == r.out;
  }
}
