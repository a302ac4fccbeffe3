/**
 Matching of replies to requests.  Sending a request takes three separate steps
 (transmission, timer start, entry in the table of open requests); replies and
 timer failures run concurrently with them and meet only in that table.
 */
module RequestResponse {
  import opened Messages
  import opened Timers

  /** Where the timer of a request is: the handler of its callback runs after it has fired. */
  datatype TimerStage = NotStarted | Running | Fired(callback: Callback) | Over

  datatype Call = Call(msg: Message, timer: Timer, stage: TimerStage, stored: bool)

  /** A request's timer is created without retries. */
  function RequestTimer(id: MsgId, timeout: nat): Timer {
    Timer(id, Constant, timeout, None, Some(0))
  }

  /** It waits once, for the configured time, and then fails. */
  lemma RequestTimerBudget(id: MsgId, timeout: nat)
    ensures TotalWait(RequestTimer(id, timeout), 1) == timeout
    ensures CallNo(RequestTimer(id, timeout), None, 0) == OnFailure(id, 1)
  {
    ConstantTotal(RequestTimer(id, timeout), 1);
  }

  /** What the application is told about request `call`; `timer` is the request whose timer failed. */
  datatype Outcome = Replied(call: nat, reply: Message) | TimedOut(call: nat, msg: Message, timer: nat)

  datatype World = World(
    calls: seq<Call>,          // every request made, in order
    table: map<nat, nat>,      // message id to open request
    outcomes: seq<Outcome>,    // what the application has been told
    panics: nat,               // failure handlers that found no entry
    unexpected: nat)           // timeouts, or failures not numbered 1, given to a handler

  datatype Action =
    | Transmit(msg: Message, timeout: nat)   // with the random id it was given
    | StartTimer(call: nat)
    | Store(call: nat)
    | ReplyArrives(msg: Message)
    | Fire(call: nat)
    | Fail(call: nat)

  const START: World := World([], map[], [], 0, 0)

  function SetStage(w: World, k: nat, t: TimerStage): World
    requires k < |w.calls|
  {
    w.(calls := w.calls[k := w.calls[k].(stage := t)])
  }

  /** The request entered in the table under this id. */
  function Found(w: World, id: nat): Option<nat> {
    if id in w.table && w.table[id] < |w.calls| then Some(w.table[id]) else None
  }

  /** The entry of this id is taken out of the table: its timer, if still running, is stopped. */
  function TakeOut(w: World, id: nat): World {
    var k := Found(w, id);
    var stopped := if k.Some? && w.calls[k.value].stage == Running then SetStage(w, k.value, Over) else w;
    stopped.(table := w.table - {id})
  }

  predicate Enabled(w: World, a: Action) {
    match a
    case Transmit(_, _) => true
    case StartTimer(k) => k < |w.calls| && w.calls[k].stage == NotStarted
    case Store(k) => k < |w.calls| && w.calls[k].stage != NotStarted && !w.calls[k].stored
    case ReplyArrives(msg) => Found(w, msg.id).Some?
    case Fire(k) => k < |w.calls| && w.calls[k].stage == Running
    case Fail(k) => k < |w.calls| && w.calls[k].stage.Fired?
  }

  /** An entry replaces the one that was there. */
  function Entered(w: World, k: nat): World
    requires k < |w.calls|
  {
    var free := TakeOut(w, w.calls[k].msg.id);
    free.(calls := free.calls[k := free.calls[k].(stored := true)], table := free.table[w.calls[k].msg.id := k])
  }

  /** The failure of timer `k` reports whatever request is entered under its id. */
  function Failed(w: World, k: nat): World
    requires k < |w.calls| && w.calls[k].stage.Fired?
  {
    var over, callback, id := SetStage(w, k, Over), w.calls[k].stage.callback, w.calls[k].msg.id;
    if !callback.OnFailure? || callback.timeouts != 1 then over.(unexpected := w.unexpected + 1)
    else
      match Found(w, id)
      case None => over.(panics := w.panics + 1)
      case Some(j) => TakeOut(over, id).(outcomes := w.outcomes + [TimedOut(j, w.calls[j].msg, k)])
  }

  function Next(w: World, a: Action): World {
    if !Enabled(w, a) then w
    else
      match a
      case Transmit(msg, timeout) =>
        w.(calls := w.calls + [Call(msg, RequestTimer(msg.id, timeout), NotStarted, false)])
      case StartTimer(k) => SetStage(w, k, Running)
      case Store(k) => Entered(w, k)
      case ReplyArrives(msg) =>
        TakeOut(w, msg.id).(outcomes := w.outcomes + [Replied(w.table[msg.id], msg)])
      case Fire(k) => SetStage(w, k, Fired(CallNo(w.calls[k].timer, None, 0)))
      case Fail(k) => Failed(w, k)
  }

  function RunFrom(w: World, acts: seq<Action>): World {
    if acts == [] then w else Next(RunFrom(w, acts[..|acts| - 1]), acts[|acts| - 1])
  }

  function Run(acts: seq<Action>): World {
    RunFrom(START, acts)
  }

  /** The request is open: its entry is in the table. */
  predicate Open(w: World, k: nat)
    requires k < |w.calls|
  {
    w.calls[k].msg.id in w.table && w.table[w.calls[k].msg.id] == k
  }

  ghost predicate Settled(w: World, k: nat) {
    exists i :: 0 <= i < |w.outcomes| && w.outcomes[i].call == k
  }

  // ---------------------------------------------------------- in every run

  ghost predicate TableInv(w: World) {
    forall id :: id in w.table ==>
                   && w.table[id] < |w.calls|
                   && w.calls[w.table[id]].msg.id == id && w.calls[w.table[id]].stored
  }

  /**
   An outcome belongs to a request that was entered and is no longer open: the reply
   carries its id, the timeout its message, after the failure of a timer for its id.
   */
  predicate Matches(w: World, o: Outcome) {
    && o.call < |w.calls| && w.calls[o.call].stored && !Open(w, o.call)
    && match o
       case Replied(k, reply) => reply.id == w.calls[k].msg.id
       case TimedOut(k, msg, t) =>
         && msg == w.calls[k].msg
         && t < |w.calls| && w.calls[t].msg.id == msg.id && w.calls[t].stage == Over
  }

  ghost predicate OutcomeInv(w: World) {
    && (forall i, j :: 0 <= i < j < |w.outcomes| ==> w.outcomes[i].call != w.outcomes[j].call)
    && (forall i :: 0 <= i < |w.outcomes| ==> Matches(w, w.outcomes[i]))
  }

  /** A timer without retries has one callback, a failure numbered 1; so no handler meets anything else. */
  ghost predicate TimerInv(w: World) {
    && w.unexpected == 0
    && (forall k :: 0 <= k < |w.calls| ==> w.calls[k].timer.maxRetries == Some(0))
    && (forall k :: 0 <= k < |w.calls| && w.calls[k].stage.Fired? ==>
          w.calls[k].stage.callback == OnFailure(w.calls[k].timer.id, 1))
  }

  /** Once a request is settled or replaced, its timer no longer runs. */
  ghost predicate StoppedInv(w: World) {
    forall k :: 0 <= k < |w.calls| && w.calls[k].stored ==>
      w.calls[k].stage != NotStarted && (w.calls[k].stage == Running ==> Open(w, k))
  }

  ghost predicate Inv(w: World) {
    TableInv(w) && OutcomeInv(w) && TimerInv(w) && StoppedInv(w)
  }

  /** What no action undoes: requests and outcomes stay, a timer that is over stays so, only an entry opens. */
  ghost predicate Grows(w: World, w': World) {
    && |w.calls| <= |w'.calls| && w.outcomes <= w'.outcomes
    && forall k :: 0 <= k < |w.calls| ==>
         && w'.calls[k].msg == w.calls[k].msg
         && (w.calls[k].stored ==> w'.calls[k].stored)
         && (w.calls[k].stage == Over ==> w'.calls[k].stage == Over)
         && (Open(w', k) ==> Open(w, k) || !w.calls[k].stored)
  }

  lemma EnteredGrows(w: World, k: nat)
    requires k < |w.calls| && !w.calls[k].stored
    ensures Grows(w, Entered(w, k))
  {
    var free := TakeOut(w, w.calls[k].msg.id);
    assert Grows(w, free);
  }

  lemma FailedGrows(w: World, k: nat)
    requires k < |w.calls| && w.calls[k].stage.Fired?
    ensures Grows(w, Failed(w, k))
  {
    var over := SetStage(w, k, Over);
    assert Grows(w, over) && Grows(over, TakeOut(over, w.calls[k].msg.id));
  }

  lemma NextGrows(w: World, a: Action)
    ensures Grows(w, Next(w, a))
  {
    if Enabled(w, a) {
      match a
      case Store(k) => EnteredGrows(w, k);
      case Fail(k) => FailedGrows(w, k);
      case _ =>
    }
  }

  lemma MatchesKept(w: World, w': World, o: Outcome)
    requires Grows(w, w') && Matches(w, o)
    ensures Matches(w', o)
  {
  }

  lemma TakeOutTable(w: World, id: nat)
    requires TableInv(w)
    ensures TableInv(TakeOut(w, id))
  {
  }

  lemma EnteredTable(w: World, k: nat)
    requires TableInv(w) && k < |w.calls|
    ensures TableInv(Entered(w, k))
  {
    TakeOutTable(w, w.calls[k].msg.id);
  }

  lemma FailedTable(w: World, k: nat)
    requires TableInv(w) && k < |w.calls| && w.calls[k].stage.Fired?
    ensures TableInv(Failed(w, k))
  {
    var over := SetStage(w, k, Over);
    assert TableInv(over);
    TakeOutTable(over, w.calls[k].msg.id);
  }

  lemma NextTable(w: World, a: Action)
    requires TableInv(w)
    ensures TableInv(Next(w, a))
  {
    if Enabled(w, a) {
      match a
      case Store(k) => EnteredTable(w, k);
      case ReplyArrives(msg) => TakeOutTable(w, msg.id);
      case Fail(k) => FailedTable(w, k);
      case _ =>
    }
  }

  /** What an action does to the timer of a request. */
  lemma NextStage(w: World, a: Action, k: nat)
    requires k < |w.calls|
    ensures var c, c' := w.calls[k], Next(w, a).calls[k];
            && c'.timer == c.timer
            && (c'.stage.Fired? ==> c'.stage == c.stage || c'.stage.callback == CallNo(c.timer, None, 0))
  {
  }

  lemma NextTimers(w: World, a: Action)
    requires TimerInv(w)
    ensures TimerInv(Next(w, a))
  {
    var w' := Next(w, a);
    forall k | 0 <= k < |w'.calls|
      ensures w'.calls[k].timer.maxRetries == Some(0)
      ensures w'.calls[k].stage.Fired? ==> w'.calls[k].stage.callback == OnFailure(w'.calls[k].timer.id, 1)
    {
      if k < |w.calls| {
        NextStage(w, a, k);
      }
    }
  }

  /** An action reports at most one outcome, for a request that is open, and closes it. */
  lemma NextOutcome(w: World, a: Action)
    requires TableInv(w)
    ensures var w', n := Next(w, a), |w.outcomes|;
            || w'.outcomes == w.outcomes
            || (|w'.outcomes| == n + 1 && w'.outcomes[n].call < |w.calls| && Open(w, w'.outcomes[n].call) &&
                Matches(w', w'.outcomes[n]))
  {
  }

  lemma TakeOutStops(w: World, id: nat)
    requires StoppedInv(w) && TableInv(w)
    ensures StoppedInv(TakeOut(w, id))
  {
  }

  lemma EnteredStops(w: World, k: nat)
    requires StoppedInv(w) && TableInv(w) && k < |w.calls| && w.calls[k].stage != NotStarted
    ensures StoppedInv(Entered(w, k))
  {
    TakeOutStops(w, w.calls[k].msg.id);
  }

  lemma FailedStops(w: World, k: nat)
    requires StoppedInv(w) && TableInv(w) && k < |w.calls| && w.calls[k].stage.Fired?
    ensures StoppedInv(Failed(w, k))
  {
    var over := SetStage(w, k, Over);
    assert StoppedInv(over) && TableInv(over);
    TakeOutStops(over, w.calls[k].msg.id);
  }

  lemma NextStops(w: World, a: Action)
    requires StoppedInv(w) && TableInv(w)
    ensures StoppedInv(Next(w, a))
  {
    if Enabled(w, a) {
      match a
      case Store(k) => EnteredStops(w, k);
      case ReplyArrives(msg) => TakeOutStops(w, msg.id);
      case Fail(k) => FailedStops(w, k);
      case _ =>
    }
  }

  lemma NextOutcomes(w: World, a: Action)
    requires TableInv(w) && OutcomeInv(w)
    ensures OutcomeInv(Next(w, a))
  {
    var w' := Next(w, a);
    NextGrows(w, a);
    NextOutcome(w, a);
    forall i | 0 <= i < |w.outcomes|
      ensures Matches(w', w'.outcomes[i]) && !Open(w, w'.outcomes[i].call)
    {
      assert Matches(w, w.outcomes[i]);
      MatchesKept(w, w', w.outcomes[i]);
    }
  }

  lemma NextKeeps(w: World, a: Action)
    requires Inv(w)
    ensures Inv(Next(w, a))
  {
    NextTable(w, a);
    NextTimers(w, a);
    NextOutcomes(w, a);
    NextStops(w, a);
  }

  /**
   Under every interleaving of the steps, and whatever ids are drawn: a request has at
   most one outcome, and then is no longer open; a reply is forwarded only for a request
   with its id, a timeout only with the request's own message; the timer of a request that
   is settled or replaced no longer runs; and the handler that panics on a timeout is never
   called.
   */
  lemma {:induction false} Matching(acts: seq<Action>)
    ensures Inv(Run(acts))
  {
    if acts != [] {
      var n := |acts| - 1;
      Matching(acts[..n]);
      NextKeeps(Run(acts[..n]), acts[n]);
    }
  }

  // ------------------------------------------------- no request is forgotten

  /** Every request that was entered is open or has been settled. */
  ghost predicate Accounted(w: World) {
    forall k :: 0 <= k < |w.calls| && w.calls[k].stored ==> Open(w, k) || Settled(w, k)
  }

  /** The action enters a request under the id of another open one. */
  predicate Replaces(w: World, a: Action) {
    a.Store? && Enabled(w, a) && w.calls[a.call].msg.id in w.table
  }

  ghost predicate ReplacesNone(acts: seq<Action>) {
    acts == [] || (ReplacesNone(acts[..|acts| - 1]) && !Replaces(Run(acts[..|acts| - 1]), acts[|acts| - 1]))
  }

  lemma SettledStays(w: World, a: Action, k: nat)
    requires Settled(w, k)
    ensures Settled(Next(w, a), k)
  {
    NextGrows(w, a);
    var i :| 0 <= i < |w.outcomes| && w.outcomes[i].call == k;
    assert Next(w, a).outcomes[i].call == k;
  }

  /** An open request stays open or is settled, unless another one takes its place. */
  lemma OpenStays(w: World, a: Action, k: nat)
    requires k < |w.calls| && Open(w, k) && !Replaces(w, a)
    ensures Open(Next(w, a), k) || Settled(Next(w, a), k)
  {
    var w' := Next(w, a);
    if !Open(w', k) {
      assert w'.outcomes[|w.outcomes|].call == k;
    }
  }

  lemma StepAccounts(w: World, a: Action)
    requires Accounted(w) && !Replaces(w, a)
    ensures Accounted(Next(w, a))
  {
    var w' := Next(w, a);
    forall k | 0 <= k < |w'.calls| && w'.calls[k].stored
      ensures Open(w', k) || Settled(w', k)
    {
      if k < |w.calls| && w.calls[k].stored {
        if Open(w, k) {
          OpenStays(w, a, k);
        } else {
          SettledStays(w, a, k);
        }
      }
    }
  }

  /** A request that was entered and is neither open nor settled stays so for ever. */
  lemma ForgottenStays(w: World, a: Action, k: nat)
    requires TableInv(w) && k < |w.calls| && w.calls[k].stored && !Open(w, k) && !Settled(w, k)
    ensures var w' := Next(w, a); k < |w'.calls| && w'.calls[k].stored && !Open(w', k) && !Settled(w', k)
  {
    NextGrows(w, a);
    NextOutcome(w, a);
  }

  lemma ReplacedIsForgotten(w: World, a: Action)
    requires Inv(w) && Replaces(w, a)
    ensures !Accounted(Next(w, a))
  {
    var w', k := Next(w, a), w.table[w.calls[a.call].msg.id];
    assert Open(w, k) && !Open(w', k) && w'.calls[k].stored;
    forall i | 0 <= i < |w'.outcomes|
      ensures w'.outcomes[i].call != k
    {
      assert Matches(w, w.outcomes[i]);
    }
  }

  /**
   No request is forgotten: every request entered in the table is open or has its one
   outcome, if and only if no request was ever entered under the id of an open one.
   */
  lemma {:induction false} AccountedIff(acts: seq<Action>)
    ensures Accounted(Run(acts)) <==> ReplacesNone(acts)
  {
    if acts != [] {
      var n := |acts| - 1;
      var w, a := Run(acts[..n]), acts[n];
      Matching(acts[..n]);
      AccountedIff(acts[..n]);
      if !Accounted(w) {
        var k :| 0 <= k < |w.calls| && w.calls[k].stored && !Open(w, k) && !Settled(w, k);
        ForgottenStays(w, a, k);
      } else if Replaces(w, a) {
        ReplacedIsForgotten(w, a);
      } else {
        StepAccounts(w, a);
      }
    }
  }

  // --------------------------------------------- timeouts of the own timer

  /** A timeout is reported only for the failure of the request's own timer. */
  ghost predicate Timely(w: World) {
    forall o <- w.outcomes :: o.TimedOut? ==> o.timer == o.call
  }

  /** A request whose id may still be looked up: open, not yet entered, or with a timer that may still fail. */
  predicate Live(w: World, k: nat)
    requires k < |w.calls|
  {
    !w.calls[k].stored || w.calls[k].stage != Over || Open(w, k)
  }

  /** Random ids are fresh among live requests. */
  ghost predicate Fresh(w: World, a: Action) {
    a.Transmit? ==> forall k :: 0 <= k < |w.calls| && Live(w, k) ==> w.calls[k].msg.id != a.msg.id
  }

  ghost predicate FreshRun(w: World, acts: seq<Action>) {
    acts == [] || (FreshRun(w, acts[..|acts| - 1]) && Fresh(RunFrom(w, acts[..|acts| - 1]), acts[|acts| - 1]))
  }

  ghost predicate DistinctLive(w: World) {
    forall j, k :: 0 <= j < k < |w.calls| && Live(w, j) && Live(w, k) ==> w.calls[j].msg.id != w.calls[k].msg.id
  }

  lemma NextDistinct(w: World, a: Action)
    requires DistinctLive(w) && Fresh(w, a)
    ensures DistinctLive(Next(w, a))
  {
    var w' := Next(w, a);
    NextGrows(w, a);
    forall j, k | 0 <= j < k < |w'.calls| && Live(w', j) && Live(w', k)
      ensures w'.calls[j].msg.id != w'.calls[k].msg.id
    {
      assert Live(w, j);
      if k < |w.calls| {
        assert Live(w, k);
      }
    }
  }

  lemma NextTimely(w: World, a: Action)
    requires Inv(w) && DistinctLive(w) && Timely(w)
    ensures Timely(Next(w, a))
  {
    if a.Fail? && Enabled(w, a) && Found(w, w.calls[a.call].msg.id).Some? {
      var j := w.table[w.calls[a.call].msg.id];
      assert Live(w, j) && Live(w, a.call);
    }
  }

  lemma {:induction false} FreshKeeps(w: World, acts: seq<Action>)
    requires Inv(w) && DistinctLive(w) && Timely(w) && FreshRun(w, acts)
    ensures var w' := RunFrom(w, acts); Inv(w') && DistinctLive(w') && Timely(w')
  {
    if acts != [] {
      var n := |acts| - 1;
      FreshKeeps(w, acts[..n]);
      NextKeeps(RunFrom(w, acts[..n]), acts[n]);
      NextDistinct(RunFrom(w, acts[..n]), acts[n]);
      NextTimely(RunFrom(w, acts[..n]), acts[n]);
    }
  }

  /** In every continuation with fresh ids all timeouts are timely. */
  ghost predicate StaysTimely(w: World) {
    forall more :: FreshRun(w, more) ==> Timely(RunFrom(w, more))
  }

  /** Timer `k` fails while request `j` is entered under the same id. */
  function Misfire(j: nat, k: nat): seq<Action> {
    [] + [StartTimer(k)] + [Fire(k)] + [StartTimer(j)] + [Store(j)] + [Fail(k)]
  }

  lemma RunSnoc(w: World, acts: seq<Action>, a: Action)
    ensures RunFrom(w, acts + [a]) == Next(RunFrom(w, acts), a)
    ensures FreshRun(w, acts) && !a.Transmit? ==> FreshRun(w, acts + [a])
  {
    assert (acts + [a])[..|acts + [a]| - 1] == acts;
  }

  lemma MisfireRun(w: World, j: nat, k: nat)
    ensures FreshRun(w, Misfire(j, k))
    ensures var fired := Next(Next(w, StartTimer(k)), Fire(k));
            RunFrom(w, Misfire(j, k)) == Next(Next(Next(fired, StartTimer(j)), Store(j)), Fail(k))
  {
    var one := [] + [StartTimer(k)];
    RunSnoc(w, [], StartTimer(k));
    RunSnoc(w, one, Fire(k));
    RunSnoc(w, one + [Fire(k)], StartTimer(j));
    RunSnoc(w, one + [Fire(k)] + [StartTimer(j)], Store(j));
    RunSnoc(w, one + [Fire(k)] + [StartTimer(j)] + [Store(j)], Fail(k));
  }

  /** A timer that is not over can fire. */
  lemma GetsFired(w: World, k: nat)
    requires TimerInv(w) && k < |w.calls| && w.calls[k].stage != Over
    ensures Next(Next(w, StartTimer(k)), Fire(k)) == SetStage(w, k, Fired(OnFailure(w.calls[k].timer.id, 1)))
  {
  }

  /** A request that was not entered yet can be, without changing a timer that has fired. */
  lemma GetsOpen(w: World, j: nat, k: nat)
    requires j < |w.calls| && k < |w.calls| && j != k && (!w.calls[j].stored || Open(w, j)) && w.calls[k].stage.Fired?
    ensures var w' := Next(Next(w, StartTimer(j)), Store(j));
            && |w'.calls| == |w.calls| && Open(w', j) && w'.calls[j].msg == w.calls[j].msg
            && w'.calls[k] == w.calls[k]
  {
  }

  /** The failure of a timer is reported for the request that is open under its id. */
  lemma FailReports(w: World, j: nat, k: nat)
    requires j < |w.calls| && Open(w, j) && k < |w.calls| && w.calls[k].msg.id == w.calls[j].msg.id
    requires w.calls[k].stage.Fired? && w.calls[k].stage.callback == OnFailure(w.calls[k].timer.id, 1)
    ensures Next(w, Fail(k)).outcomes == w.outcomes + [TimedOut(j, w.calls[j].msg, k)]
  {
  }

  /** Two requests with one id, of which one can be open while the timer of the other fails. */
  lemma MisfireHits(w: World, j: nat, k: nat)
    requires TimerInv(w) && j < |w.calls| && k < |w.calls| && j != k && w.calls[j].msg.id == w.calls[k].msg.id
    requires (!w.calls[j].stored || Open(w, j)) && w.calls[k].stage != Over
    ensures FreshRun(w, Misfire(j, k)) && !Timely(RunFrom(w, Misfire(j, k)))
  {
    MisfireRun(w, j, k);
    GetsFired(w, k);
    var fired := Next(Next(w, StartTimer(k)), Fire(k));
    GetsOpen(fired, j, k);
    var open := Next(Next(fired, StartTimer(j)), Store(j));
    FailReports(open, j, k);
    assert TimedOut(j, w.calls[j].msg, k) in Next(open, Fail(k)).outcomes;
  }

  /**
   The freshness condition is exact: after an action all timeouts are timely, now and in
   every continuation with fresh ids, if and only if the id it draws, if any, is fresh
   among the live requests.
   */
  lemma {:induction false} TimelyIff(w: World, a: Action)
    requires Inv(w) && DistinctLive(w) && Timely(w)
    ensures Fresh(w, a) <==> StaysTimely(Next(w, a))
  {
    var w' := Next(w, a);
    NextKeeps(w, a);
    if Fresh(w, a) {
      NextDistinct(w, a);
      NextTimely(w, a);
      forall more | FreshRun(w', more)
        ensures Timely(RunFrom(w', more))
      {
        FreshKeeps(w', more);
      }
    } else {
      var k :| 0 <= k < |w.calls| && Live(w, k) && w.calls[k].msg.id == a.msg.id;
      if w.calls[k].stage != Over {
        MisfireHits(w', |w.calls|, k);
      } else {
        MisfireHits(w', k, |w.calls|);
      }
    }
  }

  ghost predicate AlwaysTimely(acts: seq<Action>) {
    StaysTimely(Run(acts)) && (acts == [] || AlwaysTimely(acts[..|acts| - 1]))
  }

  /**
   Over every run: at every moment a timeout means, and will mean as long as fresh ids are
   drawn, that the request's own timer has failed, if and only if the run drew fresh ids.
   */
  lemma {:induction false} AlwaysTimelyIff(acts: seq<Action>)
    ensures AlwaysTimely(acts) <==> FreshRun(START, acts)
  {
    if acts == [] {
      forall more | FreshRun(START, more)
        ensures Timely(RunFrom(START, more))
      {
        FreshKeeps(START, more);
      }
    } else {
      var n := |acts| - 1;
      AlwaysTimelyIff(acts[..n]);
      if FreshRun(START, acts[..n]) {
        FreshKeeps(START, acts[..n]);
        TimelyIff(Run(acts[..n]), acts[n]);
      }
    }
  }

  lemma {:induction false} FreshReplacesNone(acts: seq<Action>)
    requires FreshRun(START, acts)
    ensures ReplacesNone(acts)
  {
    if acts != [] {
      var n := |acts| - 1;
      FreshReplacesNone(acts[..n]);
      FreshKeeps(START, acts[..n]);
      var w, a := Run(acts[..n]), acts[n];
      if Replaces(w, a) {
        assert Live(w, a.call) && Live(w, w.table[w.calls[a.call].msg.id]);
      }
    }
  }

  /** With fresh ids no request is forgotten either. */
  lemma {:induction false} FreshAccounts(acts: seq<Action>)
    requires FreshRun(START, acts)
    ensures Accounted(Run(acts)) && Timely(Run(acts))
  {
    FreshKeeps(START, acts);
    FreshReplacesNone(acts);
    AccountedIff(acts);
  }

  /** Two requests under one id: the timer of the first fires just before the second is entered. */
  function CollidingRun(msg: Message, other: Message, timeout: nat): seq<Action> {
    [] + [Transmit(msg, timeout)] + [StartTimer(0)] + [Store(0)]
    + [Transmit(other, timeout)] + [StartTimer(1)] + [Fire(0)] + [Store(1)] + [Fail(0)]
  }

  function FirstEntered(msg: Message, timeout: nat): World {
    World([Call(msg, RequestTimer(msg.id, timeout), Running, true)], map[msg.id as nat := 0], [], 0, 0)
  }

  function BothEntered(msg: Message, other: Message, timeout: nat): World {
    World([Call(msg, RequestTimer(msg.id, timeout), Fired(OnFailure(msg.id, 1)), true),
           Call(other, RequestTimer(other.id, timeout), Running, true)], map[msg.id as nat := 1], [], 0, 0)
  }

  lemma EntersFirst(msg: Message, timeout: nat)
    ensures Next(Next(Next(START, Transmit(msg, timeout)), StartTimer(0)), Store(0)) == FirstEntered(msg, timeout)
  {
  }

  lemma EntersBoth(msg: Message, other: Message, timeout: nat)
    requires msg.id == other.id
    ensures var started := Next(Next(FirstEntered(msg, timeout), Transmit(other, timeout)), StartTimer(1));
            Next(Next(started, Fire(0)), Store(1)) == BothEntered(msg, other, timeout)
  {
  }

  /** With the timer of the second request still running, the failure of the first is reported for the second. */
  lemma FirstFails(msg: Message, other: Message, timeout: nat)
    requires msg.id == other.id
    ensures var w := Next(BothEntered(msg, other, timeout), Fail(0));
            && w.outcomes == [TimedOut(1, other, 0)] && |w.calls| == 2
            && w.calls[0].stored && !Open(w, 0) && !Settled(w, 0)
  {
  }

  /** The first request is never heard of again; the second is reported before its own timer fires. */
  lemma CollidingRequests(msg: Message, other: Message, timeout: nat)
    requires msg.id == other.id
    ensures var w := Run(CollidingRun(msg, other, timeout));
            && w.outcomes == [TimedOut(1, other, 0)] && |w.calls| == 2
            && w.calls[0].stored && !Open(w, 0) && !Settled(w, 0)
  {
    var run := [] + [Transmit(msg, timeout)];
    RunSnoc(START, [], Transmit(msg, timeout));
    RunSnoc(START, run, StartTimer(0));
    RunSnoc(START, run + [StartTimer(0)], Store(0));
    EntersFirst(msg, timeout);
    run := run + [StartTimer(0)] + [Store(0)];
    RunSnoc(START, run, Transmit(other, timeout));
    RunSnoc(START, run + [Transmit(other, timeout)], StartTimer(1));
    run := run + [Transmit(other, timeout)] + [StartTimer(1)];
    RunSnoc(START, run, Fire(0));
    RunSnoc(START, run + [Fire(0)], Store(1));
    EntersBoth(msg, other, timeout);
    FirstFails(msg, other, timeout);
    RunSnoc(START, run + [Fire(0)] + [Store(1)], Fail(0));
  }

  // ------------------------------------------------- messages and their info

  /** What the application is told about a message, and what it hands back with an answer. */
  datatype Info = Info(headerType: HeaderType, messageId: Option<MsgId>)

  datatype SessionMessage = SessionMessage(message: Message, info: Info)

  /** The info that comes with a message from the network. */
  function InfoOf(m: Message): Info {
    Info(m.header, Some(m.id))
  }

  /** A request is forwarded with an info that makes the answer a reply. */
  function Forwarded(sm: SessionMessage): SessionMessage {
    sm.(info := sm.info.(headerType := Reply))
  }

  /** An answer carries the id of what it answers; without one it cannot be sent. */
  function AnswerTo(sm: SessionMessage): Option<Message> {
    if sm.info.messageId.Some? then Some(sm.message.(id := sm.info.messageId.value, header := Reply)) else None
  }

  /**
   Request and reply round trip: a request is forwarded by the answering session, the
   application answers with the info it was given, and the answer closes exactly the
   request that was asked.
   */
  lemma RequestReplyRoundTrip(w: World, k: nat, answer: Message)
    requires Inv(w) && k < |w.calls| && Open(w, k)
    ensures var asked := w.calls[k].msg.(header := Request);
            var given := Forwarded(SessionMessage(asked, InfoOf(asked)));
            var reply := AnswerTo(SessionMessage(answer, given.info));
            && given.info.headerType == Reply && given.message.payload == w.calls[k].msg.payload
            && reply.Some? && reply.value.payload == answer.payload && InfoOf(reply.value).headerType == Reply
            && Next(w, ReplyArrives(reply.value)).outcomes == w.outcomes + [Replied(k, reply.value)]
            && !Open(Next(w, ReplyArrives(reply.value)), k)
  {
  }

  /** The messages of the open requests, by id. */
  function OpenMessages(w: World): map<nat, Message> {
    map id | id in w.table && w.table[id] < |w.calls| :: w.calls[w.table[id]].msg
  }

  predicate InRange(w: World) {
    forall id :: id in w.table ==> w.table[id] < |w.calls|
  }

  lemma TakenMessages(w: World, id: nat)
    requires InRange(w)
    ensures InRange(TakeOut(w, id)) && OpenMessages(TakeOut(w, id)) == OpenMessages(w) - {id}
  {
    var w' := TakeOut(w, id);
    assert |w'.calls| == |w.calls| && forall j :: 0 <= j < |w.calls| ==> w'.calls[j].msg == w.calls[j].msg;
  }

  lemma EnteredShape(w: World, k: nat)
    requires k < |w.calls|
    ensures Entered(w, k).table == w.table[w.calls[k].msg.id := k] && |Entered(w, k).calls| == |w.calls|
    ensures forall j :: 0 <= j < |w.calls| ==> Entered(w, k).calls[j].msg == w.calls[j].msg
  {
  }

  lemma MoreMessages(w: World, w': World, k: nat)
    requires InRange(w) && k < |w.calls| == |w'.calls| && w'.table == w.table[w.calls[k].msg.id := k]
    requires forall j :: 0 <= j < |w.calls| ==> w'.calls[j].msg == w.calls[j].msg
    ensures InRange(w') && OpenMessages(w') == OpenMessages(w)[w.calls[k].msg.id := w.calls[k].msg]
  {
  }

  lemma EnteredMessages(w: World, k: nat)
    requires InRange(w) && k < |w.calls|
    ensures InRange(Entered(w, k)) && OpenMessages(Entered(w, k)) == OpenMessages(w)[w.calls[k].msg.id := w.calls[k].msg]
  {
    EnteredShape(w, k);
    MoreMessages(w, Entered(w, k), k);
  }

  lemma FailedMessages(w: World, k: nat)
    requires InRange(w) && TimerInv(w) && k < |w.calls| && w.calls[k].stage.Fired?
    ensures InRange(Failed(w, k)) && OpenMessages(Failed(w, k)) == OpenMessages(w) - {w.calls[k].msg.id}
  {
    var over := SetStage(w, k, Over);
    assert OpenMessages(over) == OpenMessages(w) by {
      assert forall j :: 0 <= j < |w.calls| ==> over.calls[j].msg == w.calls[j].msg;
    }
    TakenMessages(over, w.calls[k].msg.id);
  }

  /** The shared state of a session: the messages of the open requests, by id. */
  class RequestResponseInternal {
    var timers: map<nat, Message>
    ghost var world: World

    ghost predicate Valid()
      reads this
    {
      InRange(world) && timers == OpenMessages(world)
    }

    constructor ()
      ensures Valid() && world == START
    {
      timers, world := map[], START;
    }

    /**
     A message from the application: a reply is sent under the id of its request;
     anything else is a new request, whose first step is its transmission.
     */
    method OnMessageSouth(sm: SessionMessage, randomId: MsgId, timeout: nat) returns (toSlim: Option<Message>)
      requires Valid()
      modifies this
      ensures Valid()
      ensures sm.info.headerType == Reply ==> toSlim == AnswerTo(sm) && world == old(world)
      ensures sm.info.headerType == Reply ==> (toSlim.Some? <==> sm.info.messageId.Some?)
      ensures sm.info.headerType == Reply && toSlim.Some? ==>
                toSlim == Some(sm.message.(id := sm.info.messageId.value, header := Reply))
      ensures sm.info.headerType != Reply ==>
                && toSlim == Some(sm.message.(id := randomId, header := Request))
                && world == Next(old(world), Transmit(toSlim.value, timeout))
    {
      if sm.info.headerType == Reply {
        match sm.info.messageId {
          case Some(id) => toSlim := Some(sm.message.(id := id, header := Reply));
          case None => toSlim := None;
        }
      } else {
        var request := sm.message.(id := randomId, header := Request);
        toSlim := Some(request);
        world := Next(world, Transmit(request, timeout));
      }
    }

    method StartTimer(ghost k: nat)
      requires Valid() && Enabled(world, Action.StartTimer(k))
      modifies this
      ensures Valid() && world == Next(old(world), Action.StartTimer(k))
    {
      world := Next(world, Action.StartTimer(k));
    }

    /** The last step of sending: enter the request into the table. */
    method StoreRequest(msg: Message, ghost k: nat)
      requires Valid() && Enabled(world, Store(k)) && world.calls[k].msg == msg
      modifies this
      ensures Valid() && world == Next(old(world), Store(k))
    {
      timers := timers[msg.id := msg];
      EnteredMessages(world, k);
      world := Next(world, Store(k));
    }

    /**
     A message from the network: a reply is forwarded if and only if a request with its
     id is open, which it closes; a request is forwarded with the info for its answer;
     anything else is refused.
     */
    method OnMessageNorth(sm: SessionMessage) returns (toApp: Option<SessionMessage>)
      requires Valid()
      modifies this
      ensures Valid()
      ensures world == if sm.info.headerType == Reply then Next(old(world), ReplyArrives(sm.message)) else old(world)
      ensures sm.info.headerType == Reply ==>
                && toApp == (if sm.message.id in old(world).table then Some(sm) else None)
                && (toApp.Some? ==> world.outcomes ==
                                    old(world).outcomes + [Replied(old(world).table[sm.message.id], sm.message)])
      ensures sm.info.headerType == Request ==> toApp == Some(Forwarded(sm))
      ensures sm.info.headerType != Reply && sm.info.headerType != Request ==> toApp.None?
    {
      match sm.info.headerType {
        case Reply =>
          if sm.message.id in timers {
            timers := timers - {sm.message.id};
            toApp := Some(sm);
          } else {
            toApp := None;
          }
          TakenMessages(world, sm.message.id);
          world := Next(world, ReplyArrives(sm.message));
        case Request =>
          toApp := Some(sm.(info := sm.info.(headerType := Reply)));
        case _ =>
          toApp := None;
      }
    }

    /** The failure of a timer reports the stored request; without one the handler panics. */
    method OnFailure(messageId: MsgId, ghost k: nat) returns (toApp: Option<Message>)
      requires Valid() && TimerInv(world) && Enabled(world, Fail(k)) && world.calls[k].msg.id == messageId
      modifies this
      ensures Valid() && world == Next(old(world), Fail(k)) && world.unexpected == 0
      ensures toApp.Some? <==> messageId in old(world).table
      ensures toApp.Some? ==>
                world.outcomes == old(world).outcomes + [TimedOut(old(world).table[messageId], toApp.value, k)]
    {
      if messageId in timers {
        toApp := Some(timers[messageId]);
        timers := timers - {messageId};
      } else {
        toApp := None;
      }
      FailedMessages(world, k);
      world := Next(world, Fail(k));
    }
  }
}
