/**
 What an application can rely on over any sequence of received, lost and
 beacon calls: ordered gap-free delivery, honest loss markers, complete and
 non-repeating loss detection.
 */
module WindowRuns {
  import opened Messages
  import opened ReorderWindow

  datatype Event = Recv(m: Message) | Lost(id: MsgId) | Beacon(id: MsgId)

  function Apply(w: Window, e: Event): Effect {
    match e
    case Recv(m) => w.Receive(m)
    case Lost(id) => w.Lose(id)
    case Beacon(id) => w.Beacon(id)
  }

  /** The final window and all outputs and requests of a run, in order. */
  function RunFrom(w: Window, es: seq<Event>): Effect {
    if es == [] then Effect(w, [], [])
    else
      var before := RunFrom(w, es[..|es| - 1]);
      before.Then(Apply(before.window, es[|es| - 1]))
  }

  function Run(es: seq<Event>): Effect {
    RunFrom(FRESH, es)
  }

  /** The first message with id `p` among the events. */
  function FirstCopy(es: seq<Event>, p: nat): Option<Message> {
    if es == [] then None
    else
      var earlier := FirstCopy(es[..|es| - 1], p);
      if earlier.Some? then earlier
      else Arriving(es[|es| - 1], p)
  }

  function Arriving(e: Event, p: nat): Option<Message> {
    if e.Recv? && e.m.id == p then Some(e.m) else None
  }

  predicate Declares(e: Event, p: nat) {
    e.Lost? && e.id == p
  }

  /** The id of the first entry of a run's output. */
  function BaseOf(r: Effect): int {
    r.window.next - |r.out|
  }

  // ---------------------------------------------------------------- one call

  /** No head-of-line hold-back: after every call the front slot is empty. */
  lemma {:induction false} ApplySettles(w: Window, e: Event)
    requires w.Settled()
    ensures Apply(w, e).window.Settled()
    ensures e.Lost? || (e.Recv? && w.IsHole(e.m.id)) ==> Apply(w, e).window.next !in Apply(w, e).window.lost
  {
    match e
    case Recv(m) =>
      if w.IsHole(m.id) {
        DrainSettles(w.(held := w.held[m.id := m]));
      }
    case Lost(id) => DrainSettles(w.Declare({id}));
    case Beacon(id) =>
  }

  lemma {:induction false} RunSettles(w: Window, es: seq<Event>)
    requires w.Settled()
    ensures RunFrom(w, es).window.Settled()
  {
    if es != [] {
      RunSettles(w, es[..|es| - 1]);
      ApplySettles(RunFrom(w, es[..|es| - 1]).window, es[|es| - 1]);
    }
  }

  /** What draining releases: for each id the copy held, or a marker for a lost one. */
  lemma {:induction false} DrainOutput(w: Window, i: nat)
    requires i < |w.Drain().out|
    ensures w.Drain().out[i] == w.Copy(w.next + i)
    ensures w.Drain().out[i].None? ==> w.next + i in w.lost
    decreases w.held.Keys, w.lost
  {
    if i > 0 {
      DrainOutput(w.Advance(), i - 1);
    }
  }

  /** What draining leaves behind: everything from the new front on. */
  lemma {:induction false} DrainRest(w: Window)
    requires w.Valid()
    ensures var r := w.Drain();
            && r.window.started == (w.started || r.out != [])
            && r.window.high == (if w.high < r.window.next then r.window.next else w.high)
            && r.window.lost <= w.lost
            && (forall p :: r.window.next <= p ==> r.window.Copy(p) == w.Copy(p))
            && (forall p :: r.window.next <= p && p in w.lost ==> p in r.window.lost)
    decreases w.held.Keys, w.lost
  {
    if w.Head().Some? {
      DrainRest(w.Advance());
    }
  }

  /** The copy of `p` known once `e` has been handled. */
  function Known(w: Window, e: Event, p: nat): Option<Message> {
    if p in w.held then Some(w.held[p]) else Arriving(e, p)
  }

  /** The id of the first entry that a call may release. */
  function StartOf(w: Window, e: Event): nat {
    if !w.started && e.Recv? then e.m.id else w.next
  }

  lemma {:induction false} CallFront(w: Window, e: Event)
    requires w.Settled()
    ensures var r := Apply(w, e); r.window.next == StartOf(w, e) + |r.out|
  {
  }

  /** Every released entry is the copy known for its id; a marker needs a declared loss. */
  lemma {:induction false} CallOutput(w: Window, e: Event, i: nat)
    requires w.Settled() && i < |Apply(w, e).out|
    ensures var f := StartOf(w, e);
            && Apply(w, e).out[i] == Known(w, e, f + i)
            && (Apply(w, e).out[i].None? ==> f + i in w.lost || Declares(e, f + i))
  {
    match e
    case Recv(m) =>
      if w.started && w.next <= m.id < w.high && m.id !in w.held {
        DrainOutput(w.(held := w.held[m.id := m]), i);
      }
    case Lost(id) => DrainOutput(w.Declare({id}), i);
    case Beacon(id) =>
  }

  /** What is kept for later: exactly the known copies, and only declared losses. */
  lemma {:induction false} CallState(w: Window, e: Event)
    requires w.Settled()
    ensures var r := Apply(w, e);
            && (w.started ==> r.window.started)
            && (r.window.started && !w.started ==> r.out != [])
            && (r.window.started || e.Recv? ==>
                  forall p :: r.window.next <= p ==> r.window.Copy(p) == Known(w, e, p))
            && (forall p :: p in r.window.lost ==> p in w.lost || Declares(e, p))
  {
    match e
    case Recv(m) =>
      if w.started && w.next <= m.id < w.high && m.id !in w.held {
        DrainRest(w.(held := w.held[m.id := m]));
      }
    case Lost(id) => DrainRest(w.Declare({id}));
    case Beacon(id) =>
  }

  // ------------------------------------------------------------------- runs

  /** The invariant of every run. */
  ghost predicate Inv(es: seq<Event>, r: Effect) {
    && r.window.Settled()
    && 0 <= BaseOf(r)
    && r.window.started == (r.out != [])
    && (!r.window.started ==> forall p: nat :: FirstCopy(es, p).None?)
    && (r.window.started ==> forall p: nat :: r.window.next <= p ==> FirstCopy(es, p) == r.window.Copy(p))
    && (forall p :: p in r.window.lost ==> DeclaredLost(es, p))
  }

  lemma {:induction false} RunInv(es: seq<Event>)
    ensures Inv(es, Run(es))
  {
    if es != [] {
      var es0, e := es[..|es| - 1], es[|es| - 1];
      var r0, r := Run(es0), Run(es);
      RunInv(es0);
      ApplySettles(r0.window, e);
      CallFront(r0.window, e);
      CallState(r0.window, e);
      assert forall x :: x in es0 ==> x in es;
      forall p: nat | r0.window.next <= p || !r0.window.started
        ensures FirstCopy(es, p) == Known(r0.window, e, p)
      {
      }
    }
  }

  /** Later events only append, and never move the first id. */
  lemma {:induction false} RunExtends(es: seq<Event>, j: nat)
    requires j <= |es|
    ensures Run(es[..j]).out <= Run(es).out
    ensures Run(es[..j]).out != [] ==> BaseOf(Run(es[..j])) == BaseOf(Run(es))
  {
    if j < |es| {
      var es0 := es[..|es| - 1];
      RunExtends(es0, j);
      assert es0[..j] == es[..j];
      RunInv(es0);
      CallFront(Run(es0).window, es[|es| - 1]);
    } else {
      assert es[..j] == es;
    }
  }

  /** Some event of a run declares `p` lost. */
  ghost predicate DeclaredLost(es: seq<Event>, p: nat) {
    exists e <- es :: Declares(e, p)
  }

  /** `entry` is the right one for id `p` at the end of the events `es`. */
  ghost predicate Honest(es: seq<Event>, p: nat, entry: Option<Message>) {
    && entry == FirstCopy(es, p)
    && (entry.Some? ==> entry.value.id == p)
    && (entry.None? ==> DeclaredLost(es, p))
  }

  lemma DeclaredSoFar(es: seq<Event>, p: nat)
    requires es != [] && (DeclaredLost(es[..|es| - 1], p) || Declares(es[|es| - 1], p))
    ensures DeclaredLost(es, p)
  {
    if Declares(es[|es| - 1], p) {
      assert es[|es| - 1] in es;
    } else {
      var x :| x in es[..|es| - 1] && Declares(x, p);
      assert x in es;
    }
  }

  /** What the window knows of an id it still owes is the first copy so far. */
  lemma {:induction false} KnownIsFirst(es: seq<Event>, p: nat)
    requires es != []
    requires var r := Run(es[..|es| - 1]); Inv(es[..|es| - 1], r) && (r.window.started ==> r.window.next <= p)
    ensures FirstCopy(es, p) == Known(Run(es[..|es| - 1]).window, es[|es| - 1], p)
  {
  }

  /** An entry released by the last event of a run. */
  lemma {:induction false} ReleasedByLast(es: seq<Event>, k: nat)
    requires es != [] && |Run(es[..|es| - 1]).out| <= k < |Run(es).out|
    ensures 0 <= BaseOf(Run(es))
    ensures Honest(es, BaseOf(Run(es)) + k, Run(es).out[k])
  {
    var es0, e := es[..|es| - 1], es[|es| - 1];
    var r0 := Run(es0);
    RunInv(es0);
    CallFront(r0.window, e);
    CallOutput(r0.window, e, k - |r0.out|);
    var p := StartOf(r0.window, e) + k - |r0.out|;
    assert p == BaseOf(Run(es)) + k;
    KnownIsFirst(es, p);
    assert Run(es).out[k] == Apply(r0.window, e).out[k - |r0.out|];
    if p in r0.window.lost || Declares(e, p) {
      DeclaredSoFar(es, p);
    }
  }

  /**
   Ordered, gap-free, duplicate-free and honest delivery.  The entries of a run
   stand for consecutive ids from `BaseOf` on, one entry each.  The entry released
   by event `j` is the first copy of its id among the events so far; it is a loss
   marker exactly when no copy has arrived by then, and then the id was declared lost.
   */
  lemma {:induction false} DeliveryTheorem(es: seq<Event>, j: nat, k: nat)
    requires j < |es|
    requires |Run(es[..j]).out| <= k < |Run(es[..j + 1]).out|
    ensures k < |Run(es).out| && 0 <= BaseOf(Run(es))
    ensures Honest(es[..j + 1], BaseOf(Run(es)) + k, Run(es).out[k])
  {
    assert es[..j + 1][..j] == es[..j];
    ReleasedByLast(es[..j + 1], k);
    RunExtends(es, j + 1);
  }

  /** Every entry of a run is released by some event of it, so the theorem covers all entries. */
  lemma {:induction false} ReleasingEvent(es: seq<Event>, k: nat) returns (j: nat)
    requires k < |Run(es).out|
    ensures j < |es| && |Run(es[..j]).out| <= k < |Run(es[..j + 1]).out|
  {
    var es0 := es[..|es| - 1];
    if k < |Run(es0).out| {
      j := ReleasingEvent(es0, k);
      assert es0[..j] == es[..j] && es0[..j + 1] == es[..j + 1];
    } else {
      j := |es| - 1;
      assert es[..j + 1] == es;
    }
  }

  // ----------------------------------------------------------- loss detection

  lemma {:induction false} CallHoles(w: Window, e: Event)
    requires w.Settled()
    ensures w.high <= Apply(w, e).window.high
    ensures forall p :: Apply(w, e).window.IsHole(p) ==> w.IsHole(p) || p in Apply(w, e).rtx
  {
    match e
    case Recv(m) =>
      if w.started && w.next <= m.id < w.high && m.id !in w.held {
        DrainRest(w.(held := w.held[m.id := m]));
      }
    case Lost(id) => DrainRest(w.Declare({id}));
    case Beacon(id) =>
  }

  /** Requests of one call: above the high-water mark, in increasing order, covering every new hole. */
  lemma {:induction false} CallRequests(w: Window, e: Event)
    requires w.Settled()
    ensures var r := Apply(w, e);
            && w.high <= r.window.high
            && (forall i :: 0 <= i < |r.rtx| ==> w.high <= r.rtx[i] < U32)
            && (forall i :: 0 <= i < |r.rtx| ==> r.rtx[i] < r.window.high || e == Beacon(r.rtx[i]))
            && (forall i, j :: 0 <= i < j < |r.rtx| ==> r.rtx[i] < r.rtx[j])
            && (forall p :: r.window.IsHole(p) ==> w.IsHole(p) || p in r.rtx)
  {
    CallHoles(w, e);
  }

  /**
   Exactly what a call asks for: a message or beacon ahead of the window asks for
   everything from the high-water mark up to it, a message without its own id; before
   the first message a beacon asks for its own id only.
   */
  lemma {:induction false} RequestedIff(w: Window, e: Event, p: nat)
    requires w.Settled()
    ensures p in Apply(w, e).rtx <==>
            match e
            case Recv(m) => w.started && w.high <= p < m.id
            case Lost(_) => false
            case Beacon(id) => if w.started then w.high <= p <= id else p == id
  {
  }

  /**
   A beacon asks for its own id again when it comes again, if and only if there was
   an open gap, or the id is the next one owed; otherwise the id has got a slot.
   */
  lemma {:induction false} BeaconRepeats(w: Window, id: MsgId)
    requires w.Settled() && w.started && w.high <= id
    ensures Apply(Apply(w, Beacon(id)).window, Beacon(id)).rtx == if w.next < w.high || id == w.high then [id] else []
  {
    var w' := Apply(w, Beacon(id)).window;
    assert Range(id, id + 1) == [id];
  }

  /** Every requested id has a slot or is the own id of a beacon, and every hole has been requested. */
  ghost predicate RequestInv(es: seq<Event>, r: Effect) {
    && (forall i :: 0 <= i < |r.rtx| ==> r.rtx[i] < U32)
    && (forall i :: 0 <= i < |r.rtx| ==> r.rtx[i] < r.window.high || Beacon(r.rtx[i]) in es)
    && (forall i, j :: 0 <= i < j < |r.rtx| && r.rtx[i] == r.rtx[j] ==> Beacon(r.rtx[i]) in es)
    && (forall p :: r.window.IsHole(p) ==> p in r.rtx)
  }

  /**
   Loss detection is complete and not repeated: at any time every hole has been
   requested, and an id requested twice is the own id of some beacon.
   */
  lemma {:induction false} RequestTheorem(es: seq<Event>)
    ensures RequestInv(es, Run(es))
  {
    if es != [] {
      var es0, e := es[..|es| - 1], es[|es| - 1];
      RequestTheorem(es0);
      RunInv(es0);
      CallRequests(Run(es0).window, e);
      assert forall x :: x in es0 ==> x in es;
      assert e in es;
    }
  }

  /** Without beacons no id is ever requested twice. */
  lemma {:induction false} BeaconFreeRequestsDistinct(es: seq<Event>)
    requires forall e <- es :: !e.Beacon?
    ensures forall i, j :: 0 <= i < j < |Run(es).rtx| ==> Run(es).rtx[i] != Run(es).rtx[j]
  {
    RequestTheorem(es);
  }

  /** What was owed, held or requested is delivered, held or requested later on. */
  lemma {:induction false} StaysCovered(es: seq<Event>, j: nat, p: nat)
    requires j <= |es| && Run(es[..j]).window.started
    requires var r := Run(es[..j]); p < r.window.next || p in r.window.held || p in r.rtx
    ensures var r := Run(es); r.window.started && (p < r.window.next || p in r.window.held || p in r.rtx)
  {
    if j < |es| {
      var es0, e := es[..|es| - 1], es[|es| - 1];
      assert es0[..j] == es[..j];
      StaysCovered(es0, j, p);
      RunInv(es0);
      CallFront(Run(es0).window, e);
      CallState(Run(es0).window, e);
      assert Run(es0).window.Copy(p).Some? && Run(es).window.next <= p ==> Run(es).window.Copy(p).Some?;
    } else {
      assert es[..j] == es;
    }
  }

  /**
   Complete detection: once the first id is fixed, whatever lies at or below an id that a
   message or a beacon names has been delivered, is held, or has been requested, from
   that call on and for ever.
   */
  lemma {:induction false} NamedTheorem(es: seq<Event>, j: nat, p: nat)
    requires j < |es| && !es[j].Lost? && Run(es[..j]).window.started
    requires p <= if es[j].Recv? then es[j].m.id else es[j].id
    ensures var r := Run(es); p < r.window.next || p in r.window.held || p in r.rtx
  {
    var es0, e := es[..j], es[j];
    assert es[..j + 1][..j] == es0;
    RunInv(es0);
    RequestTheorem(es0);
    var w := Run(es0).window;
    RequestedIff(w, e, p);
    CallFront(w, e);
    CallState(w, e);
    var w' := Apply(w, e).window;
    assert w.Copy(p).Some? && w'.next <= p ==> w'.Copy(p).Some?;
    StaysCovered(es, j + 1, p);
  }
}
