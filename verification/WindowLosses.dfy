/**
 How declared losses interact: which of them can be seen by the application,
 and why their order does not matter.
 */
module WindowLosses {
  import opened Messages
  import opened ReorderWindow
  import opened WindowRuns

  /** Equal up to declared losses that can no longer be reported. */
  ghost predicate Same(v: Window, w: Window) {
    && v.(lost := w.lost) == w
    && (forall p: nat :: w.next <= p && p !in w.held ==> (p in v.lost <==> p in w.lost))
  }

  lemma SameTransitive(u: Window, v: Window, w: Window)
    requires Same(u, v) && Same(v, w)
    ensures Same(u, w)
  {
  }

  lemma {:induction false} SameDrain(v: Window, w: Window)
    requires Same(v, w)
    ensures v.Drain().out == w.Drain().out
    ensures Same(v.Drain().window, w.Drain().window)
    decreases w.held.Keys, w.lost
  {
    if w.Head().Some? {
      SameDrain(v.Advance(), w.Advance());
    }
  }

  lemma {:induction false} SameApply(v: Window, w: Window, e: Event)
    requires v.Settled() && w.Settled() && Same(v, w)
    ensures Apply(v, e) == Apply(w, e).(window := Apply(v, e).window)
    ensures Same(Apply(v, e).window, Apply(w, e).window)
  {
    match e
    case Recv(m) =>
      if w.started && w.next <= m.id < w.high && m.id !in w.held {
        SameDrain(v.(held := v.held[m.id := m]), w.(held := w.held[m.id := m]));
      }
    case Lost(id) => SameDrain(v.Declare({id}), w.Declare({id}));
    case Beacon(id) =>
  }

  lemma {:induction false} SameRun(v: Window, w: Window, es: seq<Event>)
    requires v.Settled() && w.Settled() && Same(v, w)
    ensures RunFrom(v, es) == RunFrom(w, es).(window := RunFrom(v, es).window)
    ensures Same(RunFrom(v, es).window, RunFrom(w, es).window)
  {
    if es != [] {
      var es0 := es[..|es| - 1];
      SameRun(v, w, es0);
      RunSettles(v, es0);
      RunSettles(w, es0);
      SameApply(RunFrom(v, es0).window, RunFrom(w, es0).window, es[|es| - 1]);
    }
  }

  lemma {:induction false} RunOne(w: Window, e: Event)
    ensures RunFrom(w, [e]) == Apply(w, e)
  {
  }

  lemma {:induction false} RunStep(w: Window, es: seq<Event>, e: Event)
    ensures var r := RunFrom(w, es); RunFrom(w, es + [e]) == r.Then(Apply(r.window, e))
  {
  }

  lemma ThenAssociative(a: Effect, b: Effect, c: Effect)
    ensures a.Then(b).Then(c) == a.Then(b.Then(c))
  {
  }

  lemma {:induction false} RunSplit(w: Window, a: seq<Event>, b: seq<Event>)
    ensures var r := RunFrom(w, a); RunFrom(w, a + b) == r.Then(RunFrom(r.window, b))
  {
    if b == [] {
      assert a + b == a;
    } else {
      var b0, e := b[..|b| - 1], b[|b| - 1];
      var r := RunFrom(w, a);
      var s := RunFrom(r.window, b0);
      assert (a + b)[..|a + b| - 1] == a + b0;
      RunSplit(w, a, b0);
      ThenAssociative(r, s, Apply(s.window, e));
    }
  }

  /**
   Declaring lost an id that is buffered or already delivered is invisible to
   every later output and request, if and only if the next id owed to the
   application is not itself waiting to be reported lost.
   */
  lemma {:induction false} LateLossTheorem(w: Window, p: MsgId)
    requires w.Settled() && (p < w.next || p in w.held)
    ensures w.next !in w.lost <==>
            forall es: seq<Event> ::
              && RunFrom(w, [Lost(p)] + es).out == RunFrom(w, es).out
              && RunFrom(w, [Lost(p)] + es).rtx == RunFrom(w, es).rtx
  {
    var r := RunFrom(w, [Lost(p)]);
    RunOne(w, Lost(p));
    if w.next !in w.lost {
      ApplySettles(w, Lost(p));
      forall es: seq<Event>
        ensures RunFrom(w, [Lost(p)] + es).out == RunFrom(w, es).out
        ensures RunFrom(w, [Lost(p)] + es).rtx == RunFrom(w, es).rtx
      {
        RunSplit(w, [Lost(p)], es);
        SameRun(r.window, w, es);
      }
    } else {
      assert [Lost(p)] + [] == [Lost(p)];
      assert RunFrom(w, [Lost(p)] + []).out != RunFrom(w, []).out;
    }
  }

  /** Messages 5 and 6 are delivered while 7 is already declared lost: the front entry is waiting to be reported. */
  lemma FrontAlreadyLost(m: Message)
    ensures var r := Run([Recv(m.(id := 5)), Lost(7), Recv(m.(id := 6))]);
            r.window == Window(true, 7, 7, map[], {7}) && r.out == [Some(m.(id := 5)), Some(m.(id := 6))]
  {
    var five, six := Recv(m.(id := 5)), Recv(m.(id := 6));
    RunOne(FRESH, five);
    RunStep(FRESH, [five], Lost(7));
    assert [five] + [Lost(7)] == [five, Lost(7)];
    assert Run([five, Lost(7)]).window == Window(true, 6, 6, map[], {7});
    RunStep(FRESH, [five, Lost(7)], six);
    assert [five, Lost(7)] + [six] == [five, Lost(7), six];
  }

  /** The failing family is real: from there, declaring 5 lost turns a later delivery of 7 into a loss. */
  lemma LateLossCounterexample(m: Message)
    ensures var w := Run([Recv(m.(id := 5)), Lost(7), Recv(m.(id := 6))]).window;
            var seven := m.(id := 7);
            && w.Settled() && 5 < w.next
            && RunFrom(w, [Recv(seven)]).out == [Some(seven)]
            && RunFrom(w, [Lost(5)] + [Recv(seven)]).out == [None]
  {
    FrontAlreadyLost(m);
    var w := Window(true, 7, 7, map[], {7});
    RunOne(w, Recv(m.(id := 7)));
    RunOne(w, Lost(5));
    RunStep(w, [Lost(5)], Recv(m.(id := 7)));
    var w' := w.Declare({5});
    assert w'.Advance() == Window(true, 8, 8, map[], {5}) && w'.Advance().Head().None?;
    assert w.Lose(5) == Effect(w'.Advance(), [None], []);
  }

  // -------------------------------------------------------- order of losses

  function Losses(ids: seq<MsgId>): seq<Event> {
    seq(|ids|, i requires 0 <= i < |ids| => Lost(ids[i]))
  }

  function SetOf(ids: seq<MsgId>): set<nat> {
    set p: nat | p in ids
  }

  lemma DeclareAdvance(w: Window, id: MsgId)
    requires w.Head().Some?
    ensures w.Declare({id}).Head() == w.Head()
    ensures Same(w.Advance().Declare({id}), w.Declare({id}).Advance())
  {
  }

  lemma DeclareSame(v: Window, w: Window, id: MsgId)
    requires Same(v, w)
    ensures Same(v.Declare({id}), w.Declare({id}))
  {
  }

  /** `w` drained after a first drain of `w` and one more declared loss. */
  function Second(w: Window, id: MsgId): Effect {
    w.Drain().window.Declare({id}).Drain()
  }

  lemma SecondAdvance(w: Window, id: MsgId)
    requires w.Head().Some?
    ensures Second(w, id) == Second(w.Advance(), id)
    ensures w.Drain().out == [w.Head().value] + w.Advance().Drain().out
  {
  }

  lemma DeclaredAdvance(w: Window, id: MsgId)
    requires w.Head().Some?
    ensures var w' := w.Advance().Declare({id});
            && w.Declare({id}).Drain().out == [w.Head().value] + w'.Drain().out
            && Same(w'.Drain().window, w.Declare({id}).Drain().window)
  {
    DeclareAdvance(w, id);
    SameDrain(w.Advance().Declare({id}), w.Declare({id}).Advance());
  }

  /** Draining in two stages releases what draining at once releases. */
  lemma {:induction false} DrainMore(w: Window, id: MsgId)
    ensures w.Declare({id}).Drain().out == w.Drain().out + Second(w, id).out
    ensures Same(Second(w, id).window, w.Declare({id}).Drain().window)
    decreases w.held.Keys, w.lost
  {
    if w.Head().Some? {
      var w' := w.Advance();
      DrainMore(w', id);
      SecondAdvance(w, id);
      DeclaredAdvance(w, id);
      SameTransitive(Second(w, id).window, w'.Declare({id}).Drain().window, w.Declare({id}).Drain().window);
    }
  }

  lemma LoseAfter(v: Window, w: Window, id: MsgId)
    requires Same(v, w.Drain().window)
    ensures w.Declare({id}).Drain().out == w.Drain().out + v.Lose(id).out
    ensures Same(v.Lose(id).window, w.Declare({id}).Drain().window)
  {
    var u := w.Drain().window;
    DrainMore(w, id);
    DeclareSame(v, u, id);
    SameDrain(v.Declare({id}), u.Declare({id}));
    SameTransitive(v.Lose(id).window, u.Declare({id}).Drain().window, w.Declare({id}).Drain().window);
  }

  lemma LossesSnoc(w: Window, ids: seq<MsgId>, id: MsgId)
    ensures var r := RunFrom(w, Losses(ids)); RunFrom(w, Losses(ids + [id])) == r.Then(r.window.Lose(id))
    ensures w.Declare(SetOf(ids + [id])) == w.Declare(SetOf(ids)).Declare({id})
  {
    assert Losses(ids + [id]) == Losses(ids) + [Lost(id)];
    RunStep(w, Losses(ids), Lost(id));
    assert SetOf(ids + [id]) == SetOf(ids) + {id};
    assert w.lost + SetOf(ids + [id]) == w.lost + SetOf(ids) + {id};
  }

  /** Any non-empty sequence of declared losses acts like declaring them all at once. */
  lemma {:induction false} LossesTogether(w: Window, ids: seq<MsgId>)
    requires ids != []
    ensures RunFrom(w, Losses(ids)).out == w.Declare(SetOf(ids)).Drain().out
    ensures RunFrom(w, Losses(ids)).rtx == []
    ensures Same(RunFrom(w, Losses(ids)).window, w.Declare(SetOf(ids)).Drain().window)
  {
    var n := |ids| - 1;
    var ids0, id := ids[..n], ids[n];
    assert ids == ids0 + [id];
    LossesSnoc(w, ids0, id);
    var all0 := w.Declare(SetOf(ids0));
    var v := RunFrom(w, Losses(ids0)).window;
    if n == 0 {
      assert all0 == w && Losses(ids0) == [];
    } else {
      LossesTogether(w, ids0);
      LoseAfter(v, all0, id);
    }
  }

  /** If every hole is declared lost, draining empties the window. */
  lemma {:induction false} DrainEmpties(w: Window)
    requires w.Valid() && forall p :: w.IsHole(p) ==> p in w.lost
    ensures w.high <= w.Drain().window.next == w.Drain().window.high
  {
    DrainRest(w);
    var r := w.Drain();
    assert r.window.Copy(r.window.next).None?;
    assert r.window.next < w.high ==> w.IsHole(r.window.next);
  }

  /**
   Declaring lost, in any order, a sequence of ids that covers every hole not
   declared yet empties the window.  Ids `next..high` are handed over one entry each, in order:
   the held copy, or a marker for a hole.  Anything beyond is a marker.
   */
  lemma {:induction false} LossesEmptyWindow(w: Window, ids: seq<MsgId>)
    requires w.Settled() && ids != []
    requires forall p :: w.IsHole(p) ==> p in w.lost || p in SetOf(ids)
    ensures var r := RunFrom(w, Losses(ids));
            && r.window.next == r.window.high == w.next + |r.out|
            && w.high - w.next <= |r.out|
            && (forall i :: 0 <= i < |r.out| ==> r.out[i] == w.Copy(w.next + i))
  {
    var all := w.Declare(SetOf(ids));
    LossesTogether(w, ids);
    assert forall p :: all.IsHole(p) ==> w.IsHole(p);
    DrainEmpties(all);
    forall i | 0 <= i < |all.Drain().out|
      ensures all.Drain().out[i] == w.Copy(w.next + i)
    {
      DrainOutput(all, i);
    }
  }
}
