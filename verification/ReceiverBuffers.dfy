/**
 The receive buffer of a streaming session: a sliding vector of optional
 messages whose first valid entry is `last_sent + 1`.  Every method is proved
 against the map-and-counter meaning given in `ReorderWindow`.
 */
module ReceiverBuffers {
  import opened Messages
  import opened ReorderWindow

  /** `usize::MAX`: no message has been handed to the application yet. */
  const NOT_STARTED: nat := U64 - 1

  /** Wrapping `usize` increment. */
  function Succ(n: nat): nat {
    if n == NOT_STARTED then 0 else n + 1
  }

  /** The content of the slot for id `p` when slot 0 belongs to `next`. */
  function SlotOf(next: nat, slots: seq<Option<Message>>, p: nat): Option<Message> {
    if next <= p < next + |slots| then slots[p - next] else None
  }

  /** `vec![None; n]` */
  function EmptySlots(n: nat): (s: seq<Option<Message>>)
    ensures |s| == n && forall e <- s :: e.None?
  {
    if n == 0 then [] else EmptySlots(n - 1) + [None]
  }

  /** The map a row of slots stands for. */
  function Held(next: nat, slots: seq<Option<Message>>): map<nat, Message> {
    map p | next <= p < next + |slots| && SlotOf(next, slots, p).Some? :: SlotOf(next, slots, p).value
  }

  lemma PopSlot(next: nat, slots: seq<Option<Message>>)
    requires slots != []
    ensures Held(next + 1, slots[1..]) == Held(next, slots) - {next}
  {
  }

  lemma FillSlot(next: nat, slots: seq<Option<Message>>, i: nat, m: Message)
    requires i < |slots|
    ensures Held(next, slots[i := Some(m)]) == Held(next, slots)[next + i := m]
  {
  }

  lemma AppendSlots(next: nat, slots: seq<Option<Message>>, more: seq<Option<Message>>)
    requires forall e <- more :: e.None?
    ensures Held(next, slots + more) == Held(next, slots)
  {
    forall p: nat
      ensures SlotOf(next, slots + more, p) == SlotOf(next, slots, p)
    {
      if next + |slots| <= p < next + |slots| + |more| {
        assert (slots + more)[p - next] in more;
      }
    }
  }

  /** The window that the four fields of a receive buffer stand for. */
  ghost function View(lastSent: nat, firstEntry: nat, buffer: seq<Option<Message>>, lost: set<nat>): Window
    requires firstEntry <= |buffer|
  {
    var next := Succ(lastSent);
    Window(lastSent != NOT_STARTED, next, next + |buffer| - firstEntry, Held(next, buffer[firstEntry..]), lost)
  }

  /** Taking the front slot moves the window on by one entry. */
  lemma ViewAdvance(lastSent: nat, first: nat, buffer: seq<Option<Message>>, lost: set<nat>)
    requires first < |buffer| && View(lastSent, first, buffer, lost).Valid()
    ensures var w := View(lastSent, first, buffer, lost);
            && (w.next in w.held <==> buffer[first].Some?)
            && (w.next in w.held ==> buffer[first] == Some(w.held[w.next]))
            && (w.next in w.held ==> View(Succ(lastSent), first + 1, buffer[first := None], lost) == w.Advance())
            && (w.next !in w.held ==> View(Succ(lastSent), first + 1, buffer, lost - {w.next}) == w.Advance())
  {
    var next := Succ(lastSent);
    PopSlot(next, buffer[first..]);
    assert SlotOf(next, buffer[first..], next) == buffer[first];
    assert buffer[first := None][first + 1..] == buffer[first..][1..] == buffer[first + 1..];
  }

  /** Empty slots at the end raise the high-water mark and nothing else. */
  lemma ViewGap(lastSent: nat, first: nat, buffer: seq<Option<Message>>, more: seq<Option<Message>>, lost: set<nat>)
    requires first <= |buffer| && forall e <- more :: e.None?
    ensures var w := View(lastSent, first, buffer, lost);
            View(lastSent, first, buffer + more, lost) == w.(high := w.high + |more|)
  {
    AppendSlots(Succ(lastSent), buffer[first..], more);
    assert (buffer + more)[first..] == buffer[first..] + more;
  }

  lemma ViewAppend(lastSent: nat, first: nat, buffer: seq<Option<Message>>, m: Message, lost: set<nat>)
    requires first <= |buffer|
    ensures var w := View(lastSent, first, buffer, lost);
            View(lastSent, first, buffer + [Some(m)], lost) == w.(held := w.held[w.high := m], high := w.high + 1)
  {
  }

  lemma ViewFill(lastSent: nat, first: nat, buffer: seq<Option<Message>>, p: nat, m: Message, lost: set<nat>)
    requires first <= |buffer|
    requires var w := View(lastSent, first, buffer, lost); w.next <= p < w.high
    ensures var w := View(lastSent, first, buffer, lost);
            var pos := p - w.next + first;
            && (p in w.held <==> buffer[pos].Some?)
            && View(lastSent, first, buffer[pos := Some(m)], lost) == w.(held := w.held[p := m])
  {
    var next := Succ(lastSent);
    FillSlot(next, buffer[first..], p - next, m);
    assert SlotOf(next, buffer[first..], p) == buffer[p - next + first];
    assert buffer[p - next + first := Some(m)][first..] == buffer[first..][p - next := Some(m)];
  }

  /** `goal` is what draining `w` yields, put behind the entries already released. */
  ghost predicate Owes(goal: Effect, released: seq<Option<Message>>, w: Window) {
    goal == Effect(w.Drain().window, released + w.Drain().out, [])
  }

  lemma Release(goal: Effect, released: seq<Option<Message>>, w: Window)
    requires Owes(goal, released, w) && w.Head().Some?
    ensures Owes(goal, released + [w.Head().value], w.Advance())
    ensures w.Valid() ==> w.Advance().Valid()
  {
  }

  class ReceiverBuffer {
    var lastSent: nat
    var firstEntry: nat
    var lostMsgs: set<nat>
    var buffer: seq<Option<Message>>

    /** The window this vector stands for. */
    ghost function Abs(): Window
      reads this
      requires firstEntry <= |buffer|
    {
      View(lastSent, firstEntry, buffer, lostMsgs)
    }

    /** The vector is in range and every occupied slot holds the message of its own id. */
    ghost predicate WellFormed()
      reads this
    {
      firstEntry <= |buffer| && Abs().Valid()
    }

    /** The invariant between public calls. */
    ghost predicate Valid()
      reads this
    {
      && WellFormed()
      && Abs().Settled()
      && (buffer == [] ==> firstEntry == 0)
      && (buffer != [] ==> firstEntry < |buffer|)
    }

    constructor ()
      ensures Valid() && Abs() == FRESH
    {
      lastSent := NOT_STARTED;
      firstEntry := 0;
      lostMsgs := {};
      buffer := [];
    }

    method OnReceivedMessage(msg: Message) returns (recv: seq<Option<Message>>, rtx: seq<MsgId>)
      requires Valid()
      modifies this
      ensures Valid()
      ensures Effect(Abs(), recv, rtx) == old(Abs()).Receive(msg)
    {
      recv, rtx := InternalOnReceivedMessage(msg.id, Some(msg));
    }

    method OnLostMessage(msgId: MsgId) returns (recv: seq<Option<Message>>)
      requires Valid()
      modifies this
      ensures Valid()
      ensures Effect(Abs(), recv, []) == old(Abs()).Lose(msgId)
    {
      lostMsgs := lostMsgs + {msgId};
      recv := ReleaseMsgs();
    }

    /** The entries computed for a beacon are dropped: there never are any. */
    method OnBeaconMessage(msgId: MsgId) returns (rtx: seq<MsgId>)
      requires Valid()
      modifies this
      ensures Valid()
      ensures Effect(Abs(), [], rtx) == old(Abs()).Beacon(msgId)
    {
      var recv;
      recv, rtx := InternalOnReceivedMessage(msgId, None);
    }

    method InternalOnReceivedMessage(msgId: MsgId, msg: Option<Message>)
      returns (recv: seq<Option<Message>>, rtx: seq<MsgId>)
      requires Valid()
      requires msg.Some? ==> msg.value.id == msgId
      modifies this
      ensures Valid()
      ensures Effect(Abs(), recv, rtx) ==
              if msg.Some? then old(Abs()).Receive(msg.value) else old(Abs()).Beacon(msgId)
    {
      recv, rtx := [], [];
      if lastSent == NOT_STARTED || (msgId == Succ(lastSent) && buffer == []) {
        if msg.Some? {
          lastSent := msgId;
          recv := [msg];
        } else {
          rtx := [msgId];
        }
        return;
      }
      if msgId <= lastSent {
        return;
      }
      if buffer == [] {
        rtx := OpenBuffer(msgId, msg);
      } else if msgId <= lastSent + (|buffer| - firstEntry) {
        if msg.None? {
          return;
        }
        recv := StoreInRange(msgId, msg.value);
      } else {
        rtx := ExtendBuffer(msgId, msg);
      }
    }

    /** A message whose id already has a slot. */
    method StoreInRange(msgId: MsgId, msg: Message) returns (recv: seq<Option<Message>>)
      requires Valid() && buffer != [] && msg.id == msgId
      requires lastSent < msgId <= lastSent + (|buffer| - firstEntry)
      modifies this
      ensures Valid()
      ensures msgId in old(Abs()).held ==> Effect(Abs(), recv, []) == Effect(old(Abs()), [], [])
      ensures var w := old(Abs());
              msgId !in w.held ==> Effect(Abs(), recv, []) == w.(held := w.held[msgId := msg]).Drain()
    {
      ghost var w := Abs();
      var pos := msgId - (lastSent + 1) + firstEntry;
      ViewFill(lastSent, firstEntry, buffer, msgId, msg, lostMsgs);
      if buffer[pos].Some? {
        return [];
      }
      buffer := buffer[pos := Some(msg)];
      assert Abs() == w.(held := w.held[msgId := msg]);
      recv := ReleaseMsgs();
    }

    /** A gap behind an empty buffer: one empty slot per missing id. */
    method OpenBuffer(msgId: MsgId, msg: Option<Message>) returns (rtx: seq<MsgId>)
      requires Valid() && buffer == [] && lastSent + 1 < msgId
      requires msg.Some? ==> msg.value.id == msgId
      modifies this
      ensures Valid()
      ensures msg.Some? ==> Abs() == old(Abs()).(held := map[msgId := msg.value], high := msgId + 1)
      ensures msg.Some? ==> rtx == Range(old(Abs()).high, msgId)
      ensures msg.None? ==> Abs() == old(Abs()).(high := msgId + 1)
      ensures msg.None? ==> rtx == Range(old(Abs()).high, msgId + 1)
    {
      firstEntry := 0;
      if msg.Some? {
        buffer := EmptySlots(msgId - (lastSent + 1));
        ViewGap(lastSent, 0, [], buffer, lostMsgs);
        assert [] + buffer == buffer;
        assert Abs() == old(Abs()).(high := msgId);
        ViewAppend(lastSent, 0, buffer, msg.value, lostMsgs);
        buffer := buffer + [msg];
        rtx := MissingIds(lastSent + 1, msgId);
      } else {
        buffer := EmptySlots(msgId - (lastSent + 1) + 1);
        ViewGap(lastSent, 0, [], buffer, lostMsgs);
        assert [] + buffer == buffer;
        rtx := MissingIds(lastSent + 1, msgId + 1);
      }
    }

    static method MissingIds(lo: nat, hi: nat) returns (rtx: seq<MsgId>)
      requires lo <= hi <= U32
      ensures rtx == Range(lo, hi)
    {
      rtx := [];
      for i := lo to hi
        invariant rtx == Range(lo, i)
      {
        rtx := rtx + [AsU32(i)];
      }
    }

    /** A message or beacon beyond the buffer: append an empty slot per missing id. */
    method ExtendBuffer(msgId: MsgId, msg: Option<Message>) returns (rtx: seq<MsgId>)
      requires Valid() && buffer != [] && lastSent + (|buffer| - firstEntry) < msgId
      requires msg.Some? ==> msg.value.id == msgId
      modifies this
      ensures Valid()
      ensures msg.Some? ==> Abs() == old(Abs()).(held := old(Abs()).held[msgId := msg.value], high := msgId + 1)
      ensures msg.Some? ==> rtx == Range(old(Abs()).high, msgId)
      ensures msg.None? ==> Abs() == old(Abs()).(high := msgId)
      ensures msg.None? ==> rtx == Range(old(Abs()).high, msgId + 1)
    {
      ghost var before := Abs();
      rtx := [];
      for i := lastSent + 1 + (|buffer| - firstEntry) to msgId
        invariant lastSent == old(lastSent) && firstEntry == old(firstEntry) <= |buffer|
        invariant Abs() == before.(high := i)
        invariant rtx == Range(before.high, i)
      {
        ViewGap(lastSent, firstEntry, buffer, [None], lostMsgs);
        buffer := buffer + [None];
        rtx := rtx + [AsU32(i)];
      }
      if msg.Some? {
        ViewAppend(lastSent, firstEntry, buffer, msg.value, lostMsgs);
        buffer := buffer + [msg];
      } else {
        rtx := rtx + [msgId];
      }
    }

    /** Hand over the front of the buffer, reset it when used up, then skip further lost ids. */
    method ReleaseMsgs() returns (ret: seq<Option<Message>>)
      requires WellFormed()
      modifies this
      ensures Valid()
      ensures Effect(Abs(), ret, []) == old(Abs()).Drain()
    {
      ghost var goal := Abs().Drain();
      ret := ReleaseFront(goal);
      if firstEntry == |buffer| {
        assert buffer[firstEntry..] == [];
        firstEntry := 0;
        buffer := [];
      }
      ret := ReleaseTrailing(goal, ret);
    }

    /** The first loop of the release: occupied and lost slots at the front. */
    method ReleaseFront(ghost goal: Effect) returns (ret: seq<Option<Message>>)
      requires WellFormed() && Owes(goal, [], Abs())
      modifies this
      ensures WellFormed() && Owes(goal, ret, Abs())
      ensures firstEntry < |buffer| ==> Abs().Head().None?
    {
      ret := [];
      var i := firstEntry;
      while i < |buffer|
        invariant WellFormed() && i == firstEntry && Owes(goal, ret, Abs())
      {
        ghost var w, released := Abs(), ret;
        ViewAdvance(lastSent, firstEntry, buffer, lostMsgs);
        if buffer[i].Some? {
          ret := ret + [buffer[i]];
          buffer := buffer[i := None];
          lastSent := Succ(lastSent);
          firstEntry := firstEntry + 1;
        } else {
          if Succ(lastSent) in lostMsgs {
            ret := ret + [None];
            lostMsgs := lostMsgs - {Succ(lastSent)};
            lastSent := Succ(lastSent);
            firstEntry := firstEntry + 1;
          } else {
            break;
          }
        }
        assert Abs() == w.Advance();
        Release(goal, released, w);
        i := i + 1;
      }
    }

    /** The second loop of the release: lost ids that follow the last slot. */
    method ReleaseTrailing(ghost goal: Effect, front: seq<Option<Message>>) returns (ret: seq<Option<Message>>)
      requires WellFormed() && Owes(goal, front, Abs())
      requires buffer == [] ==> firstEntry == 0
      requires buffer != [] ==> firstEntry < |buffer| && Abs().Head().None?
      modifies this
      ensures Valid() && goal == Effect(Abs(), ret, [])
    {
      ret := front;
      var stop := false;
      while !stop
        invariant WellFormed() && Owes(goal, ret, Abs())
        invariant buffer == [] ==> firstEntry == 0
        invariant buffer != [] ==> firstEntry < |buffer| && Abs().Head().None?
        invariant stop ==> Abs().Head().None?
        decreases |lostMsgs|, !stop
      {
        if Succ(lastSent) in lostMsgs {
          ghost var w := Abs();
          lastSent := Succ(lastSent);
          ret := ret + [None];
          lostMsgs := lostMsgs - {lastSent};
          assert Abs() == w.Advance();
          Release(goal, ret[..|ret| - 1], w);
        } else {
          stop := true;
        }
      }
    }
  }
}
