/**
 The retransmission buffer of a producer: a ring of the most recent messages
 with an index from message id to slot.  It is proved to be the list of the
 last `capacity` accepted messages.
 */
module ProducerBuffers {
  import opened Messages

  /** The last `n` elements of `log`, or all of them. */
  function LastOf(log: seq<Message>, n: nat): (r: seq<Message>)
    ensures |r| == if |log| <= n then |log| else n
  {
    if |log| <= n then log else log[|log| - n..]
  }

  /** The message with this id among `recent`. */
  function Find(recent: seq<Message>, id: nat): Option<Message> {
    if recent == [] then None
    else if recent[|recent| - 1].id == id then Some(recent[|recent| - 1])
    else Find(recent[..|recent| - 1], id)
  }

  ghost predicate DistinctIds(ms: seq<Message>) {
    forall i, j :: 0 <= i < j < |ms| ==> ms[i].id != ms[j].id
  }

  lemma {:induction false} FindIff(ms: seq<Message>, id: nat, m: Message)
    requires DistinctIds(ms)
    ensures Find(ms, id) == Some(m) <==> m in ms && m.id == id
  {
    if ms != [] {
      FindIff(ms[..|ms| - 1], id, m);
      assert m in ms <==> m in ms[..|ms| - 1] || m == ms[|ms| - 1];
    }
  }

  /** The log after a push: a message whose id is still in the ring is not taken again. */
  function Accept(log: seq<Message>, capacity: nat, m: Message): seq<Message> {
    if Find(LastOf(log, capacity), m.id).Some? then log else log + [m]
  }

  /** Slot of the `k`-th oldest message, the next slot to write being `next`. */
  function SlotFor(next: nat, count: nat, capacity: nat, k: nat): int {
    if count < capacity then k
    else if next + k < capacity then next + k
    else next + k - capacity
  }

  /** The ring holds the messages `recent`, oldest first, and nothing else. */
  ghost predicate RingSlots(buf: seq<Option<Message>>, next: nat, recent: seq<Message>) {
    && |recent| <= |buf|
    && (if |recent| < |buf| then next == |recent| else next < |buf| || |buf| == 0 == next)
    && (forall k :: 0 <= k < |recent| ==> buf[SlotFor(next, |recent|, |buf|, k)] == Some(recent[k]))
    && (forall i :: |recent| <= i < |buf| ==> buf[i].None?)
  }

  /** The index is the exact inverse of the occupied slots. */
  ghost predicate RingIndex(idx: map<nat, nat>, buf: seq<Option<Message>>) {
    && (forall id :: id in idx ==> idx[id] < |buf| && buf[idx[id]].Some? && buf[idx[id]].value.id == id)
    && (forall i :: 0 <= i < |buf| && buf[i].Some? ==> buf[i].value.id in idx && idx[buf[i].value.id] == i)
  }

  /** What the ring holds after one more message. */
  function Shift(recent: seq<Message>, capacity: nat, m: Message): seq<Message>
    requires 0 < capacity
  {
    if |recent| < capacity then recent + [m] else recent[1..] + [m]
  }

  function Bump(next: nat, capacity: nat): nat {
    if next + 1 == capacity then 0 else next + 1
  }

  lemma BumpIsModulo(next: nat, capacity: nat)
    requires next < capacity
    ensures (next + 1) % capacity == Bump(next, capacity)
  {
  }

  lemma ShiftLast(log: seq<Message>, capacity: nat, m: Message)
    requires 0 < capacity
    ensures LastOf(log + [m], capacity) == Shift(LastOf(log, capacity), capacity, m)
  {
  }

  lemma PushSlots(buf: seq<Option<Message>>, next: nat, recent: seq<Message>, m: Message)
    requires RingSlots(buf, next, recent) && buf != []
    ensures next < |buf|
    ensures buf[next] == if |recent| < |buf| then None else Some(recent[0])
    ensures RingSlots(buf[next := Some(m)], Bump(next, |buf|), Shift(recent, |buf|, m))
  {
  }

  lemma PushIndex(idx: map<nat, nat>, buf: seq<Option<Message>>, next: nat, m: Message)
    requires RingIndex(idx, buf) && next < |buf| && m.id !in idx
    ensures var kept := if buf[next].Some? then idx - {buf[next].value.id} else idx;
            RingIndex(kept[m.id := next], buf[next := Some(m)])
  {
  }

  /** Ring, index and log agree. */
  ghost predicate Ring(buf: seq<Option<Message>>, next: nat, idx: map<nat, nat>, log: seq<Message>) {
    RingSlots(buf, next, LastOf(log, |buf|)) && RingIndex(idx, buf)
  }

  lemma PushRing(buf: seq<Option<Message>>, next: nat, idx: map<nat, nat>, log: seq<Message>, m: Message)
    requires Ring(buf, next, idx, log) && buf != [] && m.id !in idx
    ensures next < |buf|
    ensures var kept := if buf[next].Some? then idx - {buf[next].value.id} else idx;
            Ring(buf[next := Some(m)], Bump(next, |buf|), kept[m.id := next], log + [m])
  {
    ShiftLast(log, |buf|, m);
    PushSlots(buf, next, LastOf(log, |buf|), m);
    PushIndex(idx, buf, next, m);
  }

  /** The ids in the ring are distinct. */
  lemma RingDistinct(buf: seq<Option<Message>>, next: nat, idx: map<nat, nat>, recent: seq<Message>)
    requires RingSlots(buf, next, recent) && RingIndex(idx, buf)
    ensures DistinctIds(recent)
  {
  }

  /** Every slot below the fill level belongs to one of the recent messages. */
  lemma SlotOwner(buf: seq<Option<Message>>, next: nat, recent: seq<Message>, i: nat)
    requires RingSlots(buf, next, recent) && i < |buf| && buf[i].Some?
    ensures buf[i].value in recent
  {
    var k := if |recent| < |buf| then i else if next <= i then i - next else i - next + |buf|;
    assert SlotFor(next, |recent|, |buf|, k) == i;
  }

  lemma RecentIndexed(buf: seq<Option<Message>>, next: nat, idx: map<nat, nat>, recent: seq<Message>, m: Message)
    requires RingSlots(buf, next, recent) && RingIndex(idx, buf) && m in recent
    ensures m.id in idx
  {
  }

  /** Looking an id up in the index finds the recent message. */
  lemma RingLookup(buf: seq<Option<Message>>, next: nat, idx: map<nat, nat>, recent: seq<Message>, id: nat)
    requires RingSlots(buf, next, recent) && RingIndex(idx, buf)
    ensures Find(recent, id) == if id in idx then buf[idx[id]] else None
  {
    var found := Find(recent, id);
    RingDistinct(buf, next, idx, recent);
    if found.Some? {
      FindIff(recent, id, found.value);
      RecentIndexed(buf, next, idx, recent, found.value);
    }
    if id in idx {
      SlotOwner(buf, next, recent, idx[id]);
      FindIff(recent, id, buf[idx[id]].value);
    }
  }

  class ProducerBuffer {
    const capacity: nat
    var next: nat
    var buffer: array<Option<Message>>
    var index: map<nat, nat>
    var destinationName: nat
    var destinationId: Option<nat>
    ghost var log: seq<Message>  // messages accepted since creation or the last clear

    ghost predicate Valid()
      reads this, buffer
    {
      buffer.Length == capacity && Ring(buffer[..], next, index, log)
    }

    constructor WithCapacity(capacity: nat)
      ensures Valid() && fresh(buffer)
      ensures this.capacity == capacity && log == []
    {
      this.capacity := capacity;
      next := 0;
      buffer := new Option<Message>[capacity](_ => None);
      index := map[];
      destinationName := 0;
      destinationId := None;
      log := [];
    }

    method Push(msg: Message) returns (ok: bool)
      requires Valid() && 0 < capacity
      modifies this, buffer
      ensures Valid() && buffer == old(buffer) && ok
      ensures log == Accept(old(log), capacity, msg)
      ensures destinationName == if old(log) == [] then msg.dstType else old(destinationName)
      ensures destinationId == if old(log) == [] then msg.dstId else old(destinationId)
    {
      ghost var log' := Accept(log, capacity, msg);
      assert log' == if msg.id in index then log else log + [msg] by {
        RingLookup(buffer[..], next, index, LastOf(log, capacity), msg.id);
      }
      NoteDestination(msg);
      if msg.id !in index {
        Store(msg);
      }
      assert log == log';
      ok := true;
    }

    /** The first message since creation or a clear fixes the destination. */
    method NoteDestination(msg: Message)
      requires Valid() && 0 < capacity
      modifies this`destinationName, this`destinationId
      ensures Valid()
      ensures destinationName == if log == [] then msg.dstType else old(destinationName)
      ensures destinationId == if log == [] then msg.dstId else old(destinationId)
    {
      if log != [] {
        ghost var recent := LastOf(log, capacity);
        RecentIndexed(buffer[..], next, index, recent, recent[0]);
      }
      if index == map[] {
        destinationName, destinationId := msg.dstType, msg.dstId;
      }
    }

    /** Overwrite the oldest slot and keep the index in step. */
    method Store(msg: Message)
      requires Valid() && 0 < capacity && msg.id !in index
      modifies this`next, this`index, this`log, buffer
      ensures Valid() && log == old(log) + [msg]
    {
      ghost var buf, slot, idx := buffer[..], next, index;
      PushRing(buf, slot, idx, log, msg);
      BumpIsModulo(next, capacity);
      match buffer[next] {
        case Some(message) => index := index - {message.id};
        case None =>
      }
      buffer[next] := Some(msg);
      index := index[msg.id := next];
      next := (next + 1) % capacity;
      log := log + [msg];
      assert index == (if buf[slot].Some? then idx - {buf[slot].value.id} else idx)[msg.id := slot];
      assert next == Bump(slot, |buf|);
      assert buffer[..] == buf[slot := Some(msg)];
    }

    method Clear()
      requires Valid()
      modifies this
      ensures Valid() && fresh(buffer) && log == []
      ensures destinationName == old(destinationName) && destinationId == old(destinationId)
    {
      buffer := new Option<Message>[capacity](_ => None);
      next := 0;
      index := map[];
      log := [];
    }

    method Get(id: nat) returns (m: Option<Message>)
      requires Valid()
      ensures m == Find(LastOf(log, capacity), id)
    {
      RingLookup(buffer[..], next, index, LastOf(log, capacity), id);
      if id in index {
        m := buffer[index[id]];
      } else {
        m := None;
      }
    }
  }
}
