/**
 What a receive buffer means: a map from id to the first copy received, a
 next-expected counter, a high-water mark and the set of ids declared lost.

 The Rust `ReceiverBuffer` keeps this information in a sliding vector; module
 `ReceiverBuffers` proves that the vector does exactly what these functions do.
 */
module ReorderWindow {
  import opened Messages

  /** The new window, the entries handed to the application, the ids to ask for again. */
  datatype Effect = Effect(window: Window, out: seq<Option<Message>>, rtx: seq<nat>)
  {
    /** This effect followed by `later`. */
    function Then(later: Effect): Effect {
      Effect(later.window, out + later.out, rtx + later.rtx)
    }
  }

  datatype Window = Window(
    started: bool,            // a first id has been fixed
    next: nat,                // id of the next entry owed to the application
    high: nat,                // ids in next..high have a slot
    held: map<nat, Message>,  // received out of order, by id
    lost: set<nat>)           // declared lost and not yet reported
  {
    ghost predicate Valid() {
      && next <= high <= U32
      && (!started ==> high == 0)
      && (forall p <- held :: next <= p < high && held[p].id == p)
      && (forall p <- lost :: p < U32)
    }

    /** No message is held back that could be handed over now. */
    ghost predicate Settled() {
      Valid() && next !in held
    }

    /** The copy held for id `p`, if any. */
    function Copy(p: nat): Option<Message> {
      if p in held then Some(held[p]) else None
    }

    predicate IsHole(p: nat) {
      next <= p < high && Copy(p).None?
    }

    /** The entry for `next`, when it can be released. */
    function Head(): Option<Option<Message>> {
      if next in held then Some(Some(held[next]))
      else if next in lost then Some(None)
      else None
    }

    function Advance(): Window {
      if next in held then
        this.(next := next + 1, held := held - {next})
      else
        this.(started := true, next := next + 1,
        high := if high <= next then next + 1 else high,
        lost := lost - {next})
    }

    /** Release entries from the front while they are held or known lost. */
    function Drain(): (r: Effect)
      ensures r.window.Head().None?
      ensures r.window.next == next + |r.out|
      ensures r.rtx == []
      decreases held.Keys, lost
    {
      match Head()
      case None => Effect(this, [], [])
      case Some(entry) =>
        var rest := Advance().Drain();
        Effect(rest.window, [entry] + rest.out, [])
    }

    function Receive(m: Message): Effect {
      if !started || m.id == next == high then
        Effect(this.(started := true, next := m.id + 1, high := m.id + 1), [Some(m)], [])
      else if m.id < next || m.id in held then
        Effect(this, [], [])
      else if m.id < high then
        this.(held := held[m.id := m]).Drain()
      else
        Effect(this.(held := held[m.id := m], high := m.id + 1), [], Range(high, m.id))
    }

    function Declare(ids: set<nat>): Window {
      this.(lost := lost + ids)
    }

    function Lose(id: MsgId): Effect {
      Declare({id}).Drain()
    }

    function Beacon(id: MsgId): Effect {
      if !started || id == next == high then
        Effect(this, [], [id])
      else if id < high then
        Effect(this, [], [])
      else
        Effect(this.(high := if high == next then id + 1 else id), [], Range(high, id + 1))
    }
  }

  const FRESH: Window := Window(false, 0, 0, map[], {})

  lemma {:induction false} DrainSettles(w: Window)
    requires w.Valid()
    ensures w.Drain().window.Settled()
    decreases w.held.Keys, w.lost
  {
    if w.Head().Some? {
      DrainSettles(w.Advance());
    }
  }
}
