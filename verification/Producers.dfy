/**
 The producer side of a streaming session: numbering, the retransmission
 buffer, answers to retransmission requests and beacons.
 */
module Producers {
  import opened Messages
  import opened ProducerBuffers

  const BUFFER_CAPACITY: nat := 500

  /** Publication number `j` carries id `j`, wrapped to 32 bits. */
  ghost predicate Numbered(published: seq<Message>) {
    forall j :: 0 <= j < |published| ==> published[j].id == j % U32
  }

  /** The publication with this id among the last 500. */
  function Retained(published: seq<Message>, id: nat): Option<Message> {
    Find(LastOf(published, BUFFER_CAPACITY), id)
  }

  function ReplyTo(source: Agent, request: Message, payload: Blob, error: bool): Message {
    Message(source, request.source.agentType, Some(request.source.agentId), RtxReply, request.id,
            Some(payload), error, 0, Some(request.incomingConn))
  }

  /** The answer to a retransmission request; a retained publication without a payload gets none. */
  function RtxAnswer(published: seq<Message>, source: Agent, request: Message): Option<Message> {
    match Retained(published, request.id)
    case None => Some(ReplyTo(source, request, [], true))
    case Some(packet) =>
      if packet.payload.None? then None else Some(ReplyTo(source, request, packet.payload.value, false))
  }

  function NumberedFor(msg: Message, bidirectional: bool, id: MsgId): Message {
    msg.(header := if bidirectional then PubSub else Stream, id := id)
  }

  function BeaconFor(source: Agent, dstType: nat, bidirectional: bool, id: MsgId): Message {
    Message(source, dstType, None, if bidirectional then BeaconPubSub else BeaconStream, id, Some([]), false, 0, None)
  }

  lemma CloseIdsDiffer(i: nat, j: nat)
    requires i < j <= i + BUFFER_CAPACITY
    ensures i % U32 != j % U32
  {
  }

  lemma RecentDistinct(published: seq<Message>)
    requires Numbered(published)
    ensures DistinctIds(LastOf(published, BUFFER_CAPACITY))
  {
    var recent := LastOf(published, BUFFER_CAPACITY);
    var lo := |published| - |recent|;
    forall i, j | 0 <= i < j < |recent|
      ensures recent[i].id != recent[j].id
    {
      CloseIdsDiffer(lo + i, lo + j);
    }
  }

  /** A publication still among the last 500 is found under its own id. */
  lemma RetainedRecent(published: seq<Message>, j: nat)
    requires Numbered(published) && j < |published| <= j + BUFFER_CAPACITY
    ensures Retained(published, published[j].id) == Some(published[j])
  {
    var recent := LastOf(published, BUFFER_CAPACITY);
    RecentDistinct(published);
    assert recent[j - (|published| - |recent|)] == published[j];
    FindIff(recent, published[j].id, published[j]);
  }

  /** What is found under an id is one of the last 500 publications, and has that id. */
  lemma RetainedIs(published: seq<Message>, id: nat) returns (j: nat)
    requires Numbered(published) && Retained(published, id).Some?
    ensures j < |published| <= j + BUFFER_CAPACITY
    ensures Retained(published, id) == Some(published[j]) && published[j].id == id
  {
    var recent := LastOf(published, BUFFER_CAPACITY);
    RecentDistinct(published);
    var m := Retained(published, id).value;
    FindIff(recent, id, m);
    var k :| 0 <= k < |recent| && recent[k] == m;
    j := |published| - |recent| + k;
  }

  /** Up to the wrap of ids, a published id is refused exactly when 500 later messages evicted it. */
  lemma RefusedIffEvicted(published: seq<Message>, id: nat)
    requires Numbered(published) && id < |published| <= U32
    ensures Retained(published, id).None? <==> id + BUFFER_CAPACITY < |published|
    ensures Retained(published, id).Some? ==> Retained(published, id) == Some(published[id])
  {
    assert published[id].id == id;
    if |published| <= id + BUFFER_CAPACITY {
      RetainedRecent(published, id);
    } else if Retained(published, id).Some? {
      var j := RetainedIs(published, id);
    }
  }

  /**
   What a request for a published id is answered with, up to the wrap of ids: the error
   flag exactly when the id was evicted, nothing exactly when the publication is retained
   and has no payload, and otherwise the published payload.
   */
  lemma AnswerMeaning(published: seq<Message>, source: Agent, request: Message)
    requires Numbered(published) && request.id < |published| <= U32
    ensures var answer, p := RtxAnswer(published, source, request), published[request.id];
            && (answer.None? <==> |published| <= request.id + BUFFER_CAPACITY && p.payload.None?)
            && (answer.Some? ==> answer.value.header.RtxReply? && answer.value.id == request.id)
            && (answer.Some? ==> (answer.value.error <==> request.id + BUFFER_CAPACITY < |published|))
            && (answer.Some? && !answer.value.error ==> answer.value.payload == p.payload)
  {
    RefusedIffEvicted(published, request.id);
  }

  /** Every answer goes from the producer back to whoever asked, over the connection the request came on. */
  lemma AnswerAddress(published: seq<Message>, source: Agent, request: Message)
    ensures var answer := RtxAnswer(published, source, request);
            answer.Some? ==>
              && answer.value.source == source && AddressedTo(answer.value, request.source)
              && answer.value.forwardTo == Some(request.incomingConn)
              && answer.value.header.RtxReply? && answer.value.id == request.id
  {
  }

  /** A fresh number is never refused as a duplicate. */
  lemma NextIdIsNew(published: seq<Message>, msg: Message)
    requires Numbered(published) && msg.id == |published| % U32
    ensures Accept(published, BUFFER_CAPACITY, msg) == published + [msg]
    ensures Numbered(published + [msg])
  {
    if Retained(published, msg.id).Some? {
      var j := RetainedIs(published, msg.id);
      CloseIdsDiffer(j, |published|);
    }
  }

  lemma NextIdWraps(n: nat)
    ensures (n % U32 + 1) % U32 == (n + 1) % U32
  {
  }

  /** Wrapping `u32` decrement. */
  function Pred(id: MsgId): MsgId {
    if id == 0 then U32 - 1 else id - 1
  }

  lemma LastId(published: seq<Message>)
    requires Numbered(published) && published != []
    ensures published[|published| - 1].id == Pred(|published| % U32)
    ensures |published| < U32 ==> 0 < |published| % U32
  {
    PredWraps(|published|);
  }

  lemma PredWraps(n: nat)
    requires 0 < n
    ensures Pred(n % U32) == (n - 1) % U32
  {
  }

  class Producer {
    const source: Agent
    const bidirectional: bool
    const buffer: ProducerBuffer
    var nextId: MsgId
    var timerStarted: bool
    ghost var published: seq<Message>

    ghost predicate Valid()
      reads this, buffer, buffer.buffer
    {
      && buffer.Valid() && buffer.capacity == BUFFER_CAPACITY
      && buffer.log == published && Numbered(published)
      && nextId == |published| % U32
      && (timerStarted <==> published != [])
      && (published != [] ==> buffer.destinationName == published[0].dstType)
    }

    constructor (source: Agent, bidirectional: bool)
      ensures Valid() && published == []
      ensures this.source == source && this.bidirectional == bidirectional
      ensures fresh(buffer) && fresh(buffer.buffer)
    {
      this.source := source;
      this.bidirectional := bidirectional;
      buffer := new ProducerBuffer.WithCapacity(BUFFER_CAPACITY);
      nextId := 0;
      timerStarted := false;
      published := [];
    }

    method ProcessMessageFromApp(msg: Message) returns (sent: Message)
      requires Valid()
      modifies this, buffer, buffer.buffer
      ensures Valid() && buffer.buffer == old(buffer.buffer)
      ensures sent == NumberedFor(msg, bidirectional, |old(published)| % U32)
      ensures published == old(published) + [sent]
    {
      sent := msg.(header := if bidirectional then PubSub else Stream);
      sent := sent.(id := nextId);
      NextIdIsNew(published, sent);
      NextIdWraps(|published|);
      var ok := buffer.Push(sent);
      assert buffer.log == published + [sent];
      nextId := (nextId + 1) % U32;
      timerStarted := true;
      published := published + [sent];
    }

    method ProcessIncomingRtxRequest(msg: Message) returns (reply: Option<Message>)
      requires Valid()
      ensures reply == RtxAnswer(published, source, msg)
    {
      var packet := buffer.Get(msg.id);
      match packet {
        case Some(p) =>
          match p.payload {
            case Some(payload) =>
              reply := Some(Message(source, msg.source.agentType, Some(msg.source.agentId), RtxReply, msg.id,
                                    Some(payload), false, 0, Some(msg.incomingConn)));
            case None =>
              reply := None;
          }
        case None =>
          reply := Some(Message(source, msg.source.agentType, Some(msg.source.agentId), RtxReply, msg.id,
                                Some([]), true, 0, Some(msg.incomingConn)));
      }
    }

    /** The beacon names the last publication; `next_id - 1` underflows only when ids wrap. */
    method ProducerTimer() returns (beacon: Message)
      requires Valid() && timerStarted
      ensures beacon == BeaconFor(source, published[0].dstType, bidirectional, published[|published| - 1].id)
      ensures |published| < U32 ==> 0 < nextId
    {
      LastId(published);
      var lastMsgId := Pred(nextId);
      beacon := Message(source, buffer.destinationName, None,
                        if bidirectional then BeaconPubSub else BeaconStream, lastMsgId, Some([]), false, 0, None);
    }
  }
}
