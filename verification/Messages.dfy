/**
 Messages, names and machine integers shared by all session models.

 A message is the record of the header fields the session code reads and
 writes, plus its payload.  Names are opaque values with equality.
 */
module Messages {

  datatype Option<+T> = None | Some(value: T)

  /** Number of values of a Rust `u32` and of a 64-bit `usize`. */
  const U32: nat := 0x1_0000_0000
  const U64: nat := 0x1_0000_0000_0000_0000

  type MsgId = x: nat | x < U32

  newtype Byte = x: int | 0 <= x < 256
  type Blob = seq<Byte>

  datatype Agent = Agent(agentType: nat, agentId: nat)

  /** The agent id that stands for "no id". */
  const DEFAULT_AGENT_ID: nat := U64 - 1

  /** The id put into a message for an agent. */
  function OptionalId(agentId: nat): Option<nat> {
    if agentId == DEFAULT_AGENT_ID then None else Some(agentId)
  }

  /** The id of the agent named by a message. */
  function IdOrDefault(agentId: Option<nat>): nat {
    if agentId.Some? then agentId.value else DEFAULT_AGENT_ID
  }

  /** The session header types of the wire protocol. */
  datatype HeaderType =
    | Unspecified
    | Fnf
    | FnfReliable
    | FnfAck
    | FnfDiscovery
    | FnfDiscoveryReply
    | Request
    | Reply
    | Stream
    | PubSub
    | RtxRequest
    | RtxReply
    | BeaconStream
    | BeaconPubSub

  datatype Message = Message(
    source: Agent,
    dstType: nat,
    dstId: Option<nat>,
    header: HeaderType,
    id: MsgId,
    payload: Option<Blob>,
    error: bool,
    incomingConn: nat,
    forwardTo: Option<nat>)

  /** The message is directed to this one agent. */
  predicate AddressedTo(m: Message, a: Agent) {
    m.dstType == a.agentType && m.dstId == Some(a.agentId)
  }

  /** The ids `lo, lo + 1, ..., hi - 1`. */
  function Range(lo: nat, hi: nat): (r: seq<nat>)
    requires lo <= hi
    ensures |r| == hi - lo
    ensures forall i :: 0 <= i < |r| ==> r[i] == lo + i
    ensures forall p :: p in r <==> lo <= p < hi
  {
    if lo == hi then [] else Range(lo, hi - 1) + [hi - 1]
  }

  /** The Rust cast `i as u32`. */
  function AsU32(i: nat): (r: MsgId)
    ensures i < U32 ==> r == i
  {
    i % U32
  }
}
