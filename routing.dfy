/**
 * The egress routing tables of ListenOutgoingUnicast (tt.go:57-71) and
 * ListenOutgoingMulticast (tt.go:94-116): message type to destination, or drop.
 */
module Routing {
  import opened Wrappers
  import opened Ptp

  /** The two UDP ports of PTP over IPv4 (IEEE 1588-2008, Annex D.2). */
  datatype Port = EventPort | GeneralPort
  {
    function Number(): int {
      match this
      case EventPort => 319
      case GeneralPort => 320
    }
  }

  /** The two IPv4 multicast groups of PTP (IEEE 1588-2008, Annex D.3). */
  datatype Group = PeerGroup | NonPeerGroup
  {
    function Address(): seq<Byte> {
      match this
      case PeerGroup => [224, 0, 0, 107]
      case NonPeerGroup => [224, 0, 1, 129]
    }
  }

  datatype MulticastDestination = MulticastDestination(group: Group, port: Port)

  /**
   * Event messages, which are timestamped on sending and receipt (section 6.4 of
   * IEEE 1588-2008); their messageType codes lie below 0x8 (Table 19).
   */
  predicate IsEventMessage(t: MessageType) {
    t.Known() && t.Code() < 0x8
  }

  /** General messages: every other one of the ten PTP messages (codes 0x8 to 0xD). */
  predicate IsGeneralMessage(t: MessageType) {
    t.Known() && t.Code() >= 0x8
  }

  /** The messages of the peer delay mechanism (section 11.4 of IEEE 1588-2008). */
  predicate IsPeerDelayMessage(t: MessageType) {
    t == PDelayReq || t == PDelayResp || t == PDelayRespFollowUp
  }

  /** The unicast switch (tt.go:57-71): event port, general port, or dropped. */
  function RouteUnicast(t: MessageType): (port: Option<Port>)
    ensures port == Some(EventPort) <==> IsEventMessage(t)
    ensures port == Some(GeneralPort) <==> IsGeneralMessage(t)
    ensures port == None <==> !t.Known()
  {
    match t
    case Sync | DelayReq | PDelayReq | PDelayResp => Some(EventPort)
    case Announce | FollowUp | DelayResp | Signaling | Management | PDelayRespFollowUp => Some(GeneralPort)
    case Unrecognized(_) => None
  }

  /**
   * The multicast switch (tt.go:94-116): peer-delay messages go to the peer group,
   * all other known messages to the non-peer group, each on the port the unicast
   * switch picks for it; anything else is dropped.
   */
  function RouteMulticast(t: MessageType): (dest: Option<MulticastDestination>)
    ensures dest.Some? <==> t.Known()
    ensures dest.Some? ==> (dest.value.group == PeerGroup <==> IsPeerDelayMessage(t))
    ensures dest.Some? ==> RouteUnicast(t) == Some(dest.value.port)
  {
    match t
    case Sync | DelayReq => Some(MulticastDestination(NonPeerGroup, EventPort))
    case PDelayReq | PDelayResp => Some(MulticastDestination(PeerGroup, EventPort))
    case Announce | FollowUp | DelayResp | Signaling | Management => Some(MulticastDestination(NonPeerGroup, GeneralPort))
    case PDelayRespFollowUp => Some(MulticastDestination(PeerGroup, GeneralPort))
    case Unrecognized(_) => None
  }

  /** The event and general classes are disjoint and together are the ten PTP messages. */
  lemma EventAndGeneralPartitionKnown(t: MessageType)
    ensures !(IsEventMessage(t) && IsGeneralMessage(t))
    ensures t.Known() <==> IsEventMessage(t) || IsGeneralMessage(t)
    ensures IsEventMessage(t) <==> t in {Sync, DelayReq, PDelayReq, PDelayResp}
  {
  }

  /** The four multicast destinations each receive exactly the messages listed for them. */
  lemma MulticastDestinations(t: MessageType)
    ensures RouteMulticast(t) == Some(MulticastDestination(NonPeerGroup, EventPort)) <==> t in {Sync, DelayReq}
    ensures RouteMulticast(t) == Some(MulticastDestination(PeerGroup, EventPort)) <==> t in {PDelayReq, PDelayResp}
    ensures RouteMulticast(t) == Some(MulticastDestination(PeerGroup, GeneralPort)) <==> t == PDelayRespFollowUp
    ensures (RouteMulticast(t) == Some(MulticastDestination(NonPeerGroup, GeneralPort)))
              <==> t in {Announce, FollowUp, DelayResp, Signaling, Management}
  {
  }

  /** The tag of a datagram that did not decode names no PTP message, so both switches drop it. */
  lemma DecodeFailureDropped()
    ensures RouteUnicast(DECODE_FAILURE) == None
    ensures RouteMulticast(DECODE_FAILURE) == None
  {
  }

  /**
   * On the raw messageType byte, as Go switches on it: both tables drop exactly the
   * bytes that are not the code of one of the ten PTP messages.
   */
  lemma RoutesDropExactlyUnknownCodes(c: Byte)
    ensures RouteUnicast(FromCode(c)).None? <==> c !in KNOWN_CODES
    ensures RouteMulticast(FromCode(c)).None? <==> c !in KNOWN_CODES
  {
  }
}
