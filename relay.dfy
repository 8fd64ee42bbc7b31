/**
 * One pass of each relay loop of tt.go: read a datagram, classify and correct it with
 * HandlePacket, and say where it goes. The sockets, the reads and writes and the loops
 * themselves are outside the model: a datagram read is a parameter and a datagram to
 * write is a result.
 */
module Relay {
  import opened Wrappers
  import opened Ptp
  import opened Clock
  import opened Routing

  /** A datagram to write on a unicast socket, with the port it is for. */
  datatype UnicastSend = UnicastSend(port: Port, bytes: seq<Byte>)

  /** A datagram to write on one of the four multicast sockets. */
  datatype MulticastSend = MulticastSend(dest: MulticastDestination, bytes: seq<Byte>)

  /**
   * One pass of ListenIncoming (tt.go:29-44): handle the datagram as ingress and forward
   * the resulting bytes to the tunnel, whatever their type.
   */
  method ForwardIncoming(clock: TransparentClock, raw: seq<Byte>, now: Int64) returns (toTunnel: seq<Byte>)
    modifies clock
    ensures var h := Handle(clock.codec, clock.twoStep, old(clock.State()), true, raw, now);
            toTunnel == h.bytes && clock.State() == h.slots
  {
    var _, b := clock.HandlePacket(true, raw, now);
    toTunnel := b;
  }

  /**
   * One pass of ListenOutgoingUnicast (tt.go:51-76): handle the datagram from the tunnel
   * as egress and send it to the peer's event or general port, or drop it.
   */
  method ForwardOutgoingUnicast(clock: TransparentClock, raw: seq<Byte>, now: Int64) returns (send: Option<UnicastSend>)
    modifies clock
    ensures var h := Handle(clock.codec, clock.twoStep, old(clock.State()), false, raw, now);
            && clock.State() == h.slots
            && (send.Some? <==> h.kind.Known())
            && (send.Some? ==> send.value == UnicastSend(RouteUnicast(h.kind).value, h.bytes))
  {
    var kind, b := clock.HandlePacket(false, raw, now);
    match RouteUnicast(kind)
    case Some(port) => send := Some(UnicastSend(port, b));
    case None => send := None;
  }

  /**
   * One pass of ListenOutgoingMulticast (tt.go:88-121): handle the datagram from the
   * tunnel as egress and send it to one of the four group and port pairs, or drop it.
   */
  method ForwardOutgoingMulticast(clock: TransparentClock, raw: seq<Byte>, now: Int64) returns (send: Option<MulticastSend>)
    modifies clock
    ensures var h := Handle(clock.codec, clock.twoStep, old(clock.State()), false, raw, now);
            && clock.State() == h.slots
            && (send.Some? <==> h.kind.Known())
            && (send.Some? ==> send.value == MulticastSend(RouteMulticast(h.kind).value, h.bytes))
  {
    var kind, b := clock.HandlePacket(false, raw, now);
    match RouteMulticast(kind)
    case Some(dest) => send := Some(MulticastSend(dest, b));
    case None => send := None;
  }
}
