/**
 * The transparent clock of go-tt/tt.go: HandlePacket, a per-message-type state
 * machine over two residence slots, in one-step or two-step mode (the transparent
 * clock of section 11.5 of IEEE 1588-2008).
 */
module Clock {
  import opened Wrappers
  import opened Ptp
  import opened Corrections

  /**
   * last_sync_residence_time and last_delayreq_residence_time (tt.go:20-23): the
   * residence of the latest Sync and of the latest DelayReq sent toward the network.
   */
  datatype Slots = Slots(lastSync: Correction, lastDelayReq: Correction)

  /** Both slots start at zero (main.go:24-25). */
  const INITIAL_SLOTS: Slots := Slots(0, 0)

  /** What HandlePacket returns, with the slots it leaves behind. */
  datatype Handled = Handled(kind: MessageType, bytes: seq<Byte>, slots: Slots)

  /**
   * HandlePacket (tt.go:124-185) as a function of the slots before the call.
   * `incoming` is true for a datagram from the local network (ingress) and false for
   * one from the tunnel that leaves toward the network (egress).
   */
  function Handle(codec: Codec, twoStep: bool, slots: Slots, incoming: bool, raw: seq<Byte>, now: Int64): Handled
  {
    match codec.decode(raw)
    case None => Handled(DECODE_FAILURE, raw, slots)
    case Some(m) =>
      if m.kind == Sync || m.kind == DelayReq then
        var c := CalculateCorrection(incoming, m.correction, now);
        var out := m.(correction := if twoStep && !incoming then ZERO_CORRECTION else c);
        var slots' :=
          if incoming then slots
          else if m.kind == Sync then slots.(lastSync := c)
          else slots.(lastDelayReq := c);
        Handled(m.kind, codec.encode(out), slots')
      else if m.kind == FollowUp && !incoming then
        Handled(m.kind, codec.encode(m.(correction := slots.lastSync)), slots)
      else if m.kind == DelayResp && incoming then
        Handled(m.kind, codec.encode(m.(correction := slots.lastDelayReq)), slots)
      else
        Handled(m.kind, raw, slots)
  }

  /** The TT state of one relay: the codec it uses, enable_twostep and the two slots. */
  class TransparentClock {
    const codec: Codec
    const twoStep: bool
    var lastSyncResidence: Correction
    var lastDelayReqResidence: Correction

    function State(): Slots
      reads this
    {
      Slots(lastSyncResidence, lastDelayReqResidence)
    }

    constructor (codec: Codec, twoStep: bool)
      ensures this.codec == codec && this.twoStep == twoStep
      ensures State() == INITIAL_SLOTS
    {
      this.codec := codec;
      this.twoStep := twoStep;
      lastSyncResidence := 0;
      lastDelayReqResidence := 0;
    }

    /**
     * HandlePacket: decode the datagram, rewrite its correctionField by message type
     * and direction, update the slot a Sync or DelayReq egress fills, and return the
     * message type with the bytes to forward. `now` is the clock reading.
     */
    method HandlePacket(incoming: bool, raw: seq<Byte>, now: Int64) returns (kind: MessageType, bytes: seq<Byte>)
      modifies this
      ensures Handle(codec, twoStep, old(State()), incoming, raw, now) == Handled(kind, bytes, State())
    {
      var parsed := codec.decode(raw);
      var zeroCorrection := NewCorrection(0);
      if parsed.None? {
        return DECODE_FAILURE, raw;
      }
      var pkt := parsed.value;
      bytes := raw;
      if pkt.kind == Sync || pkt.kind == DelayReq {
        var correction := CalculateCorrection(incoming, pkt.correction, now);
        if twoStep && !incoming {
          pkt := pkt.(correction := zeroCorrection);
        } else {
          pkt := pkt.(correction := correction);
        }
        if !incoming {
          if pkt.kind == Sync {
            lastSyncResidence := correction;
          } else {
            lastDelayReqResidence := correction;
          }
        }
        bytes := codec.encode(pkt);
      } else if pkt.kind == FollowUp {
        if !incoming {
          pkt := pkt.(correction := lastSyncResidence);
          bytes := codec.encode(pkt);
        }
      } else if pkt.kind == DelayResp {
        if incoming {
          pkt := pkt.(correction := lastDelayReqResidence);
          bytes := codec.encode(pkt);
        }
      }
      kind := pkt.kind;
    }
  }
}
