/**
 * The values the transparent clock works with: Go's int64, the PTP correctionField,
 * the ten PTP message types with their codes, a decoded message, and the external
 * codec that turns datagrams into messages and back.
 */
module Ptp {
  import opened Wrappers

  const INT64_MIN: int := -0x8000_0000_0000_0000
  const INT64_MAX: int := 0x7FFF_FFFF_FFFF_FFFF

  /** Go's int64, the type of time.Now().UnixNano(). */
  newtype Int64 = x: int | INT64_MIN <= x <= INT64_MAX

  /**
   * protocol.Correction: the signed 64-bit correctionField of the PTP header, which
   * counts nanoseconds multiplied by 2^16 (IEEE 1588-2008, section 13.3.2.7).
   */
  newtype Correction = x: int | INT64_MIN <= x <= INT64_MAX

  /** Go's byte (and uint8, the underlying type of protocol.MessageType). */
  newtype Byte = b: int | 0 <= b < 0x100

  /** The messageType codes of the ten PTP messages (IEEE 1588-2008, Table 19). */
  const KNOWN_CODES: set<Byte> := {0x0, 0x1, 0x2, 0x3, 0x8, 0x9, 0xA, 0xB, 0xC, 0xD}

  /** A byte that names none of the ten messages. */
  type UnknownCode = c: Byte | c !in KNOWN_CODES witness 0xFF

  /**
   * protocol.MessageType. Go keeps it as a uint8; here the ten PTP messages are
   * constructors and every other value, such as the decode-failure tag 255, is Unrecognized.
   */
  datatype MessageType =
    | Sync | DelayReq | PDelayReq | PDelayResp
    | FollowUp | DelayResp | PDelayRespFollowUp | Announce | Signaling | Management
    | Unrecognized(code: UnknownCode)
  {
    /** The messageType value on the wire. */
    function Code(): Byte {
      match this
      case Sync => 0x0
      case DelayReq => 0x1
      case PDelayReq => 0x2
      case PDelayResp => 0x3
      case FollowUp => 0x8
      case DelayResp => 0x9
      case PDelayRespFollowUp => 0xA
      case Announce => 0xB
      case Signaling => 0xC
      case Management => 0xD
      case Unrecognized(c) => c
    }

    predicate Known() {
      !Unrecognized?
    }
  }

  /** The message type a messageType value denotes; the inverse of Code. */
  function FromCode(c: Byte): (t: MessageType)
    ensures t.Code() == c
    ensures t.Known() <==> c in KNOWN_CODES
  {
    if c == 0x0 then Sync
    else if c == 0x1 then DelayReq
    else if c == 0x2 then PDelayReq
    else if c == 0x3 then PDelayResp
    else if c == 0x8 then FollowUp
    else if c == 0x9 then DelayResp
    else if c == 0xA then PDelayRespFollowUp
    else if c == 0xB then Announce
    else if c == 0xC then Signaling
    else if c == 0xD then Management
    else Unrecognized(c)
  }

  /** Distinct message types have distinct codes, so FromCode recovers every type. */
  lemma CodeRoundTrip(t: MessageType)
    ensures FromCode(t.Code()) == t
  {
  }

  /** The value HandlePacket returns when decoding fails (tt.go:135). */
  const DECODE_FAILURE: MessageType := Unrecognized(0xFF)

  /**
   * A decoded PTP message, reduced to what the transparent clock reads or writes:
   * its type and its header's correctionField. Every other header and body field
   * is kept, uninterpreted, in `rest`.
   */
  datatype Message = Message(kind: MessageType, correction: Correction, rest: seq<Byte>)

  /**
   * The PTP codec (protocol.DecodePacket and MarshalBinary of an external library,
   * which is not part of this model): decoding either fails or yields a message,
   * and a message can be encoded back to bytes.
   */
  datatype Codec = Codec(decode: seq<Byte> -> Option<Message>, encode: Message -> seq<Byte>)
  {
    /** What a correct codec promises: a message of a known type decodes from its own encoding. */
    ghost predicate RoundTrips() {
      forall m: Message | m.kind.Known() :: decode(encode(m)) == Some(m)
    }
  }
}
