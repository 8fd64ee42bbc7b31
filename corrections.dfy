/**
 * The correction arithmetic of the transparent clock (go-tt/tt.go:187-213): the bit
 * cast that parks an ingress timestamp in the correctionField, the scaling of a
 * residence in nanoseconds to a correction, and CalculateCorrection itself.
 */
module Corrections {
  import opened Ptp

  /** 2^16: one nanosecond in correctionField units (IEEE 1588-2008, section 13.3.2.7). */
  const NANOS_SCALE: int := 0x1_0000

  /** 2^47: the smallest nanosecond count whose scaled value does not fit a signed 64-bit field. */
  const TOO_BIG_NANOS: int := 0x8000_0000_0000

  /** All bits but the sign bit set: the standard's "correction too big to be represented". */
  const TOO_BIG: Correction := 0x7FFF_FFFF_FFFF_FFFF

  const TWO_64: int := 0x1_0000_0000_0000_0000

  /**
   * UnixNanoToCorrection: the 64 bits of a nanosecond timestamp stored unchanged in a
   * correctionField. Both types are signed 64-bit integers, so the cast is the identity
   * on values; it is not a conversion of units.
   */
  function UnixNanoToCorrection(t: Int64): (c: Correction)
    ensures CorrectionToUnixNano(c) == t
  {
    t as Correction
  }

  /** CorrectionToUnixNano: the 64 bits of a correctionField read back as a nanosecond timestamp. */
  function CorrectionToUnixNano(c: Correction): (t: Int64)
  {
    c as Int64
  }

  /** The converse round trip: every correctionField survives the trip through a timestamp. */
  lemma CorrectionRoundTrip(c: Correction)
    ensures UnixNanoToCorrection(CorrectionToUnixNano(c)) == c
  {
  }

  /** Go's int64 subtraction, which wraps around modulo 2^64 instead of overflowing. */
  function Sub64(a: Int64, b: Int64): (d: Int64)
    ensures INT64_MIN <= a as int - b as int <= INT64_MAX ==> d as int == a as int - b as int
    ensures (a as int - b as int - d as int) % TWO_64 == 0
  {
    var x := a as int - b as int;
    (if x > INT64_MAX then x - TWO_64 else if x < INT64_MIN then x + TWO_64 else x) as Int64
  }

  /**
   * protocol.NewCorrection on the whole numbers of nanoseconds the clock passes it.
   * Below 2^47 ns the float64 arithmetic of the library is exact; at or above it the
   * scaled value does not fit 64 bits and the standard's "too big" value stands in.
   */
  function NewCorrection(ns: nat): (c: Correction)
    ensures c >= 0
    ensures ns < TOO_BIG_NANOS ==> c as int / NANOS_SCALE == ns && c as int % NANOS_SCALE == 0
    ensures c == TOO_BIG <==> ns >= TOO_BIG_NANOS
  {
    if ns < TOO_BIG_NANOS then (ns * NANOS_SCALE) as Correction else TOO_BIG
  }

  /** zero_correction in HandlePacket (tt.go:132). */
  const ZERO_CORRECTION: Correction := NewCorrection(0)

  /**
   * Nanoseconds between the ingress time stamped into a correctionField and `now`,
   * computed as tt.go:196 computes it, with int64 subtraction.
   */
  function Elapsed(now: Int64, stamped: Correction): Int64
  {
    Sub64(now, CorrectionToUnixNano(stamped))
  }

  /**
   * CalculateCorrection (tt.go:187-203). Ingress: the current time, bit cast into the
   * field. Egress: the residence since the stamped ingress time, clamped to zero when
   * it is not positive, scaled to correctionField units. `now` is the clock reading.
   */
  function CalculateCorrection(incoming: bool, field: Correction, now: Int64): (c: Correction)
    ensures incoming ==> CorrectionToUnixNano(c) == now
    ensures !incoming ==> c >= 0
    ensures !incoming ==> (c == ZERO_CORRECTION <==> Elapsed(now, field) <= 0)
    ensures !incoming && 0 < now as int - field as int < TOO_BIG_NANOS ==>
              c as int == (now as int - field as int) * NANOS_SCALE
    ensures !incoming && INT64_MIN <= now as int - field as int <= 0 ==> c == ZERO_CORRECTION
  {
    if incoming then
      UnixNanoToCorrection(now)
    else
      var residence := Elapsed(now, field);
      if residence <= 0 then NewCorrection(0) else NewCorrection(residence as nat)
  }
}
