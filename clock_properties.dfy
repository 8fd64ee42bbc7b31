/**
 * What HandlePacket promises, message type by message type, and over a run of
 * datagrams: which correctionField goes out, and what the residence slots hold.
 */
module ClockProperties {
  import opened Wrappers
  import opened Ptp
  import opened Corrections
  import opened Clock

  /** Sync or DelayReq, the two messages protocol.SyncDelayReq decodes. */
  predicate IsSyncDelayReq(t: MessageType) {
    t == Sync || t == DelayReq
  }

  /**
   * On ingress a Sync or DelayReq leaves with the current time in its correctionField,
   * in one-step and two-step mode alike, and neither slot changes.
   */
  lemma IngressStampsTime(codec: Codec, twoStep: bool, slots: Slots, raw: seq<Byte>, now: Int64, m: Message)
    requires codec.decode(raw) == Some(m) && IsSyncDelayReq(m.kind)
    ensures Handle(codec, twoStep, slots, true, raw, now)
              == Handled(m.kind, codec.encode(m.(correction := UnixNanoToCorrection(now))), slots)
  {
  }

  /**
   * With a codec that round-trips, the stamped datagram decodes to the same message
   * whose correctionField reads back as exactly `now`.
   */
  lemma IngressStampReadsBack(codec: Codec, twoStep: bool, slots: Slots, raw: seq<Byte>, now: Int64, m: Message)
    requires codec.RoundTrips()
    requires codec.decode(raw) == Some(m) && IsSyncDelayReq(m.kind)
    ensures var out := codec.decode(Handle(codec, twoStep, slots, true, raw, now).bytes);
            out.Some? && out.value.kind == m.kind && out.value.rest == m.rest
            && CorrectionToUnixNano(out.value.correction) == now
  {
    var stamped := m.(correction := UnixNanoToCorrection(now));
    assert codec.decode(codec.encode(stamped)) == Some(stamped);
  }

  /**
   * On egress a Sync or DelayReq gets its residence computed; it goes out with zero in
   * two-step mode and with the residence in one-step mode, and in both modes the
   * residence is stored in the slot of its own kind while the other slot is kept.
   */
  lemma EgressStoresResidence(codec: Codec, twoStep: bool, slots: Slots, raw: seq<Byte>, now: Int64, m: Message)
    requires codec.decode(raw) == Some(m) && IsSyncDelayReq(m.kind)
    ensures var residence := CalculateCorrection(false, m.correction, now);
            var h := Handle(codec, twoStep, slots, false, raw, now);
            && h.kind == m.kind
            && h.bytes == codec.encode(m.(correction := if twoStep then ZERO_CORRECTION else residence))
            && (m.kind == Sync ==> h.slots == Slots(residence, slots.lastDelayReq))
            && (m.kind == DelayReq ==> h.slots == Slots(slots.lastSync, residence))
            && residence >= 0
  {
  }

  /** An egress FollowUp carries the Sync slot; an ingress FollowUp passes through; no slot changes. */
  lemma FollowUpCarriesSyncSlot(codec: Codec, twoStep: bool, slots: Slots, incoming: bool, raw: seq<Byte>, now: Int64, m: Message)
    requires codec.decode(raw) == Some(m) && m.kind == FollowUp
    ensures Handle(codec, twoStep, slots, incoming, raw, now)
              == if incoming then Handled(FollowUp, raw, slots)
                 else Handled(FollowUp, codec.encode(m.(correction := slots.lastSync)), slots)
  {
  }

  /** An ingress DelayResp carries the DelayReq slot; an egress DelayResp passes through; no slot changes. */
  lemma DelayRespCarriesDelayReqSlot(codec: Codec, twoStep: bool, slots: Slots, incoming: bool, raw: seq<Byte>, now: Int64, m: Message)
    requires codec.decode(raw) == Some(m) && m.kind == DelayResp
    ensures Handle(codec, twoStep, slots, incoming, raw, now)
              == if incoming then Handled(DelayResp, codec.encode(m.(correction := slots.lastDelayReq)), slots)
                 else Handled(DelayResp, raw, slots)
  {
  }

  /**
   * Announce, Signaling, Management and the three peer-delay messages leave with the
   * bytes they came with, in both directions, and change no slot.
   */
  lemma OthersPassThrough(codec: Codec, twoStep: bool, slots: Slots, incoming: bool, raw: seq<Byte>, now: Int64, m: Message)
    requires codec.decode(raw) == Some(m)
    requires m.kind in {Announce, Signaling, Management, PDelayReq, PDelayResp, PDelayRespFollowUp}
    ensures Handle(codec, twoStep, slots, incoming, raw, now) == Handled(m.kind, raw, slots)
  {
  }

  /** Bytes that do not decode come back unchanged under the tag 255, with no slot changed. */
  lemma UndecodablePassesThrough(codec: Codec, twoStep: bool, slots: Slots, incoming: bool, raw: seq<Byte>, now: Int64)
    requires codec.decode(raw).None?
    ensures Handle(codec, twoStep, slots, incoming, raw, now) == Handled(DECODE_FAILURE, raw, slots)
    ensures DECODE_FAILURE.Code() == 255
  {
  }

  /**
   * One-step and two-step mode keep the same slots and report the same type; the mode
   * changes nothing but the bytes of an egress Sync or DelayReq.
   */
  lemma ModesDifferOnlyInEgressSyncDelayReq(codec: Codec, slots: Slots, incoming: bool, raw: seq<Byte>, now: Int64)
    ensures var one := Handle(codec, false, slots, incoming, raw, now);
            var two := Handle(codec, true, slots, incoming, raw, now);
            && one.slots == two.slots && one.kind == two.kind
            && (one.bytes != two.bytes ==>
                  !incoming && codec.decode(raw).Some? && IsSyncDelayReq(codec.decode(raw).value.kind))
  {
  }

  /** A datagram handed to HandlePacket: its direction, its bytes and the clock reading then. */
  datatype Arrival = Arrival(incoming: bool, raw: seq<Byte>, now: Int64)

  /** The slots after HandlePacket has handled every arrival of `trace`, in order. */
  function Run(codec: Codec, twoStep: bool, slots: Slots, trace: seq<Arrival>): Slots
    decreases |trace|
  {
    if trace == [] then slots
    else
      var a := trace[|trace| - 1];
      Handle(codec, twoStep, Run(codec, twoStep, slots, trace[..|trace| - 1]), a.incoming, a.raw, a.now).slots
  }

  /**
   * The residence of the latest message of type `kind` in `trace` that left toward the
   * network, or `default` when there is none. It does not mention the slots.
   */
  function LatestResidence(codec: Codec, kind: MessageType, trace: seq<Arrival>, default: Correction): Correction
    decreases |trace|
  {
    if trace == [] then default
    else
      var a := trace[|trace| - 1];
      var d := codec.decode(a.raw);
      if !a.incoming && d.Some? && d.value.kind == kind then CalculateCorrection(false, d.value.correction, a.now)
      else LatestResidence(codec, kind, trace[..|trace| - 1], default)
  }

  /**
   * After any run, in either mode, each slot holds the residence of the latest message
   * of its kind that left toward the network, or what it held before the run.
   */
  lemma {:induction false} RunKeepsLatestResidence(codec: Codec, twoStep: bool, slots: Slots, trace: seq<Arrival>)
    ensures Run(codec, twoStep, slots, trace)
              == Slots(LatestResidence(codec, Sync, trace, slots.lastSync),
                       LatestResidence(codec, DelayReq, trace, slots.lastDelayReq))
    decreases |trace|
  {
    if trace != [] {
      RunKeepsLatestResidence(codec, twoStep, slots, trace[..|trace| - 1]);
    }
  }

  /** A residence found in a run is never negative, when the slot started non-negative. */
  lemma {:induction false} LatestResidenceNonNegative(codec: Codec, kind: MessageType, trace: seq<Arrival>, default: Correction)
    requires default >= 0
    ensures LatestResidence(codec, kind, trace, default) >= 0
    decreases |trace|
  {
    if trace != [] {
      LatestResidenceNonNegative(codec, kind, trace[..|trace| - 1], default);
    }
  }

  /** From the initial state, no run ever leaves a negative correction in a slot. */
  lemma SlotsNeverNegative(codec: Codec, twoStep: bool, trace: seq<Arrival>)
    ensures Run(codec, twoStep, INITIAL_SLOTS, trace).lastSync >= 0
    ensures Run(codec, twoStep, INITIAL_SLOTS, trace).lastDelayReq >= 0
  {
    RunKeepsLatestResidence(codec, twoStep, INITIAL_SLOTS, trace);
    LatestResidenceNonNegative(codec, Sync, trace, 0);
    LatestResidenceNonNegative(codec, DelayReq, trace, 0);
  }

  /**
   * An egress FollowUp handled after a run from the initial state goes out carrying the
   * residence of the latest egress Sync of that run (zero if there was none): the slot
   * pairs it with whichever Sync left last, not with its own.
   */
  lemma FollowUpAfterRun(codec: Codec, twoStep: bool, trace: seq<Arrival>, raw: seq<Byte>, now: Int64, m: Message)
    requires codec.decode(raw) == Some(m) && m.kind == FollowUp
    ensures Handle(codec, twoStep, Run(codec, twoStep, INITIAL_SLOTS, trace), false, raw, now).bytes
              == codec.encode(m.(correction := LatestResidence(codec, Sync, trace, 0)))
  {
    RunKeepsLatestResidence(codec, twoStep, INITIAL_SLOTS, trace);
  }

  /**
   * The two-step scenario: a Sync stamped on ingress at t0 by one relay and sent on
   * egress at t0 + 500000 ns by a two-step relay leaves with a zero correctionField;
   * the FollowUp that the second relay sends next carries 500000 ns.
   */
  lemma TwoStepScenario(codec: Codec, ingressSlots: Slots, egressSlots: Slots, sync: Message, syncRaw: seq<Byte>,
                        followUp: Message, followUpRaw: seq<Byte>, t0: Int64, t1: Int64, t2: Int64)
    requires codec.RoundTrips()
    requires codec.decode(syncRaw) == Some(sync) && sync.kind == Sync
    requires codec.decode(followUpRaw) == Some(followUp) && followUp.kind == FollowUp
    requires t1 as int == t0 as int + 500000
    ensures var stamped := Handle(codec, true, ingressSlots, true, syncRaw, t0);
            var sent := Handle(codec, true, egressSlots, false, stamped.bytes, t1);
            var next := Handle(codec, true, sent.slots, false, followUpRaw, t2);
            && codec.decode(sent.bytes) == Some(sync.(correction := 0))
            && sent.slots.lastSync == NewCorrection(500000)
            && codec.decode(next.bytes) == Some(followUp.(correction := NewCorrection(500000)))
            && NewCorrection(500000) as int == 500000 * NANOS_SCALE
  {
    var staged := sync.(correction := UnixNanoToCorrection(t0));
    assert codec.decode(codec.encode(staged)) == Some(staged);
    var zeroed := sync.(correction := 0);
    assert codec.decode(codec.encode(zeroed)) == Some(zeroed);
    var carried := followUp.(correction := NewCorrection(500000));
    assert codec.decode(codec.encode(carried)) == Some(carried);
  }
}
