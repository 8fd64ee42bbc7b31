# go-tt transparent clock, modelled in Dafny

go-tt relays Precision Time Protocol (PTP) datagrams between a 5G tunnel and a local
Ethernet segment and acts as a transparent clock. The time a Sync or DelayReq spends
inside the relay (its residence) is reported in a correctionField. Nothing is added to
that field: it is replaced. On ingress a Sync or DelayReq gets the current time in its
field. On egress it gets its residence, or zero in two-step mode, and the matching
FollowUp or DelayResp gets the residence from a slot. Any correction accumulated
upstream is discarded, so relays cannot be chained. This project models the decision
logic of `go-tt/tt.go`:

- **Correction arithmetic** (`corrections.dfy`, module `Corrections`). The bit cast that
  parks an ingress timestamp in the 64-bit correctionField and reads it back. Go's wrapping
  int64 subtraction. `NewCorrection`, which scales nanoseconds by 2^16 as section 13.3.2.7
  of IEEE 1588-2008 defines the field. `CalculateCorrection`, which stamps on ingress and
  computes a residence clamped at zero on egress.
- **HandlePacket** (`clock.dfy`, module `Clock`). `Handle` is the specification function. The
  class `TransparentClock` holds the two residence slots and the two-step flag, and its method
  `HandlePacket` updates them in place. Its postcondition ties each call to `Handle`.
- **Properties of HandlePacket** (`clock_properties.dfy`, module `ClockProperties`). One lemma
  per message type and direction. Over any run of datagrams, each slot holds the residence of
  the latest egress message of its kind, and no slot is ever negative. A two-step scenario is
  proved end to end through a codec that round-trips.
- **Egress routing** (`routing.dfy`, module `Routing`). The unicast table (event port 319 or
  general port 320) and the multicast table (peer group 224.0.0.107 or non-peer group
  224.0.1.129, crossed with the port). Both are proved against the event/general split of
  section 6.4 and the peer-delay mechanism of section 11.4 of IEEE 1588-2008.
- **Relay steps** (`relay.dfy`, module `Relay`). One pass of each `Listen*` loop: handle one
  datagram, then forward it to the tunnel, or pick its egress destination or drop it.

Shared types are in `ptp.dfy` (module `Ptp`) and `wrappers.dfy` (module `Wrappers`).

On egress, the residence of a Sync or DelayReq is stored in its slot in one-step mode as
well as in two-step mode (tt.go:151-160), as the comment at tt.go:126-127 says. Only the
outgoing correctionField depends on the mode (tt.go:144-149). `ClockProperties.ModesDifferOnlyInEgressSyncDelayReq` states this.

External collaborators become parameters:
- The clock reading `time.Now().UnixNano()` is a `now: Int64` argument.
- The PTP codec is a `Codec` value made of two functions, `decode` and `encode`. The lemmas
  that read bytes back assume that it round-trips (`Codec.RoundTrips`).
- A datagram read from a socket is an argument, and a datagram to write is a result.

## Model

| member | source | states |
|---|---|---|
| `Corrections.UnixNanoToCorrection` | go-tt/tt.go:205-209 | storing a nanosecond timestamp in a correctionField and reading it back gives the same timestamp |
| `Corrections.CorrectionRoundTrip` | go-tt/tt.go:211-213 | the converse: every correctionField survives the trip through a timestamp unchanged |
| `Corrections.Sub64` | go-tt/tt.go:196 | int64 subtraction: the exact difference when it fits in 64 bits, and otherwise the in-range value congruent to it modulo 2^64 |
| `Corrections.NewCorrection` | go-tt/tt.go:201 | below 2^47 ns the correction divides by 2^16 back to exactly the nanoseconds, with no remainder, and so is non-negative. It is the model's stand-in "too big" value exactly when the nanoseconds are 2^47 or more, which is non-negative only by that choice |
| `Corrections.CalculateCorrection` | go-tt/tt.go:187-203 | ingress: the field reads back as exactly `now`. Egress: it is `zero_correction` exactly when the int64 elapsed time is not positive. It is (now - stamp) * 2^16 when that difference is positive and below 2^47. It is non-negative, which for an elapsed time of 2^47 ns or more rests on the model's "too big" value |
| `Ptp.FromCode` | go-tt/tt.go:57-71 | each messageType byte maps to the type whose code it is. It maps to one of the ten PTP messages exactly when the byte is one of their codes |
| `Ptp.CodeRoundTrip` | go-tt/tt.go:57-71 | message types and their codes are in one-to-one correspondence |
| `Clock.TransparentClock.constructor` | go-tt/main.go:24-25 | both residence slots start at zero, with the configured codec and two-step flag |
| `Clock.TransparentClock.HandlePacket` | go-tt/tt.go:124-185 | the returned type, the returned bytes and the new slots are those of the specification function `Handle` applied to the old slots |
| `ClockProperties.IngressStampsTime` | go-tt/tt.go:140-151 | an ingress Sync/DelayReq goes out with `UnixNanoToCorrection(now)` as its correction in both modes. Nothing else in the message changes, and neither slot changes |
| `ClockProperties.IngressStampReadsBack` | go-tt/tt.go:140-162 | with a round-tripping codec, the stamped datagram decodes to the same message, and its correctionField reads back as `now` |
| `ClockProperties.EgressStoresResidence` | go-tt/tt.go:142-162 | an egress Sync/DelayReq goes out with zero in two-step mode and with its residence in one-step mode. In both modes the residence goes into the slot of its kind and the other slot is kept. The residence is non-negative below 2^47 ns, and above that by the model's "too big" value |
| `ClockProperties.FollowUpCarriesSyncSlot` | go-tt/tt.go:164-170 | an egress FollowUp carries `last_sync_residence_time`. An ingress FollowUp passes through unchanged. Neither changes a slot |
| `ClockProperties.DelayRespCarriesDelayReqSlot` | go-tt/tt.go:171-177 | an ingress DelayResp carries `last_delayreq_residence_time`. An egress DelayResp passes through unchanged. Neither changes a slot |
| `ClockProperties.OthersPassThrough` | go-tt/tt.go:178-184 | Announce, Signaling, Management and the three peer-delay messages return their input bytes and type, with no slot changed |
| `ClockProperties.UndecodablePassesThrough` | go-tt/tt.go:131-136 | bytes that fail to decode return unchanged under tag 255, with no slot changed |
| `ClockProperties.ModesDifferOnlyInEgressSyncDelayReq` | go-tt/tt.go:144-161 | one-step and two-step mode leave the same slots and report the same type. Their bytes differ only for an egress Sync/DelayReq |
| `ClockProperties.RunKeepsLatestResidence` | go-tt/tt.go:151-160 | after any run of datagrams, in either mode, each slot holds the residence of the latest egress message of its kind, or its earlier value if there was none |
| `ClockProperties.LatestResidenceNonNegative` | go-tt/tt.go:196-201 | a residence recorded in a run is never negative when the slot started non-negative. For residences of 2^47 ns or more this rests on the model's "too big" value |
| `ClockProperties.SlotsNeverNegative` | go-tt/tt.go:196-201 | starting from zero slots, no run leaves a negative correction in either slot. For residences of 2^47 ns or more this rests on the model's "too big" value |
| `ClockProperties.FollowUpAfterRun` | go-tt/tt.go:164-170 | an egress FollowUp after a run carries the residence of that run's latest egress Sync, or zero if there was none |
| `ClockProperties.TwoStepScenario` | go-tt/tt.go:140-170 | a Sync stamped at t0 and sent two-step at t0 + 500000 ns goes out with correction 0. The Sync slot becomes `NewCorrection(500000)`, which is 500000 * 2^16, and the next egress FollowUp carries it |
| `Routing.RouteUnicast` | go-tt/tt.go:57-71 | event messages (codes below 0x8) go to port 319 and general messages to port 320. Anything else, including tag 255, is dropped |
| `Routing.RouteMulticast` | go-tt/tt.go:94-116 | exactly the ten PTP messages get a destination. The peer group gets exactly the peer-delay messages. Each message's port is its unicast port |
| `Routing.EventAndGeneralPartitionKnown` | go-tt/tt.go:57-71 | event and general messages are disjoint and together cover the ten PTP messages. The event messages are Sync, DelayReq, PDelayReq and PDelayResp |
| `Routing.MulticastDestinations` | go-tt/tt.go:94-116 | each of the four group/port destinations receives exactly the message types listed for it |
| `Routing.DecodeFailureDropped` | go-tt/tt.go:67-115 | the decode-failure tag reaches the default branch of both switches (tt.go:67-70 and tt.go:112-115) and is dropped |
| `Routing.RoutesDropExactlyUnknownCodes` | go-tt/tt.go:57-116 | on the raw messageType byte, both switches drop exactly the bytes that are not the code of one of the ten PTP messages |
| `Relay.ForwardIncoming` | go-tt/tt.go:29-44 | the ingress pass forwards the bytes HandlePacket returns to the tunnel, whatever their type, and leaves the slots HandlePacket leaves |
| `Relay.ForwardOutgoingUnicast` | go-tt/tt.go:51-76 | the egress pass sends HandlePacket's bytes to the port `RouteUnicast` picks, and sends nothing for an unrecognized type |
| `Relay.ForwardOutgoingMulticast` | go-tt/tt.go:88-121 | the egress pass sends HandlePacket's bytes to the group and port `RouteMulticast` picks, and sends nothing for an unrecognized type |

## Left out

- All of go-tt/main.go except the zero initial slots: flag parsing, address resolution, multicast joins, socket binding and the sleep loop are start-up and I/O.
- Sockets, reads and writes, write errors and the infinite loops of the three `Listen*` functions: one pass of each is modelled, with the datagram as a parameter.
- Read errors: the ingress loop skips the datagram (tt.go:33-36), but the egress loops do not check the read error (tt.go:53-55, 90-92) and still handle and route the fresh zeroed buffer. The egress passes are given whatever buffer the read left, so `raw` can stand for that buffer too.
- The fixed 1024-byte receive buffers: the source discards the byte count that `ReadFrom`/`ReadFromUDP` return (tt.go:31, 53, 90) and hands HandlePacket the whole 1024-byte buffer. So a pass-through or undecodable datagram goes out padded with zeros to 1024 bytes, and a longer datagram is cut off. The model does not build that buffer: `raw` stands for whatever bytes HandlePacket is given, which for the source is the whole padded buffer.
- Goroutines and mutexes: the model is sequential, so the unguarded slot reads at tt.go:167 and tt.go:174 and races between relay tasks are not captured.
- The PTP codec (`DecodePacket`, `MarshalBinary`) is an external library that is not part of this model. A decoded message keeps only its type, its correctionField and the uninterpreted remainder of its fields.
- Encode failures (tt.go:162, 168, 175, 180-182): the source logs the error and still forwards whatever `MarshalBinary` returned, because that result has already replaced `raw_pkt`. The total `Codec.encode` stands for that output too, so the model does not separate a failed encoding from a good one.
- The decoded packet is mutated through a pointer in the source. It is local to HandlePacket, so the model updates a message value instead.
- `Corrections.NewCorrection`: the library's own code is not part of this model. The model is exact below 2^47 ns, where float64 arithmetic on whole nanoseconds is exact. At 2^47 ns (about 39 hours) or more, it returns the "too big" value of section 13.3.2.7 of IEEE 1588-2008. Go's float-to-int64 conversion is implementation-dependent there, so whatever the library actually returns is not captured. This case is reachable: an egress Sync whose field holds an ordinary correction instead of a stamped time has an elapsed time of about 1.76e18 ns.
- Corrections.CalculateCorrection: its non-negativity on egress holds for elapsed times of 2^47 ns or more only because of the "too big" value chosen for `NewCorrection`. With an out-of-range conversion that gives a negative int64, the residence could be negative.
- ClockProperties.EgressStoresResidence: the same qualification applies to its `residence >= 0` clause.
- ClockProperties.LatestResidenceNonNegative: the same qualification applies to every residence it covers.
- ClockProperties.SlotsNeverNegative: the same qualification applies to both slots.
- The float64 conversion of the residence (tt.go:196, 201): below 2^47 ns it changes no value and no sign, and the model uses integers.
- `unsafe.Pointer` mechanics (tt.go:208, 212): the cast is the identity on the int64 range, because both types are signed 64-bit integers.
- `fmt.Println` diagnostics, including the warning on a non-positive residence.
