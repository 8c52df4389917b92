# Peer discovery, millisecond timers and stream framing, modelled in Dafny

This project models three sequential pieces of the `xr` backend-service
framework (Go) and proves their contracts:

- **Peer discovery** (`Discovery`, `discovery.dfy`). A node (`Addr`)
  builds its own announce record (`AddrJson`) and two encoded buffers: the
  first announce (`cmd` 0) and the periodic announce (`cmd` 1). It keeps a
  two-level registry, service name → instance id → record. For each
  received datagram the handler does the following. A datagram that does
  not decode is dropped. The node's own echo (same name and id) is
  ignored. A first announce always makes the node re-broadcast its
  periodic buffer and store the record. Any other announce does both only
  when the peer is still unknown. Every datagram that is not an echo
  pushes one event. Multicast sends are kept as the log `sendLog`, and
  events pushed to the outbound channel as the log `addrChan`. The JSON
  codec is a parameter of the node (`Codec`).
- **Millisecond timers with lazy deletion** (`Timer`, `timer.dfy`).
  `AddMillisecond` appends a fresh valid timer. `DelMillisecond` only marks
  a timer invalid and clears it. `ScanMillisecond(now)` walks the list
  once with a cursor. It unlinks invalid timers, sends expired timers
  (`expire <= now`) to the timeout channel and unlinks them, and steps
  past the rest. Timers are objects, so deleting a timer that is still
  listed is seen by the next scan. The clock reading is the parameter
  `now`. The channel is the log `timerOutChan`.
- **Stream framing** (`HandleEvent`, `handle_event.dfy`).
  `OnParseProtoHeadClient` decides, from the buffered length, the header
  length, the declared packet length and the configured maximum, whether
  to wait for more bytes (0), to report a corrupt stream (-1), or to cut a
  packet of the declared length. Two stub handlers return 0.

`types.dfy` holds Go's fixed-width integers (`uint16`, `uint32`, `byte`),
the truncating conversion `uint32(n)` and `Option`.

Three behaviours of the code that the model keeps:

- The handler does not reject empty names, zero ids or port 0. A record
  with missing JSON fields decodes to zero values and is handled like any
  other record.
- `Start` may be called again. It empties the registry each time.
- A first announce from a peer that is already known is re-broadcast and
  overwrites the stored record.

## Model

| member | source | states |
|---|---|---|
| `Discovery.Find` | lib/addr/addr.go:135-144 | Gives no record (Go's nil) exactly when the name or the id level is missing. Otherwise gives the stored record. |
| `Discovery.Upsert` | lib/addr/addr.go:124-133 | Afterwards `Find(name, id)` gives the new record. Every other (name, id) lookup is unchanged. The set of names grows by `name` only. |
| `Discovery.UpsertIdempotent` | lib/addr/addr.go:124-133 | Storing the same record twice gives the same registry as storing it once. |
| `Discovery.UpsertPreservesWellKeyed` | lib/addr/addr.go:104-108 | Storing a record under its own (name, id) keeps every stored record under its own identity. |
| `Discovery.OwnAnnounceIsSelfEcho` | lib/addr/addr.go:99-101 | With a codec whose decode undoes its encode, the node's own record encoded with any `cmd` decodes to a self-echo. |
| `Discovery.Addr.constructor` | lib/addr/addr.go:10-18 | A node in Go's zero state: empty registry, zero self record, empty buffers and logs. The invariant holds. |
| `Discovery.Addr.Start` | lib/addr/addr.go:23-63 | Empties the registry. Sets the self record to the given fields with `cmd` 0. The first buffer is the encoding of self with `cmd` 0. The periodic buffer is the encoding with `cmd` 1. Either encode failing returns an error and leaves the later buffers as they were. Otherwise the transport's outcome is returned. The logs are untouched. |
| `Discovery.Addr.OwnBuffersAreSelfEchoes` | lib/addr/addr.go:38-55 | With a codec whose decode undoes its encode, both buffers that `Start` builds (first and periodic) decode to self-echoes. Handling either of them (multicast loopback) therefore falls under the self-echo case of `HandleAddrMulticast` and changes nothing. |
| `Discovery.Addr.DoAddrSYN` | lib/addr/multicast.go:133-139 | Appends exactly the given datagram to the send log. |
| `Discovery.Addr.Add` | lib/addr/addr.go:124-133 | The in-place update (the inner map is created when the name is new) leaves the registry equal to `Upsert` of the old one. |
| `Discovery.Addr.HandleAddrMulticast` | lib/addr/addr.go:92-118 | A decode failure returns an error and changes nothing. A self-echo changes nothing. Otherwise, for `cmd` 0 or an unknown peer: one send of the periodic buffer and an upsert. For a known peer with `cmd` ≠ 0: no send, and the stored record is not refreshed. Every non-echo appends exactly one event carrying the record, and the peer is known afterwards. The registry stays keyed by identity and never holds the node itself. |
| `Timer.Millisecond.constructor` | lib/timer/milliSecond.go:23-28 | A new timer is valid and holds the given callback, argument and expiry. |
| `Timer.Millisecond.IsValid` | lib/timer/milliSecond.go:17-19 | Returns exactly the timer's `valid` flag. |
| `Timer.Millisecond.Invalidate` | lib/timer/milliSecond.go:45-50 | Sets `valid` false, clears argument and callback to nil and expiry to 0. The new state does not depend on the old one, so a second call changes nothing. |
| `Timer.DelMillisecond` | lib/timer/milliSecond.go:40-42 | The timer ends invalid and cleared. It stays in the list until the next scan. |
| `Timer.TimerMgr.AddMillisecond` | lib/timer/milliSecond.go:22-37 | Returns a fresh valid timer with the given callback, argument and expiry. The list becomes the old list plus that timer at the back. Earlier entries are unchanged. |
| `Timer.TimerMgr.Visit` | lib/timer/milliSecond.go:59-71 | On the timer under the cursor: a timer that waits stays and the cursor advances. Any other timer is unlinked and the cursor stays. Only an expired valid timer is sent to the channel. |
| `Timer.TimerMgr.ScanMillisecond` | lib/timer/milliSecond.go:53-73 | The list becomes `Pending` of the entries as they were before the scan. The channel gets `Expired` of those entries appended. |
| `Timer.ExpiredExactly` | lib/timer/milliSecond.go:65-68 | A timer is sent exactly when it is valid and `expire <= now` (inclusive bound). No invalid timer is sent. |
| `Timer.PendingExactly` | lib/timer/milliSecond.go:60-72 | A timer stays exactly when it is valid and `now < expire`. No invalid timer remains after a scan. |
| `Timer.ScanPartitions` | lib/timer/milliSecond.go:58-72 | The list length before a scan equals the length after, plus the number sent, plus the number of invalid timers dropped. |
| `Types.ToUint32` | impl/service/reboot/handle_event/client.go:26 | Go's `uint32(n)` is the unique value below 2^32 congruent to `n` modulo 2^32: it equals `n` below 2^32 and never exceeds `n`. |
| `HandleEvent.OnParseProtoHeadClient` | impl/service/reboot/handle_event/client.go:25-46 | The result is -1, 0 or the declared length. A truncated length `uint32(length)` below the header length gives 0, and so does any buffered length below the header length. The result is -1 exactly when `uint32(length)` reaches the header length and the declared length is below the header length or above the maximum. In that case an accepted but incomplete packet gives 0, and a complete accepted one gives the declared length. So every input is covered. A positive result equals the declared length, lies between header length and maximum, and is at most the buffered length. |
| `HandleEvent.ParseProtoHead` | impl/service/reboot/handle_event/client.go:25-46 | The intended decision: the same answers, and every complete accepted packet at the front is cut, whatever the buffered length. |
| `HandleEvent.ParseAgreesBelowWrap` | impl/service/reboot/handle_event/client.go:26-29 | Below 2^32 buffered bytes the code as written and the intended decision agree. |
| `HandleEvent.WrapWindowStalls` | impl/service/reboot/handle_event/client.go:26-29 | For every input where `uint32(length)` is below the header length while a complete accepted packet is buffered, the code as written answers 0 and the intended decision cuts the packet. Such a length is at least 2^32. |
| `HandleEvent.WrappedLengthStallsStream` | impl/service/reboot/handle_event/client.go:26-29 | With 2^32 bytes buffered, a complete accepted 16-byte packet is answered with 0 ("need more"). The intended decision cuts it. |
| `HandleEvent.OnEventDisConnClient` | impl/service/reboot/handle_event/client.go:12-18 | Returns 0 whether or not the client is still connected. |
| `HandleEvent.OnEventPacketClient` | impl/service/reboot/handle_event/client.go:20-23 | Returns 0 for every packet. |

## Findings

| source | as written | input that shows it | evidently intended | confidence | as-written member | corrected member |
|---|---|---|---|---|---|---|
| impl/service/reboot/handle_event/client.go:26 | The buffered length is compared as `uint32(length)`, which drops all but the low 32 bits. | `length` = 2^32, header length 8, declared length 16, maximum 1024: the code returns 0 ("need more bytes") although a complete accepted packet is buffered. This assumes Go's `int` is 64 bits wide; with a 32-bit `int` the wrap cannot happen. Parsing stalls until enough further bytes arrive for the truncated length to reach the header length again (8 more here). It stalls for good only if the peer sends nothing more. | Compare the untruncated length with the header length, so a complete accepted packet is always cut at once. | low: not executed, and it needs at least 4 GiB buffered | `HandleEvent.WrapWindowStalls`, `HandleEvent.WrappedLengthStallsStream` (about `HandleEvent.OnParseProtoHeadClient`) | `HandleEvent.ParseProtoHead` |

## Left out

- The UDP transport in lib/addr/multicast.go is not modelled: resolving, binding, joining the group, multicast loopback, the receive and announce goroutines, their random 10–20 s interval, `Stop` and the wait group. It is I/O and concurrency. Its `doAddrSYN` is modelled only as an append to the send log (`DoAddrSYN`). The announce goroutine's sends of the first and periodic buffers are not modelled.
- `Addr.Stop` only delegates to the transport, so it is left out with it.
- The `OnEventAddrMulticast` callback and the outbound channel that `Start` stores are not modelled. addr.go never calls the callback. The channel is represented by the event log `addrChan`, and pushing to it never blocks in the model.
- JSON syntax is not modelled. `encoding/json` is the codec parameter. The round trip `decode(encode(d)) == d` is assumed, as `RoundTrips`, only where a lemma needs it. It is not proved.
- Go's zero `Addr` has a nil registry, and a datagram handled before `Start` would panic when `add` writes to it. The model starts from an empty registry.
- The timer list's mutex is dropped, since the model is sequential. `time.Now` and its conversion to milliseconds are replaced by the parameter `now`. Sending to `timerOutChan` never blocks.
- `Arg` (`interface{}`) and `Function` (`OnTimerFun`) are opaque `Ref` values with a `Nil`. Calling the callback is not part of this model. `expire` is an unbounded `int` because the scan only compares it.
- The `TimerMgr` struct, its start/stop and its second-level timers are defined outside lib/timer/milliSecond.go and are not part of this model. `container/list` is a sequence of timer references, and `Remove` is a splice at the cursor.
- `proto_head.GetPacketLength`, `proto_head.GProtoHeadLength` and the bench configuration's `PacketLengthMax` are not part of this model. The declared length, header length and maximum are parameters. The logging calls are left out.
- `OnParseProtoHeadClient` takes the buffered length as a non-negative integer. Go's `uint32(length)` of a negative `int` is out of scope. Its truncation of lengths of 2^32 and above is modelled.
- `OnEventDisConnClient` takes the client's `IsConn()` answer as a boolean. The `tcp.Client` type is not part of this model.
