/** Peer discovery over UDP multicast: the self descriptor and its two
    announce buffers, the two-level registry of known peers, and the
    handler run once per received datagram.

    The UDP socket is not modelled: every datagram the node multicasts
    is appended to `sendLog`, and every event pushed to the outbound
    channel is appended to `addrChan`.  The JSON codec is a parameter
    of the node (`Codec`). */
module Discovery {
  import opened Types

  /** The announce record exchanged between peers.
      `cmd` is 0 for the first announce and 1 for periodic announces. */
  datatype AddrJson = AddrJson(
    cmd: uint32,
    name: string,
    id: uint32,
    ip: string,
    port: uint16,
    data: string)

  /** Go's zero value of the record. */
  const ZeroAddrJson := AddrJson(0, "", 0, "", 0, "")

  /** The encoding/json library, seen from this node: marshalling may
      fail and unmarshalling fails on malformed input. */
  datatype Codec = Codec(
    marshal: AddrJson -> Option<Bytes>,
    unmarshal: Bytes -> Option<AddrJson>)

  /** A codec whose unmarshal undoes its marshal. */
  ghost predicate RoundTrips(codec: Codec)
  {
    forall aj :: codec.marshal(aj).Some? ==> codec.unmarshal(codec.marshal(aj).value) == Some(aj)
  }

  datatype Error = MarshalError | UnmarshalError | TransportError

  /** The event pushed to the outbound channel for a peer's announce. */
  datatype EventAddrMulticast = EventAddrMulticast(addr: Addr, addrJson: AddrJson)

  /** Known peers: service name -> instance id -> last stored descriptor. */
  type Registry = map<string, map<uint32, AddrJson>>

  /** Every stored descriptor sits under its own (name, id). */
  ghost predicate WellKeyed(reg: Registry)
  {
    forall name, id :: name in reg && id in reg[name] ==>
      reg[name][id].name == name && reg[name][id].id == id
  }

  /** A datagram that carries this node's own identity. */
  predicate IsSelfEcho(self: AddrJson, aj: AddrJson)
  {
    self.name == aj.name && self.id == aj.id
  }

  /** Nested lookup; `None` stands for Go's nil pointer. */
  function Find(reg: Registry, name: string, id: uint32): (r: Option<AddrJson>)
    ensures r.None? <==> name !in reg || id !in reg[name]
    ensures r.Some? ==> r.value == reg[name][id]
  {
    if name in reg && id in reg[name] then Some(reg[name][id]) else None
  }

  /** The registry after storing `aj` under (name, id), the inner map
      being created when the name is new. */
  function Upsert(reg: Registry, name: string, id: uint32, aj: AddrJson): (r: Registry)
    ensures Find(r, name, id) == Some(aj)
    ensures forall n, i :: (n != name || i != id) ==> Find(r, n, i) == Find(reg, n, i)
    ensures r.Keys == reg.Keys + {name}
  {
    var ids := if name in reg then reg[name] else map[];
    reg[name := ids[id := aj]]
  }

  /** Storing the same descriptor twice gives the registry of storing it once. */
  lemma UpsertIdempotent(reg: Registry, name: string, id: uint32, aj: AddrJson)
    ensures Upsert(Upsert(reg, name, id, aj), name, id, aj) == Upsert(reg, name, id, aj)
  {
    var once := Upsert(reg, name, id, aj);
    var twice := Upsert(once, name, id, aj);
    var ids: map<uint32, AddrJson> := once[name];
    assert twice[name] == ids[id := aj] == ids;
  }

  /** Storing a descriptor under its own identity keeps the registry well keyed. */
  lemma UpsertPreservesWellKeyed(reg: Registry, aj: AddrJson)
    requires WellKeyed(reg)
    ensures WellKeyed(Upsert(reg, aj.name, aj.id, aj))
  {
  }

  /** With a codec that round-trips, each announce buffer the node builds
      from its own record (cmd 0 for the first, cmd 1 for the periodic one)
      comes back through multicast loopback as a self-echo, which the
      handler ignores. */
  lemma OwnAnnounceIsSelfEcho(codec: Codec, self: AddrJson, cmd: uint32)
    requires RoundTrips(codec)
    requires codec.marshal(self.(cmd := cmd)).Some?
    ensures codec.unmarshal(codec.marshal(self.(cmd := cmd)).value).Some?
    ensures IsSelfEcho(self, codec.unmarshal(codec.marshal(self.(cmd := cmd)).value).value)
  {
  }

  /** One discovery node: Go's `Addr`. */
  class Addr {
    const codec: Codec
    var serverMap: Registry
    var addrFirstBuffer: Bytes    // self encoded with cmd 0
    var addrBuffer: Bytes         // self encoded with cmd 1
    var selfAddr: AddrJson
    var sendLog: seq<Bytes>       // every datagram multicast so far
    var addrChan: seq<EventAddrMulticast>  // every event pushed so far

    /** The registry is keyed by identity and never holds this node itself. */
    ghost predicate Valid()
      reads this
    {
      WellKeyed(serverMap) && Find(serverMap, selfAddr.name, selfAddr.id).None?
    }

    /** A node in Go's zero state. */
    constructor (codec: Codec)
      ensures Valid() && this.codec == codec
      ensures serverMap == map[] && selfAddr == ZeroAddrJson
      ensures addrFirstBuffer == [] && addrBuffer == []
      ensures sendLog == [] && addrChan == []
    {
      this.codec := codec;
      serverMap := map[];
      selfAddr := ZeroAddrJson;
      addrFirstBuffer, addrBuffer := [], [];
      sendLog, addrChan := [], [];
    }

    /** Builds the self descriptor and its two announce buffers, empties the
        registry, then starts the transport (whose outcome is `transportOk`). */
    method Start(addrName: string, addrID: uint32, addrIP: string, addrPort: uint16,
                 addrData: string, transportOk: bool) returns (err: Option<Error>)
      modifies this`serverMap, this`selfAddr, this`addrFirstBuffer, this`addrBuffer
      ensures Valid()
      ensures serverMap == map[]
      ensures selfAddr == AddrJson(0, addrName, addrID, addrIP, addrPort, addrData)
      ensures codec.marshal(selfAddr).None? ==>
        err == Some(MarshalError) && addrFirstBuffer == old(addrFirstBuffer) && addrBuffer == old(addrBuffer)
      ensures codec.marshal(selfAddr).Some? ==> addrFirstBuffer == codec.marshal(selfAddr).value
      ensures codec.marshal(selfAddr).Some? && codec.marshal(selfAddr.(cmd := 1)).None? ==>
        err == Some(MarshalError) && addrBuffer == old(addrBuffer)
      ensures codec.marshal(selfAddr).Some? && codec.marshal(selfAddr.(cmd := 1)).Some? ==>
        addrBuffer == codec.marshal(selfAddr.(cmd := 1)).value &&
        err == (if transportOk then None else Some(TransportError))
    {
      serverMap := map[];
      selfAddr := AddrJson(0, addrName, addrID, addrIP, addrPort, addrData);
      var aj := selfAddr;
      var first := codec.marshal(aj);
      if first.None? {
        return Some(MarshalError);
      }
      addrFirstBuffer := first.value;
      aj := aj.(cmd := 1);
      var periodic := codec.marshal(aj);
      if periodic.None? {
        return Some(MarshalError);
      }
      addrBuffer := periodic.value;
      if !transportOk {
        return Some(TransportError);
      }
      return None;
    }

    /** After a successful `Start`, both of the node's own announce buffers
        decode to self-echoes, so `HandleAddrMulticast` on either of them
        (multicast loopback) changes nothing. */
    lemma OwnBuffersAreSelfEchoes()
      requires RoundTrips(codec)
      requires codec.marshal(selfAddr.(cmd := 0)).Some? && addrFirstBuffer == codec.marshal(selfAddr.(cmd := 0)).value
      requires codec.marshal(selfAddr.(cmd := 1)).Some? && addrBuffer == codec.marshal(selfAddr.(cmd := 1)).value
      ensures codec.unmarshal(addrFirstBuffer).Some? && IsSelfEcho(selfAddr, codec.unmarshal(addrFirstBuffer).value)
      ensures codec.unmarshal(addrBuffer).Some? && IsSelfEcho(selfAddr, codec.unmarshal(addrBuffer).value)
    {
      OwnAnnounceIsSelfEcho(codec, selfAddr, 0);
      OwnAnnounceIsSelfEcho(codec, selfAddr, 1);
    }

    /** Multicasts one datagram (the transport's `doAddrSYN`). */
    method DoAddrSYN(data: Bytes)
      modifies this`sendLog
      ensures sendLog == old(sendLog) + [data]
    {
      sendLog := sendLog + [data];
    }

    /** Stores `aj` under (name, id) in place, creating the inner map when absent. */
    method Add(name: string, id: uint32, aj: AddrJson)
      modifies this`serverMap
      ensures serverMap == Upsert(old(serverMap), name, id, aj)
    {
      if name in serverMap {
        var ids: map<uint32, AddrJson> := serverMap[name];
        serverMap := serverMap[name := ids[id := aj]];
      } else {
        var ids: map<uint32, AddrJson> := map[id := aj];
        serverMap := serverMap[name := ids];
      }
    }

    /** Handles one received datagram. */
    method HandleAddrMulticast(data: Bytes) returns (err: Option<Error>)
      requires Valid()
      modifies this`serverMap, this`sendLog, this`addrChan
      ensures Valid()
      ensures err == (if codec.unmarshal(data).None? then Some(UnmarshalError) else None)
      // a datagram that does not decode, or that is this node's own, changes nothing
      ensures codec.unmarshal(data).None? || IsSelfEcho(selfAddr, codec.unmarshal(data).value) ==>
        serverMap == old(serverMap) && sendLog == old(sendLog) && addrChan == old(addrChan)
      // any other datagram: re-broadcast and store on a first announce or an
      // unknown peer, and in every case push exactly one event
      ensures codec.unmarshal(data).Some? && !IsSelfEcho(selfAddr, codec.unmarshal(data).value) ==>
        var aj := codec.unmarshal(data).value;
        var learn := aj.cmd == 0 || Find(old(serverMap), aj.name, aj.id).None?;
        && sendLog == old(sendLog) + (if learn then [addrBuffer] else [])
        && serverMap == (if learn then Upsert(old(serverMap), aj.name, aj.id, aj) else old(serverMap))
        && addrChan == old(addrChan) + [EventAddrMulticast(this, aj)]
        && Find(serverMap, aj.name, aj.id).Some?
    {
      var decoded := codec.unmarshal(data);
      if decoded.None? {
        return Some(UnmarshalError);
      }
      var aj := decoded.value;
      if selfAddr.name == aj.name && selfAddr.id == aj.id {
      } else {
        if aj.cmd == 0 {
          DoAddrSYN(addrBuffer);
          Add(aj.name, aj.id, aj);
        } else {
          if Find(serverMap, aj.name, aj.id).None? {
            DoAddrSYN(addrBuffer);
            Add(aj.name, aj.id, aj);
          }
        }
        UpsertPreservesWellKeyed(old(serverMap), aj);
        addrChan := addrChan + [EventAddrMulticast(this, aj)];
      }
      return None;
    }
  }
}
