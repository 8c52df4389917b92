/** The client-side event handlers of the reboot service: the stream
    framing decision for a buffered TCP stream and two stub handlers.

    The packet header codec and the service's configuration are not
    modelled: the header length, the packet length declared in the
    buffered header and the configured maximum packet length are
    parameters. */
module HandleEvent {
  import opened Types

  /** A declared packet length the service accepts: at least one header
      and at most the configured maximum. */
  predicate AcceptedLength(packetLength: uint32, headLength: uint32, packetLengthMax: uint32)
  {
    headLength <= packetLength <= packetLengthMax
  }

  /** How many bytes to cut from a stream of which `length` bytes are
      buffered: 0 asks for more bytes, -1 reports a corrupt stream, any
      other value is the length of the complete packet at the front.
      `uint32(length)` keeps Go's truncation of the buffered length. */
  function OnParseProtoHeadClient(length: nat, headLength: uint32, packetLength: uint32,
                                  packetLengthMax: uint32): (r: int)
    // the result is one of the three answers
    ensures r == -1 || r == 0 || r == packetLength
    // too few bytes for a header, as Go's uint32(length) counts them: ask
    // for more, whatever the header would say
    ensures ToUint32(length) < headLength ==> r == 0
    // in particular whenever fewer bytes than a header are buffered
    ensures length < headLength ==> r == 0
    // corrupt exactly when a header is buffered and its length is not accepted
    ensures r == -1 <==> ToUint32(length) >= headLength && !AcceptedLength(packetLength, headLength, packetLengthMax)
    // an accepted header whose packet is not yet complete: ask for more
    ensures ToUint32(length) >= headLength && AcceptedLength(packetLength, headLength, packetLengthMax)
            && length < packetLength
            ==> r == 0
    // a cut is always a complete, accepted packet
    ensures r > 0 ==> r == packetLength && headLength <= r <= packetLengthMax && r <= length
    // a complete accepted packet behind a header is cut
    ensures ToUint32(length) >= headLength && AcceptedLength(packetLength, headLength, packetLengthMax)
            && packetLength <= length
            ==> r == packetLength
  {
    if ToUint32(length) < headLength then 0
    else if packetLength < headLength then -1
    else if packetLengthMax < packetLength then -1
    else if length < packetLength then 0
    else packetLength
  }

  /** The framing decision as evidently intended: the buffered length is
      compared with the header length without truncation. */
  function ParseProtoHead(length: nat, headLength: uint32, packetLength: uint32,
                          packetLengthMax: uint32): (r: int)
    ensures r == -1 || r == 0 || r == packetLength
    ensures length < headLength ==> r == 0
    ensures r == -1 <==> length >= headLength && !AcceptedLength(packetLength, headLength, packetLengthMax)
    ensures r > 0 ==> r == packetLength && headLength <= r <= packetLengthMax && r <= length
    // every complete accepted packet at the front is cut, however much is buffered
    ensures AcceptedLength(packetLength, headLength, packetLengthMax) && packetLength <= length
            ==> r == packetLength
  {
    if length < headLength then 0
    else if packetLength < headLength then -1
    else if packetLengthMax < packetLength then -1
    else if length < packetLength then 0
    else packetLength
  }

  /** Below 4 GiB of buffered bytes the code as written and the intended
      decision agree. */
  lemma ParseAgreesBelowWrap(length: nat, headLength: uint32, packetLength: uint32, packetLengthMax: uint32)
    requires length < 0x1_0000_0000
    ensures OnParseProtoHeadClient(length, headLength, packetLength, packetLengthMax)
         == ParseProtoHead(length, headLength, packetLength, packetLengthMax)
  {
  }

  /** With 2^32 bytes buffered, `uint32(length)` is 0: a complete 16-byte
      packet behind an 8-byte header is reported as "need more bytes". */
  lemma WrappedLengthStallsStream()
    ensures AcceptedLength(16, 8, 1024) && 16 <= 0x1_0000_0000
    ensures OnParseProtoHeadClient(0x1_0000_0000, 8, 16, 1024) == 0
    ensures ParseProtoHead(0x1_0000_0000, 8, 16, 1024) == 16
  {
  }

  /** Wherever the truncated length falls below the header length while a
      complete accepted packet is buffered, the code as written asks for
      more bytes and the intended decision cuts the packet. */
  lemma WrapWindowStalls(length: nat, headLength: uint32, packetLength: uint32, packetLengthMax: uint32)
    requires ToUint32(length) < headLength
    requires AcceptedLength(packetLength, headLength, packetLengthMax) && packetLength <= length
    ensures length >= 0x1_0000_0000
    ensures OnParseProtoHeadClient(length, headLength, packetLength, packetLengthMax) == 0
    ensures ParseProtoHead(length, headLength, packetLength, packetLengthMax) == packetLength
  {
  }

  /** The disconnect handler: returns 0 whether or not the client is
      still connected. */
  function OnEventDisConnClient(isConn: bool): (r: int)
    ensures r == 0
  {
    if !isConn then 0 else 0
  }

  /** The packet handler: accepts every packet and returns 0. */
  function OnEventPacketClient(data: Bytes): (r: int)
    ensures r == 0
  {
    0
  }
}
