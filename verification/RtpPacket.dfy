// RTP packets: the builder and the parser of rtppacket.cpp (section 5.1 of
// RFC 3550).
module RtpPacket {
  import opened Types
  import opened Wire

  const RTP_VERSION := 2
  const RTP_MAXCSRCS := 15
  const HEADER_SIZE := 12
  const EXTENSION_HEADER_SIZE := 4
  const RTCPTYPE_SR := 200
  const RTCPTYPE_RR := 201

  datatype Extension = Extension(id: uint16, data: seq<byte>)

  datatype Content = Content(
    payloadtype: byte,
    marker: bool,
    seqnr: uint16,
    timestamp: uint32,
    ssrc: uint32,
    csrcs: seq<uint32>,
    extension: Option<Extension>,
    payload: seq<byte>)

  datatype Status = Ok | TooManyCsrcs | BadPayloadType | DataExceedsMaxSize | InvalidPacket

  // The data of a header extension is a number of 32-bit words that fits 16 bits.
  predicate ExtensionOk(e: Option<Extension>) {
    e.Some? ==> |e.value.data| % 4 == 0 && |e.value.data| / 4 < 0x1_0000
  }

  function Bit(b: bool): int {
    if b then 1 else 0
  }

  function Length(c: Content): nat {
    HEADER_SIZE + 4 * |c.csrcs| + (if c.extension.Some? then EXTENSION_HEADER_SIZE + |c.extension.value.data| else 0) +
        |c.payload|
  }

  function Header(c: Content): (h: seq<byte>)
    requires |c.csrcs| <= RTP_MAXCSRCS && c.payloadtype < 128
    ensures |h| == HEADER_SIZE
  {
    [RTP_VERSION * 64 + Bit(c.extension.Some?) * 16 + |c.csrcs|, Bit(c.marker) * 128 + c.payloadtype]
    + Be16(c.seqnr) + Be32(c.timestamp) + Be32(c.ssrc)
  }

  function ExtensionBytes(e: Option<Extension>): seq<byte>
    requires ExtensionOk(e)
  {
    if e.None? then [] else Be16(e.value.id) + Be16(|e.value.data| / 4) + e.value.data
  }

  function Encode(c: Content): seq<byte>
    requires |c.csrcs| <= RTP_MAXCSRCS && c.payloadtype < 128 && ExtensionOk(c.extension)
  {
    Header(c) + Be32s(c.csrcs) + ExtensionBytes(c.extension) + c.payload
  }

  function BuildStatus(c: Content, maxsize: nat): Status {
    if |c.csrcs| > RTP_MAXCSRCS then TooManyCsrcs
    else if c.payloadtype > 127 || c.payloadtype == 72 || c.payloadtype == 73 then BadPayloadType
    else if maxsize > 0 && Length(c) > maxsize then DataExceedsMaxSize
    else Ok
  }

  // The marker bit and payload type that together look like an SR or RR.
  predicate LooksLikeRtcp(marker: bool, payloadtype: byte) {
    marker && (payloadtype == RTCPTYPE_SR % 128 || payloadtype == RTCPTYPE_RR % 128)
  }

  // The end of the header extension, or of the CSRC list without one. A packet
  // too short to hold the extension header is refused whatever length would be
  // read for the extension, because its payload length would be negative.
  function PayloadOffset(s: seq<byte>): (o: nat)
    requires |s| >= HEADER_SIZE
    ensures o >= HEADER_SIZE
  {
    var o := HEADER_SIZE + 4 * (s[0] % 16);
    if s[0] / 16 % 2 == 0 then o
    else o + EXTENSION_HEADER_SIZE + if |s| < o + EXTENSION_HEADER_SIZE then 0 else 4 * Get16(s, o + 2)
  }

  function PadBytes(s: seq<byte>): nat
    requires |s| >= HEADER_SIZE
  {
    if s[0] / 32 % 2 == 1 then s[|s| - 1] else 0
  }

  predicate Accepted(s: seq<byte>) {
    && |s| >= HEADER_SIZE && s[0] / 64 == RTP_VERSION
    && !LooksLikeRtcp(s[1] >= 128, s[1] % 128)
    && (s[0] / 32 % 2 == 1 ==> s[|s| - 1] > 0)
    && PayloadOffset(s) + PadBytes(s) <= |s|
  }

  function Decode(s: seq<byte>): Content
    requires Accepted(s)
  {
    var n := s[0] % 16;
    var o := HEADER_SIZE + 4 * n;
    var p := PayloadOffset(s);
    Content(s[1] % 128, s[1] >= 128, Get16(s, 2), Get32(s, 4), Get32(s, 8), Get32s(s, HEADER_SIZE, n),
            if s[0] / 16 % 2 == 0 then None else Some(Extension(Get16(s, o), s[o + EXTENSION_HEADER_SIZE..p])),
            s[p..|s| - PadBytes(s)])
  }

  // ---- Reading past the end ----

  // The checks before the header extension is looked at.
  predicate HeaderPasses(s: seq<byte>) {
    && |s| >= HEADER_SIZE && s[0] / 64 == RTP_VERSION
    && !LooksLikeRtcp(s[1] >= 128, s[1] % 128)
    && (s[0] / 32 % 2 == 1 ==> s[|s| - 1] > 0)
  }

  // Where the bytes end that the parser reads before it decides: at the end of
  // the packet, or of the extension header if that is further.
  function ReadTo(s: seq<byte>): nat {
    if !HeaderPasses(s) || s[0] / 16 % 2 == 0 then |s|
    else
      var end := HEADER_SIZE + 4 * (s[0] % 16) + EXTENSION_HEADER_SIZE;
      if end < |s| then |s| else end
  }

  // What the parser decides about a packet of length n that lies at the start of
  // memory m.
  predicate AcceptedIn(m: seq<byte>, n: nat)
    requires n <= |m| && ReadTo(m[..n]) <= |m|
  {
    var s := m[..n];
    && HeaderPasses(s)
    && var o := HEADER_SIZE + 4 * (s[0] % 16);
       var end := if s[0] / 16 % 2 == 0 then o else o + EXTENSION_HEADER_SIZE + 4 * Get16(m, o + 2);
       end + PadBytes(s) <= n
  }

  // The parser reads past the end of a packet if and only if the checks pass, the
  // extension bit is set, and the packet ends before the extension header does.
  // Whatever the bytes after the packet are, they decide nothing.
  lemma ReadsPastEnd(m: seq<byte>, n: nat)
    requires n <= |m| && ReadTo(m[..n]) <= |m|
    ensures var s := m[..n];
            && (ReadTo(s) > n <==> HeaderPasses(s) && s[0] / 16 % 2 == 1 && n < 16 + 4 * (s[0] % 16))
            && (ReadTo(s) > n ==> !Accepted(s))
            && (AcceptedIn(m, n) <==> Accepted(s))
  {
  }

  // Twelve bytes with the extension bit set: sixteen are read.
  lemma ShortExtension()
    ensures var s := [0x90, 0] + Be16(1) + Be32(0) + Be32(0); |s| == 12 && ReadTo(s) == 16
  {
  }

  // ---- Round trip ----

  lemma HeaderReads(c: Content, rest: seq<byte>)
    requires |c.csrcs| <= RTP_MAXCSRCS && c.payloadtype < 128
    ensures var s := Header(c) + rest;
            && s[0] / 64 == RTP_VERSION && s[0] / 32 % 2 == 0 && s[0] / 16 % 2 == Bit(c.extension.Some?)
            && s[0] % 16 == |c.csrcs| && s[1] % 128 == c.payloadtype && (s[1] >= 128 <==> c.marker)
            && Get16(s, 2) == c.seqnr && Get32(s, 4) == c.timestamp && Get32(s, 8) == c.ssrc
  {
    var s := Header(c) + rest;
    assert s == Header(c)[..2] + Be16(c.seqnr) + (Be32(c.timestamp) + Be32(c.ssrc) + rest);
    assert s == (Header(c)[..2] + Be16(c.seqnr)) + Be32(c.timestamp) + (Be32(c.ssrc) + rest);
    assert s == (Header(c)[..2] + Be16(c.seqnr) + Be32(c.timestamp)) + Be32(c.ssrc) + rest;
    Get16Back(Header(c)[..2], c.seqnr, Be32(c.timestamp) + Be32(c.ssrc) + rest);
    Get32Back(Header(c)[..2] + Be16(c.seqnr), c.timestamp, Be32(c.ssrc) + rest);
    Get32Back(Header(c)[..2] + Be16(c.seqnr) + Be32(c.timestamp), c.ssrc, rest);
  }

  lemma ExtensionReads(front: seq<byte>, e: Extension, rest: seq<byte>)
    requires ExtensionOk(Some(e))
    ensures var s := front + ExtensionBytes(Some(e)) + rest;
            && Get16(s, |front|) == e.id && Get16(s, |front| + 2) == |e.data| / 4
            && s[|front| + EXTENSION_HEADER_SIZE..|front| + EXTENSION_HEADER_SIZE + |e.data|] == e.data
  {
    var s := front + ExtensionBytes(Some(e)) + rest;
    assert s == front + Be16(e.id) + (Be16(|e.data| / 4) + e.data + rest);
    assert s == (front + Be16(e.id)) + Be16(|e.data| / 4) + (e.data + rest);
    Get16Back(front, e.id, Be16(|e.data| / 4) + e.data + rest);
    Get16Back(front + Be16(e.id), |e.data| / 4, e.data + rest);
  }

  // Each field of c is found in s where the parser looks for it.
  ghost predicate FieldsRead(s: seq<byte>, c: Content) {
    && |s| == Length(c) && s[0] / 64 == RTP_VERSION && s[0] / 32 % 2 == 0 && s[0] / 16 % 2 == Bit(c.extension.Some?)
    && s[0] % 16 == |c.csrcs| && s[1] % 128 == c.payloadtype && (s[1] >= 128 <==> c.marker)
    && Get16(s, 2) == c.seqnr && Get32(s, 4) == c.timestamp && Get32(s, 8) == c.ssrc
    && Get32s(s, HEADER_SIZE, |c.csrcs|) == c.csrcs && s[|s| - |c.payload|..] == c.payload
    && (c.extension.Some? ==>
          var o := HEADER_SIZE + 4 * |c.csrcs|;
          && Get16(s, o) == c.extension.value.id && Get16(s, o + 2) == |c.extension.value.data| / 4
          && s[o + EXTENSION_HEADER_SIZE..o + EXTENSION_HEADER_SIZE + |c.extension.value.data|] ==
              c.extension.value.data)
  }

  lemma EncodeTail(s: seq<byte>, front: seq<byte>, c: Content)
    requires ExtensionOk(c.extension) && |front| == HEADER_SIZE + 4 * |c.csrcs|
    requires s == front + ExtensionBytes(c.extension) + c.payload
    ensures |s| == Length(c) && s[|s| - |c.payload|..] == c.payload
    ensures c.extension.Some? ==>
              var o := HEADER_SIZE + 4 * |c.csrcs|;
              && Get16(s, o) == c.extension.value.id && Get16(s, o + 2) == |c.extension.value.data| / 4
              && s[o + EXTENSION_HEADER_SIZE..o + EXTENSION_HEADER_SIZE + |c.extension.value.data|] ==
                  c.extension.value.data
  {
    if c.extension.Some? {
      ExtensionReads(front, c.extension.value, c.payload);
    }
  }

  lemma EncodeFields(c: Content)
    requires |c.csrcs| <= RTP_MAXCSRCS && c.payloadtype < 128 && ExtensionOk(c.extension)
    ensures FieldsRead(Encode(c), c)
  {
    var h, cs, t := Header(c), Be32s(c.csrcs), ExtensionBytes(c.extension) + c.payload;
    assert Encode(c) == h + (cs + t) == h + cs + t;
    HeaderReads(c, cs + t);
    Get32sBack(Encode(c), h, c.csrcs, t);
    EncodeTail(Encode(c), h + cs, c);
  }

  lemma FieldsDecode(s: seq<byte>, c: Content)
    requires FieldsRead(s, c) && ExtensionOk(c.extension)
    ensures Accepted(s) <==> !LooksLikeRtcp(c.marker, c.payloadtype)
    ensures Accepted(s) ==> Decode(s) == c
  {
  }

  // Every encoded packet that does not look like RTCP is accepted and reads back
  // exactly; one that does is refused.
  lemma EncodeReadsBack(c: Content)
    requires |c.csrcs| <= RTP_MAXCSRCS && c.payloadtype < 128 && ExtensionOk(c.extension)
    ensures Accepted(Encode(c)) <==> !LooksLikeRtcp(c.marker, c.payloadtype)
    ensures Accepted(Encode(c)) ==> Decode(Encode(c)) == c
  {
    EncodeFields(c);
    FieldsDecode(Encode(c), c);
  }

  // What the builder accepts, the parser accepts and gives back; the payload
  // types the builder refuses cover those the parser takes for RTCP.
  lemma BuiltPacketReadsBack(c: Content, maxsize: nat)
    requires ExtensionOk(c.extension) && BuildStatus(c, maxsize) == Ok
    ensures Accepted(Encode(c)) && Decode(Encode(c)) == c
  {
    EncodeReadsBack(c);
  }

  // ---- The packet object ----

  class RTPPacket {
    var hasextension: bool
    var hasmarker: bool
    var numcsrcs: nat
    var payloadtype: byte
    var extseqnr: uint32
    var timestamp: uint32
    var ssrc: uint32
    var packet: array?<byte>
    var payload: nat        // where in the packet the payload starts
    var packetlength: nat
    var payloadlength: nat
    var extid: uint16
    var extension: nat      // where in the packet the extension data starts
    var extensionlength: nat
    var externalbuffer: bool

    constructor ()
      ensures packet == null
    {
      hasextension, hasmarker, numcsrcs, payloadtype, extseqnr, timestamp, ssrc := false, false, 0, 0, 0, 0, 0;
      packet, payload, packetlength, payloadlength := null, 0, 0, 0;
      extid, extension, extensionlength, externalbuffer := 0, 0, 0, false;
    }

    // The accessors read inside the packet.
    ghost predicate Readable()
      reads this
    {
      && packet != null && packetlength <= packet.Length && extseqnr < 0x1_0000
      && HEADER_SIZE + 4 * numcsrcs <= packetlength && payload + payloadlength <= packetlength
      && (hasextension ==> extension + extensionlength <= packetlength)
    }

    function GetCSRC(num: nat): uint32
      requires Readable()
      reads this, packet
    {
      if num >= numcsrcs then 0 else Get32(packet[..packetlength], HEADER_SIZE + num * 4)
    }

    // What the accessors together return.
    ghost function Contents(): Content
      requires Readable()
      reads this, packet
    {
      Content(payloadtype, hasmarker, extseqnr, timestamp, ssrc, Get32s(packet[..packetlength], HEADER_SIZE, numcsrcs),
              if hasextension then Some(Extension(extid, packet[extension..extension + extensionlength])) else None,
              packet[payload..payload + payloadlength])
    }

    lemma CSRCsRead(num: nat)
      requires Readable()
      ensures GetCSRC(num) == if num < |Contents().csrcs| then Contents().csrcs[num] else 0
    {
    }

    method ParseRawPacket(data: array<byte>, isrtp: bool) returns (status: Status)
      modifies this
      ensures status == if isrtp && Accepted(data[..]) then Ok else InvalidPacket
      ensures status == Ok ==> Readable() && Contents() == Decode(data[..])
    {
      if !isrtp {
        return InvalidPacket;
      }
      var packetlen := data.Length;
      if packetlen < HEADER_SIZE {
        return InvalidPacket;
      }
      if data[0] / 64 != RTP_VERSION {
        return InvalidPacket;
      }
      var marker := data[1] / 128 != 0;
      var pt := data[1] % 128;
      if marker {
        if pt == RTCPTYPE_SR % 128 {
          return InvalidPacket;
        }
        if pt == RTCPTYPE_RR % 128 {
          return InvalidPacket;
        }
      }
      var numpadbytes := 0;
      if data[0] / 32 % 2 == 1 {
        numpadbytes := data[packetlen - 1];
        if numpadbytes <= 0 {
          return InvalidPacket;
        }
      }
      var payloadoffset := MeasureHeader(data);
      if packetlen - numpadbytes - payloadoffset < 0 {
        return InvalidPacket;
      }
      FillIn(data, payloadoffset, packetlen - numpadbytes - payloadoffset);
      return Ok;
    }

    // Fill in the members from an accepted packet.
    method FillIn(data: array<byte>, payloadoffset: nat, length: nat)
      requires Accepted(data[..])
      requires payloadoffset == PayloadOffset(data[..]) && payloadoffset + length == data.Length - PadBytes(data[..])
      modifies this
      ensures Readable() && Contents() == Decode(data[..])
    {
      packet := data;
      FillInHeader(data[..]);
      FillInLayout(data[..], payloadoffset, length);
      FieldsMean(data[..]);
    }

    method MeasureHeader(data: array<byte>) returns (payloadoffset: nat)
      requires data.Length >= HEADER_SIZE
      ensures payloadoffset == PayloadOffset(data[..])
    {
      var csrccount: nat := data[0] % 16;
      payloadoffset := HEADER_SIZE + csrccount * 4;
      if data[0] / 16 % 2 != 0 {
        var exthdrlen :=
          if payloadoffset + EXTENSION_HEADER_SIZE <= data.Length then Get16(data[..], payloadoffset + 2) else 0;
        payloadoffset := payloadoffset + EXTENSION_HEADER_SIZE;
        payloadoffset := payloadoffset + exthdrlen * 4;
      }
    }

    // The members as a function of an accepted packet.
    ghost predicate HeaderOf(s: seq<byte>)
      requires Accepted(s)
      reads this`hasmarker, this`payloadtype, this`extseqnr, this`timestamp, this`ssrc
    {
      && hasmarker == (s[1] >= 128) && payloadtype == s[1] % 128
      && extseqnr == Get16(s, 2) && timestamp == Get32(s, 4) && ssrc == Get32(s, 8)
    }

    ghost predicate LayoutOf(s: seq<byte>)
      requires Accepted(s)
      reads this`numcsrcs, this`payload, this`packetlength, this`payloadlength
      reads this`hasextension, this`extid, this`extension, this`extensionlength
    {
      && numcsrcs == s[0] % 16 && packetlength == |s|
      && payload == PayloadOffset(s) && payload + payloadlength == |s| - PadBytes(s)
      && hasextension == (s[0] / 16 % 2 != 0)
      && (hasextension ==>
            && extid == Get16(s, HEADER_SIZE + 4 * numcsrcs)
            && extension == HEADER_SIZE + 4 * numcsrcs + EXTENSION_HEADER_SIZE
            && extension + extensionlength == payload)
    }

    lemma FieldsMean(s: seq<byte>)
      requires Accepted(s) && HeaderOf(s) && LayoutOf(s) && packet != null && packet[..] == s
      ensures Readable() && Contents() == Decode(s)
    {
      var p := packet;
      assert p[..packetlength] == s && p[payload..payload + payloadlength] == s[payload..|s| - PadBytes(s)];
      assert hasextension ==> p[extension..extension + extensionlength] == s[extension..payload];
    }

    method FillInHeader(bytes: seq<byte>)
      requires Accepted(bytes)
      modifies this`hasmarker, this`payloadtype, this`extseqnr, this`timestamp, this`ssrc
      ensures HeaderOf(bytes)
    {
      hasmarker := bytes[1] / 128 != 0;
      payloadtype := bytes[1] % 128;
      extseqnr := Get16(bytes, 2);
      timestamp := Get32(bytes, 4);
      ssrc := Get32(bytes, 8);
    }

    method FillInLayout(bytes: seq<byte>, payloadoffset: nat, length: nat)
      requires Accepted(bytes)
      requires payloadoffset == PayloadOffset(bytes) && payloadoffset + length == |bytes| - PadBytes(bytes)
      modifies this`numcsrcs, this`payload, this`packetlength, this`payloadlength
      modifies this`hasextension, this`extid, this`extension, this`extensionlength
      ensures LayoutOf(bytes)
    {
      numcsrcs := bytes[0] % 16;
      payload, packetlength, payloadlength := payloadoffset, |bytes|, length;
      var header := HEADER_SIZE + numcsrcs * 4;
      hasextension := bytes[0] / 16 % 2 != 0;
      if hasextension {
        extid := Get16(bytes, header);
        extensionlength := Get16(bytes, header + 2) * 4;
        extension := header + EXTENSION_HEADER_SIZE;
      }
    }

    // Build into the given buffer, of maxsize bytes, or into a new one.
    method BuildPacket(c: Content, buffer: array?<byte>, maxsize: nat) returns (status: Status)
      requires ExtensionOk(c.extension) && (buffer != null ==> 0 < maxsize <= buffer.Length)
      modifies this, buffer
      ensures status == BuildStatus(c, maxsize)
      ensures status == Ok ==>
                && packet != null && packetlength <= packet.Length && packet[..packetlength] == Encode(c)
                && Describes(c) && packetlength == Length(c) && payload + payloadlength == packetlength
                && (buffer != null ==> packet == buffer) && (buffer == null ==> fresh(packet))
    {
      if |c.csrcs| > RTP_MAXCSRCS {
        return TooManyCsrcs;
      }
      if c.payloadtype > 127 {
        return BadPayloadType;
      }
      if c.payloadtype == 72 || c.payloadtype == 73 {
        return BadPayloadType;
      }
      packetlength := HEADER_SIZE;
      packetlength := packetlength + 4 * |c.csrcs|;
      if c.extension.Some? {
        packetlength := packetlength + EXTENSION_HEADER_SIZE;
        packetlength := packetlength + |c.extension.value.data|;
      }
      packetlength := packetlength + |c.payload|;
      if maxsize > 0 && packetlength > maxsize {
        packetlength := 0;
        return DataExceedsMaxSize;
      }
      if buffer == null {
        packet := new byte[packetlength];
        externalbuffer := false;
      } else {
        packet := buffer;
        externalbuffer := true;
      }
      SetFields(c);
      WritePacket(c, packet);
      return Ok;
    }

    // The members after a packet has been built; the extension data itself is
    // only reachable after parsing.
    ghost predicate Describes(c: Content)
      reads this
    {
      && hasmarker == c.marker && hasextension == c.extension.Some? && numcsrcs == |c.csrcs|
      && payloadtype == c.payloadtype && extseqnr == c.seqnr && timestamp == c.timestamp && ssrc == c.ssrc
      && payloadlength == |c.payload|
      && (c.extension.Some? ==> extid == c.extension.value.id && extensionlength == |c.extension.value.data|)
    }

    method SetFields(c: Content)
      modifies this`hasmarker, this`hasextension, this`numcsrcs, this`payloadtype, this`extseqnr, this`timestamp
      modifies this`ssrc, this`payloadlength, this`extid, this`extensionlength
      ensures Describes(c)
    {
      hasmarker := c.marker;
      hasextension := c.extension.Some?;
      numcsrcs := |c.csrcs|;
      payloadtype := c.payloadtype;
      extseqnr := c.seqnr;
      timestamp := c.timestamp;
      ssrc := c.ssrc;
      payloadlength := |c.payload|;
      if c.extension.Some? {
        extid := c.extension.value.id;
        extensionlength := |c.extension.value.data|;
      }
    }

    method WritePacket(c: Content, buf: array<byte>)
      requires |c.csrcs| <= RTP_MAXCSRCS && c.payloadtype < 128 && ExtensionOk(c.extension) && Length(c) <= buf.Length
      modifies this`payload, buf
      ensures buf[..Length(c)] == Encode(c) && payload + |c.payload| == Length(c)
    {
      WriteHeader(c, buf);
      var pos := WriteCSRCs(c.csrcs, buf, HEADER_SIZE);
      pos := WriteExtension(c.extension, buf, pos);
      payload := pos;
      pos := Put(buf, pos, c.payload);
    }

    method WriteHeader(c: Content, buf: array<byte>)
      requires |c.csrcs| <= RTP_MAXCSRCS && c.payloadtype < 128 && HEADER_SIZE <= buf.Length
      modifies buf
      ensures buf[..HEADER_SIZE] == Header(c)
    {
      var pos := Put(buf, 0,
          [RTP_VERSION * 64 + Bit(c.extension.Some?) * 16 + |c.csrcs|, Bit(c.marker) * 128 + c.payloadtype]);
      pos := Put(buf, pos, Be16(c.seqnr));
      pos := Put(buf, pos, Be32(c.timestamp));
      pos := Put(buf, pos, Be32(c.ssrc));
    }

    method WriteExtension(e: Option<Extension>, buf: array<byte>, start: nat) returns (pos: nat)
      requires ExtensionOk(e) && start + |ExtensionBytes(e)| <= buf.Length
      modifies buf
      ensures pos == start + |ExtensionBytes(e)| && buf[..pos] == old(buf[..start]) + ExtensionBytes(e)
    {
      pos := start;
      if e.Some? {
        pos := Put(buf, pos, Be16(e.value.id));
        pos := Put(buf, pos, Be16(|e.value.data| / 4));
        pos := Put(buf, pos, e.value.data);
      }
    }

    method WriteCSRCs(csrcs: seq<uint32>, buf: array<byte>, start: nat) returns (pos: nat)
      requires start + 4 * |csrcs| <= buf.Length
      modifies buf
      ensures pos == start + 4 * |csrcs| && buf[..pos] == old(buf[..start]) + Be32s(csrcs)
    {
      pos := start;
      var i := 0;
      while i < |csrcs|
        invariant i <= |csrcs| && pos == start + 4 * i
        invariant buf[..pos] + Be32s(csrcs[i..]) == old(buf[..start]) + Be32s(csrcs)
      {
        assert csrcs[i..][1..] == csrcs[i + 1..];
        ghost var before := buf[..pos];
        pos := Put(buf, pos, Be32(csrcs[i]));
        assert before + (Be32(csrcs[i]) + Be32s(csrcs[i + 1..])) == (before + Be32(csrcs[i])) + Be32s(csrcs[i + 1..]);
        i := i + 1;
      }
    }
  }
}
