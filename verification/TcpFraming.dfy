// RTP and RTCP packets over a byte stream, each preceded by its length in two
// bytes (section 2 of RFC 4571): the sender and the incremental reassembler of
// rtptcptransmitter.cpp.
module TcpFraming {
  import opened Types

  const MAX_PACKET_SIZE := 65535
  const LENGTH_BYTES := 2

  // ---- Frames ----

  function Frame(payload: seq<byte>): seq<byte>
    requires |payload| <= MAX_PACKET_SIZE
  {
    [|payload| / 256, |payload| % 256] + payload
  }

  function Word(high: byte, low: byte): nat {
    high as int * 256 + low as int
  }

  // The length announced by the first two bytes.
  function Announced(s: seq<byte>): nat
    requires |s| >= LENGTH_BYTES
  {
    Word(s[0], s[1])
  }

  // s starts with a whole frame.
  predicate HasFrame(s: seq<byte>) {
    |s| >= LENGTH_BYTES && |s| >= LENGTH_BYTES + Announced(s)
  }

  function Head(s: seq<byte>): seq<byte>
    requires HasFrame(s)
  {
    s[LENGTH_BYTES..LENGTH_BYTES + Announced(s)]
  }

  function Tail(s: seq<byte>): seq<byte>
    requires HasFrame(s)
  {
    s[LENGTH_BYTES + Announced(s)..]
  }

  // The payloads of the whole frames of a stream, and what is left after them.
  function Payloads(s: seq<byte>): seq<seq<byte>> {
    if HasFrame(s) then [Head(s)] + Payloads(Tail(s)) else []
  }

  function Rest(s: seq<byte>): seq<byte> {
    if HasFrame(s) then Rest(Tail(s)) else s
  }

  function Framed(payloads: seq<seq<byte>>): seq<byte>
    requires forall i :: 0 <= i < |payloads| ==> |payloads[i]| <= MAX_PACKET_SIZE
  {
    if payloads == [] then [] else Frame(payloads[0]) + Framed(payloads[1..])
  }

  lemma {:induction false} RestHasNoFrame(s: seq<byte>)
    ensures !HasFrame(Rest(s))
    decreases |s|
  {
    if HasFrame(s) {
      RestHasNoFrame(Tail(s));
    }
  }

  // Reading a stream in two parts: the second part continues from what the
  // first one left.
  lemma {:induction false} ReadInParts(a: seq<byte>, b: seq<byte>)
    ensures Payloads(a + b) == Payloads(a) + Payloads(Rest(a) + b)
    ensures Rest(a + b) == Rest(Rest(a) + b)
    decreases |a|
  {
    if HasFrame(a) {
      assert Announced(a + b) == Announced(a) && Head(a + b) == Head(a) && Tail(a + b) == Tail(a) + b;
      ReadInParts(Tail(a), b);
    }
  }

  lemma FrameReads(payload: seq<byte>, s: seq<byte>)
    requires |payload| <= MAX_PACKET_SIZE
    ensures HasFrame(Frame(payload) + s) && Head(Frame(payload) + s) == payload && Tail(Frame(payload) + s) == s
  {
    assert Announced(Frame(payload) + s) == |payload|;
  }

  // Round trip: the frames of some payloads read back as those payloads.
  lemma {:induction false} FramedReadsBack(payloads: seq<seq<byte>>)
    requires forall i :: 0 <= i < |payloads| ==> |payloads[i]| <= MAX_PACKET_SIZE
    ensures Payloads(Framed(payloads)) == payloads && Rest(Framed(payloads)) == []
  {
    if payloads != [] {
      FrameReads(payloads[0], Framed(payloads[1..]));
      FramedReadsBack(payloads[1..]);
    }
  }

  function Concat(chunks: seq<seq<byte>>): seq<byte> {
    if chunks == [] then [] else Concat(chunks[..|chunks| - 1]) + chunks[|chunks| - 1]
  }

  // The reassembler as a function: what a run over some chunks has delivered,
  // and what it remembers.
  function Delivered(chunks: seq<seq<byte>>): seq<seq<byte>> {
    if chunks == [] then []
    else
      var front := chunks[..|chunks| - 1];
      Delivered(front) + Payloads(Remembered(front) + chunks[|chunks| - 1])
  }

  function Remembered(chunks: seq<seq<byte>>): seq<byte> {
    if chunks == [] then [] else Rest(Remembered(chunks[..|chunks| - 1]) + chunks[|chunks| - 1])
  }

  // However the framed stream is cut, exactly the payloads are delivered, in
  // order, and nothing is left over.
  lemma {:induction false} CutsDoNotMatter(chunks: seq<seq<byte>>)
    ensures Delivered(chunks) == Payloads(Concat(chunks)) && Remembered(chunks) == Rest(Concat(chunks))
  {
    if chunks != [] {
      CutsDoNotMatter(chunks[..|chunks| - 1]);
      ReadInParts(Concat(chunks[..|chunks| - 1]), chunks[|chunks| - 1]);
    }
  }

  lemma FramedStreamIsDelivered(payloads: seq<seq<byte>>, chunks: seq<seq<byte>>)
    requires forall i :: 0 <= i < |payloads| ==> |payloads[i]| <= MAX_PACKET_SIZE
    requires Concat(chunks) == Framed(payloads)
    ensures Delivered(chunks) == payloads && Remembered(chunks) == []
  {
    CutsDoNotMatter(chunks);
    FramedReadsBack(payloads);
  }

  // ---- The socket ----

  // A stream socket: the bytes the peer has sent that have not been read.
  class Socket {
    var pending: seq<byte>

    // FIONREAD: some of the pending bytes have arrived.
    method BytesAvailable() returns (len: nat)
      ensures len <= |pending|
    {
      len :| 0 <= len <= |pending|;
    }

    // recv: an error, or between one and num bytes.
    method Recv(num: nat) returns (ok: bool, data: seq<byte>)
      requires 0 < num <= |pending|
      modifies this
      ensures old(pending) == data + pending
      ensures if ok then 0 < |data| <= num else data == []
    {
      ok := *;
      data := [];
      if ok {
        var r: nat :| 0 < r <= num;
        data := pending[..r];
        pending := pending[r..];
      }
    }
  }

  // ---- The reassembler of one socket ----

  class SocketData {
    const lengthBuffer: array<byte>
    var lengthBufferOffset: nat
    var dataLength: nat
    var dataBufferOffset: nat
    var dataBuffer: array?<byte>

    // The bytes of the current frame that have been read.
    ghost function Seen(): seq<byte>
      requires lengthBufferOffset <= lengthBuffer.Length
      requires dataBuffer != null ==> dataBufferOffset <= dataBuffer.Length
      reads this, lengthBuffer, dataBuffer
    {
      lengthBuffer[..lengthBufferOffset] + if dataBuffer != null then dataBuffer[..dataBufferOffset] else []
    }

    ghost predicate Valid()
      reads this, lengthBuffer, dataBuffer
    {
      && lengthBuffer.Length == LENGTH_BYTES && lengthBufferOffset <= LENGTH_BYTES
      && lengthBuffer != dataBuffer
      && (dataBuffer != null <==> lengthBufferOffset == LENGTH_BYTES)
      && (dataBuffer != null ==>
            && dataLength == Word(lengthBuffer[0], lengthBuffer[1])
            && dataBufferOffset <= dataLength <= dataBuffer.Length)
    }

    constructor ()
      ensures Valid() && Seen() == [] && fresh(lengthBuffer)
    {
      lengthBuffer := new byte[LENGTH_BYTES];
      lengthBufferOffset, dataLength, dataBufferOffset, dataBuffer := 0, 0, 0, null;
    }

    method Reset()
      requires lengthBuffer.Length == LENGTH_BYTES
      modifies this
      ensures Valid() && Seen() == []
    {
      lengthBufferOffset := 0;
      dataLength := 0;
      dataBufferOffset := 0;
      dataBuffer := null;
    }

    method ExtractDataBuffer() returns (data: array?<byte>)
      modifies this`dataBuffer
      ensures data == old(dataBuffer) && dataBuffer == null
    {
      data := dataBuffer;
      dataBuffer := null;
    }

    // Read into the length buffer; allocate the data buffer once it is full.
    method ReadLength(sock: Socket, availLen: nat) returns (ok: bool, data: seq<byte>)
      requires Valid() && lengthBufferOffset < LENGTH_BYTES && 0 < availLen <= |sock.pending|
      modifies this, lengthBuffer, sock
      ensures Valid() && fresh({dataBuffer} - {null})
      ensures old(sock.pending) == data + sock.pending && |data| <= availLen
      ensures Seen() == old(Seen()) + data && (dataBuffer != null ==> dataBufferOffset == 0)
      ensures ok <==> data != []
    {
      var num := LENGTH_BYTES - lengthBufferOffset;
      if num > availLen {
        num := availLen;
      }
      ok, data := sock.Recv(num);
      var r := |data|;
      ghost var before := lengthBuffer[..lengthBufferOffset];
      forall i | 0 <= i < r {
        lengthBuffer[lengthBufferOffset + i] := data[i];
      }
      lengthBufferOffset := lengthBufferOffset + r;
      assert lengthBuffer[..lengthBufferOffset] == before + data;
      if lengthBufferOffset == LENGTH_BYTES {
        dataLength := Word(lengthBuffer[0], lengthBuffer[1]);
        dataBufferOffset := 0;
        dataBuffer := new byte[if dataLength == 0 then 1 else dataLength];
      }
    }

    // Read into the data buffer.
    method ReadData(sock: Socket, availLen: nat) returns (ok: bool, data: seq<byte>)
      requires Valid() && dataBuffer != null && dataBufferOffset < dataLength && 0 < availLen <= |sock.pending|
      modifies this`dataBufferOffset, dataBuffer, sock
      ensures Valid()
      ensures old(sock.pending) == data + sock.pending && |data| <= availLen
      ensures Seen() == old(Seen()) + data
      ensures ok <==> data != []
    {
      var num := dataLength - dataBufferOffset;
      if num > availLen {
        num := availLen;
      }
      ok, data := sock.Recv(num);
      var r := |data|;
      ghost var before := dataBuffer[..dataBufferOffset];
      forall i | 0 <= i < r {
        dataBuffer[dataBufferOffset + i] := data[i];
      }
      dataBufferOffset := dataBufferOffset + r;
      assert dataBuffer[..dataBufferOffset] == before + data;
    }

    // The buffer is full exactly when a whole frame has been read.
    lemma SeenIsFrame()
      requires Valid()
      ensures HasFrame(Seen()) <==> dataBuffer != null && dataBufferOffset == dataLength
      ensures HasFrame(Seen()) ==> Head(Seen()) == dataBuffer[..dataLength] && Tail(Seen()) == []
    {
      if dataBuffer != null {
        assert Seen()[0] == lengthBuffer[0] && Seen()[1] == lengthBuffer[1];
        assert lengthBuffer[..lengthBufferOffset] + dataBuffer[..dataBufferOffset] == Seen();
      }
    }

    // One call consumes some of the available bytes, at least one unless reading
    // fails, and never reads past the end of the frame.
    method ProcessAvailableBytes(sock: Socket, availLen: nat) returns (ok: bool, complete: bool, ghost used: seq<byte>)
      requires Valid() && !HasFrame(Seen()) && availLen <= |sock.pending|
      modifies this, lengthBuffer, dataBuffer, sock
      ensures Valid() && (dataBuffer == old(dataBuffer) || fresh({dataBuffer} - {null}))
      ensures old(sock.pending) == used + sock.pending && |used| <= availLen
      ensures Seen() == old(Seen()) + used
      ensures complete == HasFrame(Seen()) && (!ok ==> !complete)
      ensures ok && availLen > 0 ==> used != []
    {
      SeenIsFrame();
      complete := false;
      ok, used := true, [];
      var left := availLen;
      if lengthBufferOffset < LENGTH_BYTES && left > 0 {
        var r;
        ok, r := ReadLength(sock, left);
        used := r;
        if !ok {
          return;
        }
        left := left - |r|;
      }
      if lengthBufferOffset == LENGTH_BYTES && dataBuffer != null {
        if dataBufferOffset < dataLength && left > 0 {
          var r;
          ok, r := ReadData(sock, left);
          used := used + r;
        }
        complete := dataBufferOffset == dataLength;
      }
      SeenIsFrame();
    }
  }

  // ---- The transmitter ----

  // Byte 1 of an RTCP packet is its type; a packet is taken as RTCP when it is
  // longer than an RTCP header and that type is one of the five known ones.
  predicate LooksLikeRtp(payload: seq<byte>) {
    !(|payload| > 4 && 200 <= payload[1] <= 204)
  }

  datatype RawPacket = RawPacket(data: seq<byte>, isrtp: bool)

  function RawPackets(payloads: seq<seq<byte>>): (r: seq<RawPacket>)
    ensures |r| == |payloads|
    ensures forall i :: 0 <= i < |r| ==> r[i] == RawPacket(payloads[i], LooksLikeRtp(payloads[i]))
  {
    seq(|payloads|, i requires 0 <= i < |payloads| => RawPacket(payloads[i], LooksLikeRtp(payloads[i])))
  }

  // The packet list after the frames of a stream have been read.
  function After(list: seq<RawPacket>, read: seq<byte>): seq<RawPacket> {
    list + RawPackets(Payloads(read))
  }

  // How far sending one packet to one destination got.
  datatype SendResult = Complete | LengthOnly | Nothing

  class TCPTransmitter {
    var rawpacketlist: seq<RawPacket>
    var streams: seq<seq<byte>>  // what has been sent to each destination

    constructor (destinations: nat)
      ensures rawpacketlist == [] && streams == seq(destinations, i => [])
    {
      rawpacketlist := [];
      streams := seq(destinations, i => []);
    }

    // Turn a complete frame into a raw packet.
    method TakePacket(sdata: SocketData)
      requires sdata.Valid() && HasFrame(sdata.Seen())
      modifies this`rawpacketlist, sdata
      ensures sdata.Valid() && sdata.Seen() == []
      ensures rawpacketlist == After(old(rawpacketlist), old(sdata.Seen()))
      ensures sdata.dataBuffer == null
    {
      sdata.SeenIsFrame();
      ghost var payload := Head(sdata.Seen());
      assert Payloads(sdata.Seen()) == [payload] + Payloads([]) == [payload];
      var dataLength := sdata.dataLength;
      var pBuf := sdata.ExtractDataBuffer();
      sdata.Reset();
      var isrtp := true;
      if dataLength > 4 {
        var packettype := pBuf[1];
        if packettype >= 200 && packettype <= 204 {
          isrtp := false;
        }
      }
      assert pBuf[..dataLength] == payload;
      rawpacketlist := rawpacketlist + [RawPacket(pBuf[..dataLength], isrtp)];
    }

    // One turn of PollSocket, with len bytes available.
    method PollOnce(sock: Socket, sdata: SocketData, len: nat) returns (ok: bool, ghost used: seq<byte>)
      requires sdata.Valid() && !HasFrame(sdata.Seen()) && 0 < len <= |sock.pending|
      modifies this`rawpacketlist, sock, sdata, sdata.lengthBuffer, sdata.dataBuffer
      ensures sdata.Valid() && !HasFrame(sdata.Seen())
      ensures sdata.dataBuffer == old(sdata.dataBuffer) || fresh({sdata.dataBuffer} - {null})
      ensures old(sock.pending) == used + sock.pending && (ok ==> used != [])
      ensures rawpacketlist == After(old(rawpacketlist), old(sdata.Seen()) + used)
      ensures sdata.Seen() == Rest(old(sdata.Seen()) + used)
    {
      var relevantLen := MAX_PACKET_SIZE + 2;
      if len < relevantLen {
        relevantLen := len;
      }
      var complete;
      ok, complete, used := sdata.ProcessAvailableBytes(sock, relevantLen);
      if complete {
        sdata.SeenIsFrame();
        TakePacket(sdata);
      }
    }

    // The same turn, after read of the stream has been consumed.
    method PollNext(sock: Socket, sdata: SocketData, len: nat, ghost list: seq<RawPacket>, ghost read: seq<byte>)
      returns (ok: bool, ghost used: seq<byte>)
      requires sdata.Valid() && !HasFrame(sdata.Seen()) && 0 < len <= |sock.pending|
      requires rawpacketlist == After(list, read) && sdata.Seen() == Rest(read)
      modifies this`rawpacketlist, sock, sdata, sdata.lengthBuffer, sdata.dataBuffer
      ensures sdata.Valid() && !HasFrame(sdata.Seen())
      ensures sdata.dataBuffer == old(sdata.dataBuffer) || fresh({sdata.dataBuffer} - {null})
      ensures old(sock.pending) == used + sock.pending && (ok ==> used != [])
      ensures rawpacketlist == After(list, read + used) && sdata.Seen() == Rest(read + used)
    {
      ok, used := PollOnce(sock, sdata, len);
      ReadMore(list, read, used);
    }

    // Read until nothing is available. What has been delivered and what is
    // remembered depend only on the bytes consumed, however they arrived.
    method PollSocket(sock: Socket, sdata: SocketData) returns (ok: bool, ghost used: seq<byte>)
      requires sdata.Valid() && !HasFrame(sdata.Seen())
      modifies this`rawpacketlist, sock, sdata, sdata.lengthBuffer, sdata.dataBuffer
      ensures sdata.Valid() && !HasFrame(sdata.Seen())
      ensures old(sock.pending) == used + sock.pending
      ensures rawpacketlist == After(old(rawpacketlist), old(sdata.Seen()) + used)
      ensures sdata.Seen() == Rest(old(sdata.Seen()) + used)
    {
      ghost var seen, read, list := sdata.Seen(), sdata.Seen(), rawpacketlist;
      ok, used := true, [];
      var dataavailable := true;
      while ok && dataavailable
        invariant sdata.Valid() && !HasFrame(sdata.Seen())
        invariant sdata.dataBuffer == old(sdata.dataBuffer) || fresh({sdata.dataBuffer} - {null})
        invariant old(sock.pending) == used + sock.pending
        invariant read == seen + used
        invariant rawpacketlist == After(list, read) && sdata.Seen() == Rest(read)
        decreases |sock.pending|, ok, dataavailable
      {
        var len := sock.BytesAvailable();
        dataavailable := len > 0;
        if dataavailable {
          ghost var n;
          ghost var before := sock.pending;
          ok, n := PollNext(sock, sdata, len, list, read);
          TakeMore(seen, used, n, sock.pending);
          assert before == n + sock.pending;
          used, read := used + n, read + n;
        }
      }
    }

    // The two sends to one destination.
    method SendFrame(i: nat, data: seq<byte>, result: SendResult)
      requires i < |streams| && |data| <= MAX_PACKET_SIZE
      modifies this`streams
      ensures streams == old(streams)[i := old(streams)[i] + Sent(data, result)]
    {
      var lengthBytes := [(|data| / 256) % 256, |data| % 256];
      assert lengthBytes + data == Frame(data);
      assert streams[i] + [] == streams[i] && streams[i := streams[i]] == streams;
      if result != Nothing {
        streams := streams[i := streams[i] + lengthBytes];
      }
      if result == Complete {
        streams := streams[i := streams[i] + data];
        assert old(streams[i]) + lengthBytes + data == old(streams[i]) + Frame(data);
      }
    }

    // A frame to every destination; a destination for which sending fails keeps
    // what was sent before the failure and is reported.
    method SendRTPRTCPData(data: seq<byte>, results: seq<SendResult>) returns (ok: bool, errSockets: seq<nat>)
      requires |results| == |streams|
      modifies this`streams
      ensures ok == (|data| <= MAX_PACKET_SIZE) && |streams| == |old(streams)|
      ensures forall i :: 0 <= i < |streams| ==>
              streams[i] == old(streams)[i] + if ok then Sent(data, results[i]) else []
      ensures forall i: nat :: i in errSockets <==> ok && i < |streams| && !results[i].Complete?
    {
      errSockets := [];
      if |data| > MAX_PACKET_SIZE {
        return false, [];
      }
      var i := 0;
      while i < |streams|
        invariant i <= |streams| == |old(streams)|
        invariant forall j :: 0 <= j < i ==> streams[j] == old(streams)[j] + Sent(data, results[j])
        invariant forall j :: i <= j < |streams| ==> streams[j] == old(streams)[j]
        invariant forall j: nat :: j in errSockets <==> j < i && !results[j].Complete?
      {
        SendFrame(i, data, results[i]);
        if results[i] != Complete {
          errSockets := errSockets + [i];
        }
        i := i + 1;
      }
      ok := true;
    }
  }

  function Sent(data: seq<byte>, result: SendResult): seq<byte>
    requires |data| <= MAX_PACKET_SIZE
  {
    match result
    case Complete => Frame(data)
    case LengthOnly => [(|data| / 256) % 256, |data| % 256]
    case Nothing => []
  }

  lemma TakeMore(seen: seq<byte>, used: seq<byte>, n: seq<byte>, pending: seq<byte>)
    ensures used + (n + pending) == (used + n) + pending && (seen + used) + n == seen + (used + n)
  {
  }

  // Reading on after some of a stream has been read.
  lemma ReadMore(list: seq<RawPacket>, read: seq<byte>, more: seq<byte>)
    ensures After(list, read + more) == After(After(list, read), Rest(read) + more)
    ensures Rest(read + more) == Rest(Rest(read) + more)
  {
    ReadInParts(read, more);
    RawPacketsAppend(list, Payloads(read), Payloads(Rest(read) + more));
  }

  lemma RawPacketsAppend(list: seq<RawPacket>, a: seq<seq<byte>>, b: seq<seq<byte>>)
    ensures list + RawPackets(a + b) == list + RawPackets(a) + RawPackets(b)
  {
    assert RawPackets(a + b) == RawPackets(a) + RawPackets(b);
  }
}
