// RTCPCompoundPacket: cutting received data into RTCP packets.
module CompoundPacket {
  import opened Types
  import opened RtcpPackets
  import SdesPacket

  datatype PacketInfo = PacketInfo(packettype: byte, start: nat, length: nat, knownformat: bool)

  // The format check of the packet's own type; a packet of another type has no
  // format to check and always passes.
  predicate Known(p: seq<byte>)
    requires |p| >= HEADER_SIZE
  {
    if PacketType(p) == SR || PacketType(p) == RR then KnownReport(p)
    else if PacketType(p) == SDES then SdesPacket.KnownSdes(p)
    else if PacketType(p) == BYE then KnownBye(p)
    else if PacketType(p) == APP then KnownApp(p)
    else true
  }

  // The packets of a compound packet with their places in the buffer.
  function Infos(packets: seq<seq<byte>>, start: nat): seq<PacketInfo> {
    if packets == [] then []
    else
      var p := packets[0];
      [PacketInfo(if |p| >= HEADER_SIZE then PacketType(p) else 0, start, |p|, |p| >= HEADER_SIZE && Known(p))]
      + Infos(packets[1..], start + |p|)
  }

  // The entries lie one after the other, from the first byte to the last.
  lemma {:induction false} InfosTile(packets: seq<seq<byte>>, start: nat)
    ensures |Infos(packets, start)| == |packets|
    ensures packets != [] ==> Infos(packets, start)[0].start == start
    ensures forall i :: 0 <= i < |packets| ==> Infos(packets, start)[i].length == |packets[i]|
    ensures forall i :: 0 <= i < |packets| - 1 ==>
              Infos(packets, start)[i + 1].start == Infos(packets, start)[i].start + Infos(packets, start)[i].length
    ensures packets != [] ==>
              var last := Infos(packets, start)[|packets| - 1]; last.start + last.length == start + |Flatten(packets)|
  {
    if packets != [] {
      InfosTile(packets[1..], start + |packets[0]|);
      assert forall i :: 0 < i < |packets| ==>
             Infos(packets, start)[i] == Infos(packets[1..], start + |packets[0]|)[i - 1];
      if |packets| == 1 {
        assert Flatten(packets) == packets[0];
      }
    }
  }

  lemma {:induction false} InfosAppend(packets: seq<seq<byte>>, p: seq<byte>, start: nat)
    ensures Infos(packets + [p], start) == Infos(packets, start) + Infos([p], start + |Flatten(packets)|)
  {
    hide PacketType, Known;
    if packets == [] {
      assert packets + [p] == [p];
    } else {
      assert (packets + [p])[1..] == packets[1..] + [p];
      InfosAppend(packets[1..], p, start + |packets[0]|);
    }
  }

  lemma {:induction false} FlattenAppend(packets: seq<seq<byte>>, p: seq<byte>)
    ensures Flatten(packets + [p]) == Flatten(packets) + p
  {
    if packets == [] {
      assert packets + [p] == [p];
    } else {
      assert (packets + [p])[1..] == packets[1..] + [p];
      FlattenAppend(packets[1..], p);
    }
  }

  // Extents that lie one after the other from 0 to n, each a positive multiple
  // of four.
  ghost predicate Tiles(r: seq<PacketInfo>, n: nat) {
    && r != [] && r[0].start == 0 && r[|r| - 1].start + r[|r| - 1].length == n
    && (forall i :: 0 <= i < |r| - 1 ==> r[i + 1].start == r[i].start + r[i].length)
    && (forall i :: 0 <= i < |r| ==> r[i].length > 0 && r[i].length % 4 == 0)
  }

  lemma LengthsAreWords(packets: seq<seq<byte>>)
    requires CompoundOk(packets, true)
    ensures forall i :: 0 <= i < |packets| ==> |packets[i]| > 0 && |packets[i]| % 4 == 0
  {
    forall i | 0 <= i < |packets| ensures |packets[i]| > 0 && |packets[i]| % 4 == 0 {
      assert PacketOk(packets[i], i == 0, i == |packets| - 1);
    }
  }

  // When parsing succeeds, the packets tile the whole buffer in order, the first
  // is an SR or RR, and only the last may be padded.
  lemma ParseTiles(s: seq<byte>)
    requires Cut(s, true).Some?
    ensures Tiles(Infos(Cut(s, true).value, 0), |s|)
    ensures var r := Infos(Cut(s, true).value, 0); r[0].packettype == SR || r[0].packettype == RR
    ensures var packets := Cut(s, true).value;
            forall i :: 0 <= i < |packets| - 1 ==> |packets[i]| >= 4 && !HasPadding(packets[i])
  {
    var packets := Cut(s, true).value;
    CutTiles(s, true);
    InfosTile(packets, 0);
    LengthsAreWords(packets);
    assert PacketOk(packets[0], true, |packets| == 1);
    forall i | 0 <= i < |packets| - 1 ensures |packets[i]| >= 4 && !HasPadding(packets[i]) {
      assert PacketOk(packets[i], i == 0, false);
    }
  }

  // Parsing has reached pos, after the given packets.
  ghost predicate Reached(s: seq<byte>, packets: seq<seq<byte>>, pos: nat, first: bool) {
    && pos == |Flatten(packets)| && pos <= |s|
    && (Cut(s[pos..], first).None? ==> Cut(s, true).None?)
    && (Cut(s[pos..], first).Some? ==> Cut(s, true) == Some(packets + Cut(s[pos..], first).value))
  }

  lemma ReachedStart(s: seq<byte>)
    ensures Reached(s, [], 0, true)
  {
    assert s[0..] == s && (Cut(s, true).Some? ==> [] + Cut(s, true).value == Cut(s, true).value);
  }

  lemma Assoc<T>(a: seq<T>, b: seq<T>, c: seq<T>)
    ensures (a + b) + c == a + (b + c)
  {
  }

  // One turn of the parsing loop.
  lemma ReachedNext(s: seq<byte>, packets: seq<seq<byte>>, pos: nat, first: bool)
    requires Reached(s, packets, pos, first) && HeaderOk(s[pos..], first)
    ensures var n := AnnouncedLength(s[pos..]);
            && pos + n <= |s| && Reached(s, packets + [s[pos..pos + n]], pos + n, false)
            && Infos(packets + [s[pos..pos + n]], 0) == Infos(packets, 0) + Infos([s[pos..pos + n]], pos)
  {
    hide Flatten, PacketType, Known, Infos;
    var n := AnnouncedLength(s[pos..]);
    var p := s[pos..pos + n];
    assert s[pos..][..n] == p && s[pos..][n..] == s[pos + n..];
    InfosAppend(packets, p, 0);
    FlattenAppend(packets, p);
    var r := Cut(s[pos + n..], false);
    if r.Some? {
      Assoc(packets, [p], r.value);
    }
  }

  lemma ReachedEnd(s: seq<byte>, packets: seq<seq<byte>>, pos: nat, first: bool)
    requires Reached(s, packets, pos, first) && !HeaderOk(s[pos..], first)
    ensures Cut(s, true) == if pos == |s| && !first then Some(packets) else None
  {
    assert packets + [] == packets;
  }

  // The packet object for the bytes at start, by its type.
  method CreatePacket(data: array<byte>, start: nat, length: nat) returns (p: PacketInfo)
    requires HEADER_SIZE <= length && start + length <= data.Length
    ensures var bytes := data[start..start + length]; p == PacketInfo(PacketType(bytes), start, length, Known(bytes))
  {
    var packettype := data[start + 1];
    var known := true;
    if packettype == SR || packettype == RR {
      known := ReportKnownFormat(data, start, length);
    } else if packettype == SDES {
      known := SdesPacket.Walk(data[start..start + length]);
    } else if packettype == BYE {
      var reasonoffset;
      known, reasonoffset := ByeKnownFormat(data, start, length);
    } else if packettype == APP {
      var appdatalen;
      known, appdatalen := AppKnownFormat(data, start, length);
    }
    p := PacketInfo(packettype, start, length, known);
  }

  class RTCPCompoundPacket {
    var rtcppacklist: seq<PacketInfo>
    var rtcppackit: nat

    constructor ()
      ensures rtcppacklist == []
    {
      rtcppacklist, rtcppackit := [], 0;
    }

    // The checks on one packet header.
    method CheckHeader(data: array<byte>, pos: nat, first: bool) returns (ok: bool, length: nat)
      requires pos + HEADER_SIZE <= data.Length
      ensures ok == HeaderOk(data[pos..], first) && (ok ==> length == AnnouncedLength(data[pos..]))
    {
      var datalen := data.Length - pos;
      length := 0;
      if data[pos] / 64 != RTP_VERSION {
        return false, length;
      }
      if first {
        if !(data[pos + 1] == SR || data[pos + 1] == RR) {
          return false, length;
        }
      }
      length := data[pos + 2] as int * 256 + data[pos + 3] as int;
      length := length + 1;
      length := length * 4;
      if length > datalen {
        return false, length;
      }
      if data[pos] / 32 % 2 == 1 {
        if length != datalen {
          return false, length;
        }
      }
      ok := true;
    }

    method ParseData(data: array<byte>) returns (ok: bool)
      requires rtcppacklist == []
      modifies this`rtcppacklist
      ensures ok == Cut(data[..], true).Some?
      ensures rtcppacklist == if ok then Infos(Cut(data[..], true).value, 0) else []
    {
      hide Reached, Known;
      var datalen: nat := data.Length;
      if datalen < HEADER_SIZE {
        return false;
      }
      ghost var s := data[..];
      ghost var packets: seq<seq<byte>> := [];
      var pos: nat := 0;
      var first := true;
      ReachedStart(s);
      while datalen >= HEADER_SIZE
        invariant 0 <= datalen && pos + datalen == data.Length == |s| && (first ==> datalen >= HEADER_SIZE)
        invariant Reached(s, packets, pos, first) && rtcppacklist == Infos(packets, 0)
        decreases datalen
      {
        var valid, length := CheckHeader(data, pos, first);
        if !valid {
          ReachedEnd(s, packets, pos, first);
          rtcppacklist := [];
          return false;
        }
        ReachedNext(s, packets, pos, first);
        packets := packets + [s[pos..pos + length]];
        first := false;
        var p := CreatePacket(data, pos, length);
        rtcppacklist := rtcppacklist + [p];
        datalen := datalen - length;
        pos := pos + length;
      }
      ReachedEnd(s, packets, pos, first);
      if datalen != 0 {
        rtcppacklist := [];
        return false;
      }
      return true;
    }

    method GotoFirstPacket()
      modifies this`rtcppackit
      ensures rtcppackit == 0
    {
      rtcppackit := 0;
    }

    method GetNextPacket() returns (p: Option<PacketInfo>)
      requires rtcppackit <= |rtcppacklist|
      modifies this`rtcppackit
      ensures rtcppackit <= |rtcppacklist|
      ensures if old(rtcppackit) == |rtcppacklist| then p == None && rtcppackit == old(rtcppackit)
              else p == Some(rtcppacklist[old(rtcppackit)]) && rtcppackit == old(rtcppackit) + 1
    {
      if rtcppackit == |rtcppacklist| {
        return None;
      }
      p := Some(rtcppacklist[rtcppackit]);
      rtcppackit := rtcppackit + 1;
    }
  }
}
