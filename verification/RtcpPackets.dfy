// Reading RTCP: the packets of a compound packet, and the formats of the report,
// BYE and APP packets (sections 6.1, 6.4, 6.6 and 6.7 of RFC 3550).
module RtcpPackets {
  import opened Types
  import opened Wire

  const RTP_VERSION := 2
  const HEADER_SIZE := 4
  const SENDER_INFO_SIZE := 20
  const REPORT_BLOCK_SIZE := 24
  const SR := 200
  const RR := 201
  const SDES := 202
  const BYE := 203
  const APP := 204

  // ---- The common header ----

  function Version(p: seq<byte>): nat
    requires |p| >= HEADER_SIZE
  {
    p[0] / 64
  }

  predicate HasPadding(p: seq<byte>)
    requires |p| >= HEADER_SIZE
  {
    p[0] / 32 % 2 == 1
  }

  function Count(p: seq<byte>): nat
    requires |p| >= HEADER_SIZE
  {
    p[0] % 32
  }

  function PacketType(p: seq<byte>): byte
    requires |p| >= HEADER_SIZE
  {
    p[1]
  }

  // The packet length in bytes that the header announces.
  function AnnouncedLength(p: seq<byte>): nat
    requires |p| >= HEADER_SIZE
  {
    (Get16(p, 2) as int + 1) * 4
  }

  // ---- Cutting a compound packet ----

  predicate HeaderOk(s: seq<byte>, first: bool) {
    && |s| >= HEADER_SIZE && Version(s) == RTP_VERSION
    && (first ==> PacketType(s) == SR || PacketType(s) == RR)
    && AnnouncedLength(s) <= |s| && (HasPadding(s) ==> AnnouncedLength(s) == |s|)
  }

  // The packets of a buffer, or None if it is not a compound packet.
  function Cut(s: seq<byte>, first: bool): (r: Option<seq<seq<byte>>>)
    decreases |s|
  {
    if s == [] && !first then Some([])
    else if !HeaderOk(s, first) then None
    else
      var r := Cut(s[AnnouncedLength(s)..], false);
      if r.None? then None else Some([s[..AnnouncedLength(s)]] + r.value)
  }

  function Flatten(packets: seq<seq<byte>>): seq<byte> {
    if packets == [] then [] else packets[0] + Flatten(packets[1..])
  }

  // A whole packet with an honest header.
  predicate PacketOk(p: seq<byte>, first: bool, last: bool) {
    && |p| >= HEADER_SIZE && Version(p) == RTP_VERSION && AnnouncedLength(p) == |p|
    && (first ==> PacketType(p) == SR || PacketType(p) == RR) && (HasPadding(p) ==> last)
  }

  ghost predicate CompoundOk(packets: seq<seq<byte>>, first: bool) {
    && (first ==> packets != [])
    && forall i :: 0 <= i < |packets| ==> PacketOk(packets[i], first && i == 0, i == |packets| - 1)
  }

  // What is cut tiles the whole buffer in order, every packet is honest, the
  // first is an SR or RR, and only the last may be padded.
  lemma {:induction false} CutTiles(s: seq<byte>, first: bool)
    requires Cut(s, first).Some?
    ensures Flatten(Cut(s, first).value) == s && CompoundOk(Cut(s, first).value, first)
    decreases |s|
  {
    if s != [] {
      var n := AnnouncedLength(s);
      var rest := Cut(s[n..], false).value;
      CutTiles(s[n..], false);
      assert Cut(s, first).value == [s[..n]] + rest && ([s[..n]] + rest)[1..] == rest;
      forall i | 0 <= i < |rest| + 1
        ensures PacketOk(([s[..n]] + rest)[i], first && i == 0, i == |rest|)
      {
        if i > 0 {
          assert ([s[..n]] + rest)[i] == rest[i - 1];
        }
      }
    }
  }

  // Conversely, any such list of packets is cut back into exactly itself; so the
  // packets of a compound packet are determined by its bytes.
  lemma {:induction false} FlattenCuts(packets: seq<seq<byte>>, first: bool)
    requires CompoundOk(packets, first)
    ensures Cut(Flatten(packets), first) == Some(packets)
  {
    if packets != [] {
      var p, rest := packets[0], packets[1..];
      var s := Flatten(packets);
      assert PacketOk(p, first, |packets| == 1);
      assert forall i :: 0 <= i < |rest| ==> rest[i] == packets[i + 1];
      FlattenCuts(rest, false);
      assert s == p + Flatten(rest) && s[..|p|] == p && s[|p|..] == Flatten(rest);
      assert Get16(s, 2) == Get16(p, 2);
      assert rest == [] ==> Flatten(rest) == [];
      assert [p] + rest == packets;
    }
  }

  // ---- Padding ----

  // The length without the padding, unless the padding count is impossible.
  function Unpadded(p: seq<byte>): (r: Option<nat>)
    requires |p| >= HEADER_SIZE
    ensures r.Some? ==> 0 < r.value <= |p|
  {
    if !HasPadding(p) then Some(|p|)
    else
      var padcount := p[|p| - 1];
      if padcount % 4 != 0 || padcount >= |p| then None else Some(|p| - padcount)
  }

  // ---- Report packets ----

  // A packet count of 32 bits, signed.
  type int32 = x: int | -0x8000_0000 <= x < 0x8000_0000

  datatype ReportBlock = ReportBlock(
    ssrc: uint32,
    fractionlost: byte,
    packetslost: int32,
    exthighseqnr: uint32,
    jitter: uint32,
    lsr: uint32,
    dlsr: uint32)

  datatype Sender =
    | SenderReport(ssrc: uint32, ntpmsw: uint32, ntplsw: uint32, rtptimestamp: uint32, packetcount: uint32,
        octetcount: uint32)
    | ReceiverReport(ssrc: uint32)

  function ReportStart(p: seq<byte>): nat
    requires |p| >= HEADER_SIZE
  {
    HEADER_SIZE + 4 + if PacketType(p) == SR then SENDER_INFO_SIZE else 0
  }

  predicate KnownReport(p: seq<byte>) {
    |p| >= HEADER_SIZE && Unpadded(p) == Some(ReportStart(p) + REPORT_BLOCK_SIZE * Count(p))
  }

  // The 24-bit two's complement number that GetLostPacketCount sign-extends.
  function SignExtend24(x: nat): int32
    requires x < 0x100_0000
  {
    if x >= 0x80_0000 then x - 0x100_0000 else x
  }

  function BlockAt(p: seq<byte>, o: nat): ReportBlock
    requires o + REPORT_BLOCK_SIZE <= |p|
  {
    ReportBlock(Get32(p, o), p[o + 4], SignExtend24(Get24(p, o + 5)), Get32(p, o + 8), Get32(p, o + 12),
                Get32(p, o + 16), Get32(p, o + 20))
  }

  function SenderOf(p: seq<byte>): Sender
    requires KnownReport(p)
  {
    if PacketType(p) == SR then
      SenderReport(Get32(p, 4), Get32(p, 8), Get32(p, 12), Get32(p, 16), Get32(p, 20), Get32(p, 24))
    else ReceiverReport(Get32(p, 4))
  }

  function BlocksOf(p: seq<byte>): (r: seq<ReportBlock>)
    requires KnownReport(p)
    ensures |r| == Count(p)
    ensures forall i :: 0 <= i < |r| ==> r[i] == BlockAt(p, ReportStart(p) + REPORT_BLOCK_SIZE * i)
  {
    seq(Count(p), i requires 0 <= i < Count(p) => BlockAt(p, ReportStart(p) + REPORT_BLOCK_SIZE * i))
  }

  // ---- BYE packets ----

  datatype Bye = Bye(ssrcs: seq<uint32>, reason: seq<byte>)

  predicate KnownBye(p: seq<byte>) {
    |p| >= HEADER_SIZE && Unpadded(p).Some? &&
    var len, o := Unpadded(p).value, HEADER_SIZE + 4 * Count(p);
    o <= len && (o < len ==> p[o] <= len - o - 1)
  }

  function ByeOf(p: seq<byte>): Bye
    requires KnownBye(p)
  {
    var len, o := Unpadded(p).value, HEADER_SIZE + 4 * Count(p);
    Bye(Get32s(p, HEADER_SIZE, Count(p)), if o < len then p[o + 1..o + 1 + p[o]] else [])
  }

  // ---- APP packets ----

  datatype App = App(subtype: byte, ssrc: uint32, name: seq<byte>, data: seq<byte>)

  predicate KnownApp(p: seq<byte>) {
    |p| >= HEADER_SIZE && Unpadded(p).Some? && Unpadded(p).value >= HEADER_SIZE + 8
  }

  function AppOf(p: seq<byte>): App
    requires KnownApp(p)
  {
    App(Count(p), Get32(p, HEADER_SIZE), p[8..12], p[12..Unpadded(p).value])
  }

  // ---- The packet objects ----

  // The padding check that opens every constructor: the length left, if any.
  method RemovePadding(data: array<byte>, start: nat, length: nat) returns (len: Option<nat>)
    requires HEADER_SIZE <= length && start + length <= data.Length
    ensures len == Unpadded(data[start..start + length])
  {
    var left: nat := length;
    if data[start] / 32 % 2 == 1 {
      var padcount := data[start + length - 1];
      if padcount % 4 != 0 {
        return None;
      }
      if padcount >= left {
        return None;
      }
      left := left - padcount;
    }
    return Some(left);
  }

  method ReportKnownFormat(data: array<byte>, start: nat, length: nat) returns (knownformat: bool)
    requires HEADER_SIZE <= length && start + length <= data.Length
    ensures knownformat == KnownReport(data[start..start + length])
  {
    var len := RemovePadding(data, start, length);
    if len == None {
      return false;
    }
    var expectedlength := HEADER_SIZE + 4;
    if data[start + 1] == SR {
      expectedlength := expectedlength + SENDER_INFO_SIZE;
    }
    expectedlength := expectedlength + REPORT_BLOCK_SIZE * (data[start] % 32);
    knownformat := expectedlength == len.value;
  }

  // reasonoffset is where the reason starts, or 0 if there is none.
  method ByeKnownFormat(data: array<byte>, start: nat, length: nat) returns (knownformat: bool, reasonoffset: nat)
    requires HEADER_SIZE <= length && start + length <= data.Length
    ensures var p := data[start..start + length];
            && knownformat == KnownBye(p)
            && (knownformat ==> (reasonoffset == 0 ==> ByeOf(p).reason == []) && (reasonoffset > 0 ==>
                  && reasonoffset < length && reasonoffset + 1 + p[reasonoffset] <= length
                  && ByeOf(p).reason == p[reasonoffset + 1..reasonoffset + 1 + p[reasonoffset]]))
  {
    ghost var p := data[start..start + length];
    reasonoffset := 0;
    var len := RemovePadding(data, start, length);
    if len == None {
      return false, 0;
    }
    var ssrclen := data[start] % 32 * 4 + HEADER_SIZE;
    if ssrclen > len.value {
      return false, 0;
    }
    if ssrclen < len.value {
      assert p[ssrclen] == data[start + ssrclen];
      var reaslen := data[start + ssrclen];
      if reaslen > len.value - ssrclen - 1 {
        return false, 0;
      }
      reasonoffset := ssrclen;
    }
    knownformat := true;
  }

  method AppKnownFormat(data: array<byte>, start: nat, length: nat) returns (knownformat: bool, appdatalen: nat)
    requires HEADER_SIZE <= length && start + length <= data.Length
    ensures var p := data[start..start + length];
            knownformat == KnownApp(p) && (knownformat ==> appdatalen == |AppOf(p).data|)
  {
    appdatalen := 0;
    var len := RemovePadding(data, start, length);
    if len == None {
      return false, 0;
    }
    if len.value < HEADER_SIZE + 8 {
      return false, 0;
    }
    appdatalen := len.value - (HEADER_SIZE + 8);
    knownformat := true;
  }
}
