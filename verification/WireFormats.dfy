// Where every field stands on the wire, in bytes and numbers alone: the layouts of
// sections 5.1 and 6.4 to 6.7 of RFC 3550 and section 2 of RFC 4571, and padding.
module WireFormats {
  import opened Types
  import Wire
  import RtpPacket
  import opened RtcpPackets
  import opened SdesPacket
  import opened RtcpEncoding
  import TcpFraming

  // ---- Numbers in network byte order ----

  function U16(s: seq<byte>, o: nat): int
    requires o + 2 <= |s|
  {
    256 * s[o] as int + s[o + 1] as int
  }

  function U24(s: seq<byte>, o: nat): int
    requires o + 3 <= |s|
  {
    65536 * s[o] as int + 256 * s[o + 1] as int + s[o + 2] as int
  }

  function U32(s: seq<byte>, o: nat): int
    requires o + 4 <= |s|
  {
    16777216 * s[o] as int + 65536 * s[o + 1] as int + 256 * s[o + 2] as int + s[o + 3] as int
  }

  lemma FieldsAreBigEndian(s: seq<byte>, o: nat)
    ensures o + 2 <= |s| ==> Wire.Get16(s, o) == U16(s, o)
    ensures o + 3 <= |s| ==> Wire.Get24(s, o) == U24(s, o)
    ensures o + 4 <= |s| ==> Wire.Get32(s, o) == U32(s, o)
  {
  }

  // ---- RTP ----

  // The fixed header, the CSRCs, the header extension and the payload.
  lemma RtpLayout(c: RtpPacket.Content)
    requires |c.csrcs| <= 15 && c.payloadtype < 128 && RtpPacket.ExtensionOk(c.extension)
    ensures var s, o := RtpPacket.Encode(c), 12 + 4 * |c.csrcs|;
            && |s| == o + |c.payload| + (if c.extension.Some? then 4 + |c.extension.value.data| else 0)
            && s[0] == 128 + (if c.extension.Some? then 16 else 0) + |c.csrcs|
            && s[1] == (if c.marker then 128 else 0) + c.payloadtype
            && U16(s, 2) == c.seqnr && U32(s, 4) == c.timestamp && U32(s, 8) == c.ssrc
            && (forall k :: 0 <= k < |c.csrcs| ==> U32(s, 12 + 4 * k) == c.csrcs[k])
            && s[|s| - |c.payload|..] == c.payload
            && (c.extension.Some? ==>
                  && U16(s, o) == c.extension.value.id && 4 * U16(s, o + 2) == |c.extension.value.data|
                  && s[o + 4..o + 4 + |c.extension.value.data|] == c.extension.value.data)
  {
    RtpPacket.EncodeFields(c);
    var s := RtpPacket.Encode(c);
    assert s[0] == RtpPacket.Header(c)[0];
    forall k | 0 <= k < |c.csrcs| ensures U32(s, 12 + 4 * k) == c.csrcs[k] {
      assert Wire.Get32s(s, 12, |c.csrcs|)[k] == Wire.Get32(s, 12 + 4 * k);
    }
  }

  // The builder makes a packet if and only if the counts and the type are within their
  // limits, the type is not that of an SR or RR, and the bytes are within the maximum,
  // if there is one; the first of these that fails is the answer.
  lemma RtpBuildIff(c: RtpPacket.Content, maxsize: nat)
    requires RtpPacket.ExtensionOk(c.extension)
    ensures var status, many := RtpPacket.BuildStatus(c, maxsize), |c.csrcs| > 15;
            var bad := c.payloadtype > 127 || c.payloadtype == 72 || c.payloadtype == 73;
            && (status == RtpPacket.TooManyCsrcs <==> many) && (status == RtpPacket.BadPayloadType <==> !many && bad)
            && (!many && !bad ==>
                  var length := |RtpPacket.Encode(c)|;
                  status == if 0 < maxsize < length then RtpPacket.DataExceedsMaxSize else RtpPacket.Ok)
  {
    if |c.csrcs| <= 15 && c.payloadtype < 128 {
      hide RtpPacket.Encode;
      RtpLayout(c);
    }
  }

  // A packet with padding: the bit is set, and the last byte counts the bytes
  // added, itself included.
  function WithPadding(s: seq<byte>, filler: seq<byte>): seq<byte>
    requires s != [] && s[0] / 32 % 2 == 0 && |filler| < 255
  {
    [s[0] + 32] + s[1..] + filler + [|filler| + 1]
  }

  // p is s with n bytes of padding.
  ghost predicate Padded(s: seq<byte>, p: seq<byte>, n: nat) {
    && |s| >= 12 && |p| == |s| + n && 0 < n < 256 && p[|p| - 1] == n && s[0] / 32 % 2 == 0 && p[0] / 32 % 2 == 1
    && p[0] / 64 == s[0] / 64 && p[0] % 16 == s[0] % 16 && p[0] / 16 % 2 == s[0] / 16 % 2
    && forall i :: 1 <= i < |s| ==> p[i] == s[i]
  }

  lemma PaddedByte(x: byte)
    requires x / 32 % 2 == 0
    ensures x + 32 < 256 && (x + 32) / 32 % 2 == 1 && (x + 32) / 64 == x / 64 && (x + 32) % 32 == x % 32
    ensures (x + 32) % 16 == x % 16 && (x + 32) / 16 % 2 == x / 16 % 2
  {
    var a, r := x / 64, x % 32;
    assert x == 64 * a + r && (r < 16 || 16 <= r < 32);
    assert x / 16 == if r < 16 then 4 * a else 4 * a + 1;
    assert (x + 32) / 16 == x / 16 + 2;
  }

  lemma IsPadded(s: seq<byte>, filler: seq<byte>)
    requires |s| >= 12 && s[0] / 32 % 2 == 0 && |filler| < 255
    ensures Padded(s, WithPadding(s, filler), |filler| + 1)
  {
    PaddedByte(s[0]);
    var p := WithPadding(s, filler);
    assert p[0] == s[0] + 32 && p[|p| - 1] == |filler| + 1;
  }

  lemma PaddedAccepted(s: seq<byte>, p: seq<byte>, n: nat)
    requires Padded(s, p, n)
    ensures RtpPacket.Accepted(p) <==> RtpPacket.Accepted(s)
    ensures RtpPacket.Accepted(s) ==> RtpPacket.PayloadOffset(p) == RtpPacket.PayloadOffset(s)
  {
    var o := 12 + 4 * (s[0] % 16);
    assert o + 4 <= |s| ==> Wire.Get16(p, o + 2) == Wire.Get16(s, o + 2);
  }

  lemma PaddedFields(s: seq<byte>, p: seq<byte>, n: nat)
    requires Padded(s, p, n)
    ensures forall i :: 1 <= i && i + 2 <= |s| ==> Wire.Get16(p, i) == Wire.Get16(s, i)
    ensures forall i :: 1 <= i && i + 4 <= |s| ==> Wire.Get32(p, i) == Wire.Get32(s, i)
    ensures forall i, j :: 1 <= i <= j <= |s| ==> p[i..j] == s[i..j]
  {
  }

  lemma PaddedDecodes(s: seq<byte>, p: seq<byte>, n: nat)
    requires Padded(s, p, n) && RtpPacket.Accepted(s)
    ensures RtpPacket.Accepted(p) && RtpPacket.Decode(p) == RtpPacket.Decode(s)
  {
    hide Wire.Get16, Wire.Get32;
    PaddedAccepted(s, p, n);
    PaddedFields(s, p, n);
    var k := s[0] % 16;
    assert Wire.Get32s(p, 12, k) == Wire.Get32s(s, 12, k);
  }

  // Padding is taken off: a padded packet is accepted if and only if the packet
  // without it is, and then means the same, whatever bytes it is padded with.
  lemma PaddingIsRemoved(s: seq<byte>, filler: seq<byte>)
    requires |s| >= 12 && s[0] / 32 % 2 == 0 && |filler| < 255
    ensures var p := WithPadding(s, filler);
            && (RtpPacket.Accepted(p) <==> RtpPacket.Accepted(s))
            && (RtpPacket.Accepted(s) ==> RtpPacket.Decode(p) == RtpPacket.Decode(s))
  {
    hide Padded, RtpPacket.Accepted, RtpPacket.Decode;
    IsPadded(s, filler);
    PaddedAccepted(s, WithPadding(s, filler), |filler| + 1);
    if RtpPacket.Accepted(s) {
      PaddedDecodes(s, WithPadding(s, filler), |filler| + 1);
    }
  }

  // A padding bit without a count is refused.
  lemma EmptyPaddingIsRefused(s: seq<byte>)
    requires |s| >= 12 && s[0] / 32 % 2 == 1 && s[|s| - 1] == 0
    ensures !RtpPacket.Accepted(s)
  {
  }

  // ---- RTCP headers and padding ----

  // The first four bytes of a packet of p bytes.
  predicate HeaderIs(p: seq<byte>, count: int, packettype: int) {
    |p| >= 4 && |p| % 4 == 0 && p[0] == 128 + count && p[1] == packettype && U16(p, 2) == (|p| / 4 - 1) % 65536
  }

  lemma HeaderLayout(count: nat, packettype: byte, body: seq<byte>)
    requires count < 32 && |body| % 4 == 0
    ensures HeaderIs(Header(count, packettype, 4 + |body|) + body, count, packettype)
  {
  }

  // What is left of a packet without its padding; -1 if the count is impossible.
  function Net(p: seq<byte>): int
    requires |p| >= 4
  {
    var n := p[|p| - 1];
    if p[0] / 32 % 2 == 0 then |p| else if n % 4 == 0 && n < |p| then |p| - n else -1
  }

  lemma NetIs(p: seq<byte>)
    requires |p| >= 4
    ensures Unpadded(p) == if Net(p) < 0 then None else Some(Net(p))
  {
  }

  // The known formats, in terms of lengths and counts.
  lemma FormatsAre(p: seq<byte>)
    requires |p| >= 4
    ensures KnownReport(p) <==> Net(p) == 8 + (if p[1] == 200 then 20 else 0) + 24 * (p[0] as int % 32)
    ensures var o := 4 + 4 * (p[0] as int % 32);
            KnownBye(p) <==> o <= Net(p) && (o < Net(p) ==> o + 1 + p[o] as int <= Net(p))
    ensures KnownApp(p) <==> Net(p) >= 12
  {
    NetIs(p);
  }

  // A buffer is cut into these packets if and only if they make it up, the first is
  // an SR or RR, each is of version 2 and has its own length in its header, and only
  // the last one is padded.
  lemma CutIff(s: seq<byte>, packets: seq<seq<byte>>)
    ensures Cut(s, true) == Some(packets) <==>
              && Flatten(packets) == s && packets != []
              && forall i :: 0 <= i < |packets| ==>
                   && |packets[i]| >= 4 && packets[i][0] / 64 == 2 && |packets[i]| == 4 * (U16(packets[i], 2) + 1)
                   && (i == 0 ==> packets[i][1] == 200 || packets[i][1] == 201)
                   && (i < |packets| - 1 ==> packets[i][0] / 32 % 2 == 0)
  {
    if Cut(s, true) == Some(packets) {
      CutTiles(s, true);
      forall i | 0 <= i < |packets|
        ensures && |packets[i]| >= 4 && packets[i][0] / 64 == 2 && |packets[i]| == 4 * (U16(packets[i], 2) + 1)
                && (i == 0 ==> packets[i][1] == 200 || packets[i][1] == 201)
                && (i < |packets| - 1 ==> packets[i][0] / 32 % 2 == 0)
      {
        assert PacketOk(packets[i], i == 0, i == |packets| - 1);
      }
    } else if && Flatten(packets) == s && packets != []
              && forall i :: 0 <= i < |packets| ==>
                   && |packets[i]| >= 4 && packets[i][0] / 64 == 2 && |packets[i]| == 4 * (U16(packets[i], 2) + 1)
                   && (i == 0 ==> packets[i][1] == 200 || packets[i][1] == 201)
                   && (i < |packets| - 1 ==> packets[i][0] / 32 % 2 == 0) {
      forall i | 0 <= i < |packets| ensures PacketOk(packets[i], i == 0, i == |packets| - 1) {
        FieldsAreBigEndian(packets[i], 2);
      }
      FlattenCuts(packets, true);
    }
  }

  // ---- Reports ----

  predicate BlockStands(p: seq<byte>, o: nat, b: ReportBlock) {
    && o + 24 <= |p| && U32(p, o) == b.ssrc && p[o + 4] == b.fractionlost && U24(p, o + 5) == b.packetslost % 16777216
    && U32(p, o + 8) == b.exthighseqnr && U32(p, o + 12) == b.jitter && U32(p, o + 16) == b.lsr
    && U32(p, o + 20) == b.dlsr
  }

  lemma BlockLayout(p: seq<byte>, o: nat, b: ReportBlock)
    requires Wire.Holds(p, o, BlockBytes(b))
    ensures BlockStands(p, o, b)
  {
    BlockReads(p, o, b);
    LostBack(U24(p, o + 5), b.packetslost);
  }

  lemma LostBack(x: int, lost: int32)
    requires 0 <= x < 0x100_0000 && SignExtend24(x) == SignExtend24(lost % 0x100_0000)
    ensures x == lost % 0x100_0000
  {
  }

  lemma {:induction false} BlocksLayout(p: seq<byte>, o: nat, bs: seq<ReportBlock>)
    requires Wire.Holds(p, o, BlocksBytes(bs))
    ensures forall i :: 0 <= i < |bs| ==> BlockStands(p, o + 24 * i, bs[i])
    decreases |bs|
  {
    if bs != [] {
      Wire.HoldsParts(p, o, BlockBytes(bs[0]), BlocksBytes(bs[1..]));
      BlockLayout(p, o, bs[0]);
      BlocksLayout(p, o + 24, bs[1..]);
      forall i | 0 <= i < |bs| ensures BlockStands(p, o + 24 * i, bs[i]) {
        assert i > 0 ==> BlockStands(p, o + 24 + 24 * (i - 1), bs[1..][i - 1]);
      }
    }
  }

  lemma SenderLayout(p: seq<byte>, s: Sender)
    requires |p| >= 4 && KnownReport(p) && SenderOf(p) == s
    ensures |p| >= 8 && U32(p, 4) == s.ssrc
    ensures s.SenderReport? ==>
              && |p| >= 28 && U32(p, 8) == s.ntpmsw && U32(p, 12) == s.ntplsw && U32(p, 16) == s.rtptimestamp
              && U32(p, 20) == s.packetcount && U32(p, 24) == s.octetcount
  {
  }

  // The sender's SSRC and information, and the blocks after them.
  lemma ReportLayout(s: Sender, bs: seq<ReportBlock>)
    requires |bs| <= 31
    ensures var p, o := ReportPacket(s, bs), if s.SenderReport? then 28 else 8;
            && |p| == o + 24 * |bs| && HeaderIs(p, |bs|, if s.SenderReport? then 200 else 201) && U32(p, 4) == s.ssrc
            && (s.SenderReport? ==>
                  && U32(p, 8) == s.ntpmsw && U32(p, 12) == s.ntplsw && U32(p, 16) == s.rtptimestamp
                  && U32(p, 20) == s.packetcount && U32(p, 24) == s.octetcount)
            && forall i :: 0 <= i < |bs| ==> BlockStands(p, o + 24 * i, bs[i])
  {
    hide BlockStands, HeaderIs, U32, BlocksBytes, Wire.Holds;
    var p, body := ReportPacket(s, bs), ReportBody(s, bs);
    ReportKnown(s, bs);
    HeaderLayout(|bs|, if s.SenderReport? then SR else RR, body);
    ReportReads(s, bs);
    SenderLayout(p, s);
    Wire.HoldsParts(p, 4, Wire.Be32(s.ssrc) + SenderInfo(s), BlocksBytes(bs));
    BlocksLayout(p, if s.SenderReport? then 28 else 8, bs);
  }

  // ---- SDES ----

  // The items stand at o one after the other, each with its type and its length,
  // and a zero byte ends them.
  predicate ItemsStand(p: seq<byte>, o: nat, items: seq<Item>)
    decreases |items|
  {
    if items == [] then o < |p| && p[o] == 0
    else
      var n := |items[0].data|;
      && o + 2 + n <= |p| && p[o] == items[0].id != 0 && p[o + 1] == n && p[o + 2..o + 2 + n] == items[0].data
      && ItemsStand(p, o + 2 + n, items[1..])
  }

  lemma {:induction false} ItemsLayout(p: seq<byte>, o: nat, items: seq<Item>)
    requires forall i :: 0 <= i < |items| ==> ItemOk(items[i])
    requires Wire.Holds(p, o, ItemsBytes(items)) && o + |ItemsBytes(items)| < |p| && p[o + |ItemsBytes(items)|] == 0
    ensures ItemsStand(p, o, items)
    decreases |items|
  {
    if items != [] {
      var x := items[0];
      Wire.HoldsParts(p, o, ItemBytes(x), ItemsBytes(items[1..]));
      Wire.HoldsParts(p, o, [x.id, |x.data|], x.data);
      assert p[o] == [x.id, |x.data|][0] && p[o + 1] == [x.id, |x.data|][1];
      Wire.HeldSlice(p, o + 2, x.data);
      ItemsLayout(p, o + 2 + |x.data|, items[1..]);
    }
  }

  // A chunk: its SSRC, its items, and zero bytes to a multiple of four.
  lemma ChunkLayout(p: seq<byte>, o: nat, c: Chunk)
    requires ChunkOk(c) && Wire.Holds(p, o, ChunkBytes(c))
    ensures var n := |ChunkBytes(c)|;
            && n >= 8 && n % 4 == 0 && o + n <= |p| && U32(p, o) == c.ssrc && ItemsStand(p, o + 4, c.items)
            && 4 + |ItemsBytes(c.items)| < n <= 8 + |ItemsBytes(c.items)|
            && forall k :: o + 4 + |ItemsBytes(c.items)| <= k < o + n ==> p[k] == 0
  {
    var m := |ItemsBytes(c.items)| + 1;
    var zeros := Zeros(1 + RoundUp(m) - m);
    ChunkSize(c);
    Wire.HoldsParts(p, o, Wire.Be32(c.ssrc) + ItemsBytes(c.items), zeros);
    Wire.HoldsParts(p, o, Wire.Be32(c.ssrc), ItemsBytes(c.items));
    Wire.Held32(p, o, c.ssrc);
    FieldsAreBigEndian(p, o);
    forall k | o + 3 + m <= k < o + |ChunkBytes(c)| ensures p[k] == 0 {
      assert p[o + 3 + m + (k - o - 3 - m)] == zeros[k - o - 3 - m];
    }
    ItemsLayout(p, o + 4, c.items);
  }

  function ItemsLength(items: seq<Item>): nat {
    if items == [] then 0 else 2 + |items[0].data| + ItemsLength(items[1..])
  }

  // The SSRC, the items, the zero byte that ends them, and up to the next multiple of
  // four.
  function ChunkLength(c: Chunk): nat {
    4 + (ItemsLength(c.items) + 4) / 4 * 4
  }

  lemma {:induction false} ItemsLengthIs(items: seq<Item>)
    requires forall i :: 0 <= i < |items| ==> ItemOk(items[i])
    ensures |ItemsBytes(items)| == ItemsLength(items)
  {
    if items != [] {
      ItemsLengthIs(items[1..]);
    }
  }

  lemma ChunkLengthIs(c: Chunk)
    requires ChunkOk(c)
    ensures |ChunkBytes(c)| == ChunkLength(c)
  {
    ChunkSize(c);
    ItemsLengthIs(c.items);
  }

  // The chunks stand at o one after the other up to the end.
  predicate ChunksStand(p: seq<byte>, o: nat, cs: seq<Chunk>)
    decreases |cs|
  {
    if cs == [] then o == |p|
    else
      && o + 4 <= |p| && U32(p, o) == cs[0].ssrc && ItemsStand(p, o + 4, cs[0].items)
      && ChunksStand(p, o + ChunkLength(cs[0]), cs[1..])
  }

  lemma {:induction false} ChunksLayout(p: seq<byte>, o: nat, cs: seq<Chunk>)
    requires forall i :: 0 <= i < |cs| ==> ChunkOk(cs[i])
    requires Wire.Holds(p, o, ChunksBytes(cs)) && o + |ChunksBytes(cs)| == |p|
    ensures ChunksStand(p, o, cs)
    decreases |cs|
  {
    hide ItemsStand, Wire.Holds, ChunkBytes, ChunkOk, U32, ChunkLength;
    if cs != [] {
      Wire.HoldsParts(p, o, ChunkBytes(cs[0]), ChunksBytes(cs[1..]));
      ChunkLayout(p, o, cs[0]);
      ChunkLengthIs(cs[0]);
      ChunksLayout(p, o + |ChunkBytes(cs[0])|, cs[1..]);
    }
  }

  lemma SdesHead(cs: seq<Chunk>)
    requires |cs| <= 31 && forall i :: 0 <= i < |cs| ==> ChunkOk(cs[i])
    ensures HeaderIs(SdesBytes(cs), |cs|, 202)
  {
    hide HeaderIs, ChunksBytes, ChunkOk, Header;
    ChunksAreWords(cs);
    HeaderLayout(|cs|, SDES, ChunksBytes(cs));
  }

  lemma SdesLayout(cs: seq<Chunk>)
    requires |cs| <= 31 && forall i :: 0 <= i < |cs| ==> ChunkOk(cs[i])
    ensures HeaderIs(SdesBytes(cs), |cs|, 202) && ChunksStand(SdesBytes(cs), 4, cs)
  {
    hide HeaderIs, ChunksStand, Wire.Holds, SdesBytes, ChunksBytes, ChunkOk, Unpadded, PacketOk, Count, PacketType;
    SdesHead(cs);
    SdesHeader(cs);
    ChunksLayout(SdesBytes(cs), 4, cs);
  }

  // ---- BYE and APP ----

  // The SSRCs, and the reason behind its length.
  lemma ByeStands(p: seq<byte>, b: Bye)
    requires ByeOk(b) && Wire.Holds(p, 4, Wire.Be32s(b.ssrcs) + ReasonBytes(b.reason))
    ensures var o, n := 4 + 4 * |b.ssrcs|, |b.reason|;
            && o <= |p| && (forall k :: 0 <= k < |b.ssrcs| ==> U32(p, 4 + 4 * k) == b.ssrcs[k])
            && (n > 0 ==> o + 1 + n <= |p| && p[o] == n && p[o + 1..o + 1 + n] == b.reason)
  {
    hide Wire.Holds, ReasonBytes, Wire.Be32s;
    Wire.HoldsParts(p, 4, Wire.Be32s(b.ssrcs), ReasonBytes(b.reason));
    Wire.Held32s(p, 4, b.ssrcs);
    if b.reason != [] {
      ReasonReads(p, 4 + 4 * |b.ssrcs|, b.reason);
    }
  }

  lemma ReasonLength(reason: seq<byte>)
    requires |reason| < 256
    ensures |ReasonBytes(reason)| == if reason == [] then 0 else (|reason| + 4) / 4 * 4
  {
    ReasonWords(reason);
  }

  lemma ByeHead(b: Bye)
    requires ByeOk(b)
    ensures HeaderIs(ByeBytes(b), |b.ssrcs|, 203)
  {
    hide HeaderIs, Header, ReasonBytes, Wire.Be32s;
    ReasonWords(b.reason);
    HeaderLayout(|b.ssrcs|, BYE, Wire.Be32s(b.ssrcs) + ReasonBytes(b.reason));
  }

  lemma ByeLayout(b: Bye)
    requires ByeOk(b)
    ensures var p, o, n := ByeBytes(b), 4 + 4 * |b.ssrcs|, |b.reason|;
            && HeaderIs(p, |b.ssrcs|, 203) && |p| == o + (if n == 0 then 0 else (n + 4) / 4 * 4)
            && (forall k :: 0 <= k < |b.ssrcs| ==> U32(p, 4 + 4 * k) == b.ssrcs[k])
            && (n > 0 ==> p[o] == n && p[o + 1..o + 1 + n] == b.reason)
  {
    hide HeaderIs, ByeBytes, Wire.Holds, ReasonBytes, Wire.Be32s, U32, Unpadded, PacketOk, Count, PacketType;
    ByeHead(b);
    ByeHeader(b);
    ReasonLength(b.reason);
    ByeStands(ByeBytes(b), b);
  }

  lemma AppHead(a: App)
    requires AppOk(a)
    ensures HeaderIs(AppBytes(a), a.subtype, 204)
  {
    hide HeaderIs, Header, Wire.Be32;
    var body := Wire.Be32(a.ssrc) + a.name + a.data;
    assert |Wire.Be32(a.ssrc)| == 4 by {
      WordLength(a.ssrc);
    }
    assert AppBytes(a) == Header(a.subtype, APP, 4 + |body|) + body;
    HeaderLayout(a.subtype, APP, body);
  }

  lemma WordLength(x: uint32)
    ensures |Wire.Be32(x)| == 4
  {
  }

  lemma AppLayout(a: App)
    requires AppOk(a)
    ensures var p := AppBytes(a);
            && HeaderIs(p, a.subtype, 204) && |p| == 12 + |a.data| && U32(p, 4) == a.ssrc
            && p[8..12] == a.name && p[12..] == a.data
  {
    hide HeaderIs, AppBytes, Wire.Holds, Wire.Be32, PacketOk, Count, PacketType;
    var p := AppBytes(a);
    AppHead(a);
    AppHeader(a);
    AppReads(a);
    assert p[12..] == p[12..|p|];
  }

  // ---- Reading any packet of known format ----

  lemma ReportFields(p: seq<byte>)
    requires KnownReport(p)
    ensures var o := if p[1] == 200 then 28 else 8;
            && SenderOf(p).SenderReport? == (p[1] == 200) && |BlocksOf(p)| == p[0] % 32
            && forall i :: 0 <= i < p[0] % 32 ==> BlockStands(p, o + 24 * i, BlocksOf(p)[i])
  {
    hide BlockStands, Unpadded;
    var o := if p[1] == 200 then 28 else 8;
    KnownHolds(p);
    forall i: nat | i < p[0] % 32 ensures BlockStands(p, o + 24 * i, BlocksOf(p)[i]) {
      BlockFields(p, o + 24 * i);
    }
  }

  lemma KnownHolds(p: seq<byte>)
    requires KnownReport(p)
    ensures |p| >= (if p[1] == 200 then 28 else 8) + 24 * (p[0] as int % 32)
  {
    FormatsAre(p);
  }

  lemma BlockFields(p: seq<byte>, o: nat)
    requires o + 24 <= |p|
    ensures BlockStands(p, o, BlockAt(p, o))
  {
    FieldsAreBigEndian(p, o + 5);
  }

  lemma ByeFields(p: seq<byte>)
    requires KnownBye(p)
    ensures var n, o, b := Net(p), 4 + 4 * (p[0] as int % 32), ByeOf(p);
            && o <= n <= |p| && |b.ssrcs| == p[0] % 32
            && (forall k :: 0 <= k < |b.ssrcs| ==> b.ssrcs[k] == U32(p, 4 + 4 * k))
            && (o == n ==> b.reason == []) && (o < n ==> o + 1 + p[o] <= n && b.reason == p[o + 1..o + 1 + p[o]])
  {
    FormatsAre(p);
    NetIs(p);
    Wire32s(p, 4, p[0] as int % 32);
  }

  lemma Wire32s(p: seq<byte>, o: nat, n: nat)
    requires o + 4 * n <= |p|
    ensures forall k :: 0 <= k < n ==> Wire.Get32s(p, o, n)[k] == U32(p, o + 4 * k)
  {
  }

  lemma AppFields(p: seq<byte>)
    requires KnownApp(p)
    ensures 12 <= Net(p) <= |p| && AppOf(p) == App(p[0] % 32, U32(p, 4), p[8..12], p[12..Net(p)])
  {
    NetIs(p);
  }

  // ---- Padded RTCP packets ----

  // The packet s with padding: the bit is set, the length counts the padding, and
  // the last byte says how much there is.
  function WithRtcpPadding(s: seq<byte>, filler: seq<byte>): seq<byte>
    requires |s| >= 4 && s[0] / 32 % 2 == 0 && |filler| < 255 && |s| + |filler| + 1 <= 0x4_0000
  {
    [s[0] + 32, s[1]] + Wire.Be16((|s| + |filler| + 1) / 4 - 1) + s[4..] + filler + [|filler| + 1]
  }

  // p is s with n bytes of padding, whatever its length field says.
  ghost predicate RtcpPadded(s: seq<byte>, p: seq<byte>, n: nat) {
    && |s| >= 4 && |p| == |s| + n && 0 < n < 256 && n % 4 == 0 && p[|p| - 1] == n
    && s[0] / 32 % 2 == 0 && p[0] == s[0] + 32 && p[1] == s[1] && forall i :: 4 <= i < |s| ==> p[i] == s[i]
  }

  lemma IsRtcpPadded(s: seq<byte>, filler: seq<byte>)
    requires |s| >= 4 && s[0] / 32 % 2 == 0 && |filler| < 255 && |s| + |filler| + 1 <= 0x4_0000
    requires |filler| % 4 == 3
    ensures RtcpPadded(s, WithRtcpPadding(s, filler), |filler| + 1)
    ensures U16(WithRtcpPadding(s, filler), 2) == (|s| + |filler| + 1) / 4 - 1
  {
  }

  lemma HeadersAgree(s: seq<byte>, p: seq<byte>, n: nat)
    requires RtcpPadded(s, p, n)
    ensures 4 <= |s| < |p| && Unpadded(s) == Some(|s|) && Unpadded(p) == Some(|s|)
    ensures Count(p) == Count(s) && PacketType(p) == PacketType(s) && Version(p) == Version(s)
  {
    var x: int := s[0] as int;
    assert (x + 32) / 64 == x / 64 && (x + 32) % 32 == x % 32;
  }

  lemma WordsAgree(s: seq<byte>, p: seq<byte>, n: nat)
    requires RtcpPadded(s, p, n)
    ensures forall i :: 4 <= i && i + 4 <= |s| ==> Wire.Get32(p, i) == Wire.Get32(s, i)
    ensures forall i :: 4 <= i && i + 24 <= |s| ==> BlockAt(p, i) == BlockAt(s, i)
    ensures forall i, j :: 4 <= i <= j <= |s| ==> p[i..j] == s[i..j]
  {
  }

  lemma PaddedReport(s: seq<byte>, p: seq<byte>, n: nat)
    requires RtcpPadded(s, p, n)
    ensures KnownReport(p) <==> KnownReport(s)
    ensures KnownReport(s) ==> SenderOf(p) == SenderOf(s) && BlocksOf(p) == BlocksOf(s)
  {
    hide RtcpPadded, Unpadded, Count, PacketType, Wire.Get32, BlockAt;
    HeadersAgree(s, p, n);
    WordsAgree(s, p, n);
    if KnownReport(s) {
      assert forall i :: 0 <= i < Count(s) ==> BlocksOf(p)[i] == BlocksOf(s)[i];
    }
  }

  lemma PaddedBye(s: seq<byte>, p: seq<byte>, n: nat)
    requires RtcpPadded(s, p, n)
    ensures KnownBye(p) <==> KnownBye(s)
    ensures KnownBye(s) ==> ByeOf(p) == ByeOf(s)
  {
    hide Unpadded, Count, Wire.Get32;
    HeadersAgree(s, p, n);
    WordsAgree(s, p, n);
    if KnownBye(s) {
      assert Wire.Get32s(p, 4, Count(s)) == Wire.Get32s(s, 4, Count(s));
    }
  }

  lemma PaddedApp(s: seq<byte>, p: seq<byte>, n: nat)
    requires RtcpPadded(s, p, n)
    ensures KnownApp(p) <==> KnownApp(s)
    ensures KnownApp(s) ==> AppOf(p) == AppOf(s)
  {
    hide RtcpPadded, Unpadded, Count, Wire.Get32;
    HeadersAgree(s, p, n);
    WordsAgree(s, p, n);
  }

  // Equal from the fifth byte on.
  ghost predicate SameFrom4(a: seq<byte>, b: seq<byte>) {
    |a| == |b| >= 4 && forall i :: 4 <= i < |a| ==> a[i] == b[i]
  }

  lemma {:induction false} SameEnds(a: seq<byte>, b: seq<byte>, o: nat)
    requires SameFrom4(a, b) && 4 <= o <= |a|
    ensures ItemsEnd(a, o) == ItemsEnd(b, o)
    decreases |a| - o
  {
    if o < |a| && a[o] != 0 && o + 1 < |a| && o + 2 + a[o + 1] <= |a| {
      SameEnds(a, b, o + 2 + a[o + 1]);
    }
  }

  lemma SameBytes(a: seq<byte>, b: seq<byte>, i: nat, j: nat)
    requires SameFrom4(a, b) && 4 <= i <= j <= |a|
    ensures |b| == |a| && a[i..j] == b[i..j] && (i < |a| ==> a[i] == b[i])
  {
  }

  lemma {:induction false} SameItems(a: seq<byte>, b: seq<byte>, o: nat)
    requires SameFrom4(a, b) && 4 <= o <= |a| && ItemsEnd(a, o).Some?
    ensures o <= |b| && ItemsEnd(b, o).Some? && ItemsAt(a, o) == ItemsAt(b, o)
    decreases |a| - o
  {
    hide SameFrom4;
    SameBytes(a, b, o, o);
    SameEnds(a, b, o);
    if a[o] != 0 {
      var next: nat := o + 2 + a[o + 1];
      SameBytes(a, b, o + 1, o + 1);
      SameBytes(a, b, o + 2, next);
      SameItems(a, b, next);
    }
  }

  lemma SameWord(a: seq<byte>, b: seq<byte>, o: nat)
    requires SameFrom4(a, b) && 4 <= o
    ensures |a| == |b| && (o + 4 <= |a| ==> Wire.Get32(a, o) == Wire.Get32(b, o))
  {
  }

  lemma {:induction false} SameChunks(a: seq<byte>, b: seq<byte>, o: nat, n: nat)
    requires SameFrom4(a, b) && 4 <= o <= |a|
    ensures ChunksOk(a, o, n) <==> ChunksOk(b, o, n)
    ensures ChunksOk(a, o, n) ==> ChunksAt(a, o, n) == ChunksAt(b, o, n)
    decreases n
  {
    hide SameFrom4, ItemsEnd, ItemsAt, Wire.Get32;
    SameWord(a, b, o);
    if n > 0 && |a| - o >= 8 {
      SameEnds(a, b, o + 4);
      if ChunkEnd(a, o).Some? {
        SameItems(a, b, o + 4);
        SameChunks(a, b, ChunkEnd(a, o).value, n - 1);
      }
    }
  }

  lemma PaddedSdes(s: seq<byte>, p: seq<byte>, n: nat)
    requires RtcpPadded(s, p, n)
    ensures KnownSdes(p) <==> KnownSdes(s)
    ensures KnownSdes(s) ==> ChunksOf(p) == ChunksOf(s)
  {
    hide Unpadded, Count, ChunksOk, ChunksAt;
    HeadersAgree(s, p, n);
    SameChunks(Body(s), Body(p), 4, Count(s));
  }

  // Padding is taken off an RTCP packet: with a whole number of words of padding,
  // counted in its last byte, a packet is of a known format if and only if it is so
  // without, and every field then means the same.
  lemma RtcpPaddingIsRemoved(s: seq<byte>, filler: seq<byte>)
    requires |s| >= 4 && s[0] / 32 % 2 == 0 && |filler| < 255 && |s| + |filler| + 1 <= 0x4_0000
    requires |filler| % 4 == 3
    ensures var p := WithRtcpPadding(s, filler);
            && (KnownReport(p) <==> KnownReport(s)) && (KnownBye(p) <==> KnownBye(s))
            && (KnownApp(p) <==> KnownApp(s)) && (KnownSdes(p) <==> KnownSdes(s))
            && (KnownReport(s) ==> SenderOf(p) == SenderOf(s) && BlocksOf(p) == BlocksOf(s))
            && (KnownBye(s) ==> ByeOf(p) == ByeOf(s)) && (KnownApp(s) ==> AppOf(p) == AppOf(s))
            && (KnownSdes(s) ==> ChunksOf(p) == ChunksOf(s))
  {
    hide RtcpPadded, WithRtcpPadding, KnownReport, KnownBye, KnownApp, KnownSdes;
    var p, n := WithRtcpPadding(s, filler), |filler| + 1;
    IsRtcpPadded(s, filler);
    PaddedReport(s, p, n);
    PaddedBye(s, p, n);
    PaddedApp(s, p, n);
    PaddedSdes(s, p, n);
  }

  // A count that is no whole number of words, or as long as the packet, leaves no
  // format known.
  lemma ImpossiblePadding(p: seq<byte>)
    requires |p| >= 4 && p[0] / 32 % 2 == 1 && (p[|p| - 1] % 4 != 0 || p[|p| - 1] >= |p|)
    ensures !KnownReport(p) && !KnownBye(p) && !KnownApp(p) && !KnownSdes(p)
  {
  }

  // Padding the last packet of a compound packet: it is cut as before, with the
  // padded packet in the place of the other.
  lemma PaddedCompoundIsCut(packets: seq<seq<byte>>, s: seq<byte>, filler: seq<byte>)
    requires |s| >= 4 && s[0] / 32 % 2 == 0 && |filler| < 255 && |s| + |filler| + 1 <= 0x4_0000
    requires |filler| % 4 == 3 && Cut(Flatten(packets + [s]), true) == Some(packets + [s])
    ensures var padded := packets + [WithRtcpPadding(s, filler)];
            Cut(Flatten(padded), true) == Some(padded)
  {
    hide RtcpPadded, WithRtcpPadding, PacketOk, Flatten, Cut;
    var p := WithRtcpPadding(s, filler);
    IsRtcpPadded(s, filler);
    CutTiles(Flatten(packets + [s]), true);
    assert (packets + [s])[|packets|] == s;
    assert PacketOk(s, |packets| == 0, true);
    PaddedPacketOk(s, filler, |packets| == 0);
    forall i | 0 <= i < |packets| + 1 ensures PacketOk((packets + [p])[i], i == 0, i == |packets|) {
      assert PacketOk((packets + [s])[i], i == 0, i == |packets|);
    }
    FlattenCuts(packets + [p], true);
  }

  lemma PaddedPacketOk(s: seq<byte>, filler: seq<byte>, first: bool)
    requires |s| >= 4 && s[0] / 32 % 2 == 0 && |filler| < 255 && |s| + |filler| + 1 <= 0x4_0000
    requires |filler| % 4 == 3 && PacketOk(s, first, true)
    ensures PacketOk(WithRtcpPadding(s, filler), first, true)
  {
    IsRtcpPadded(s, filler);
    HeadersAgree(s, WithRtcpPadding(s, filler), |filler| + 1);
    FieldsAreBigEndian(WithRtcpPadding(s, filler), 2);
  }

  // ---- Frames ----

  // A frame over TCP: the length in two bytes, and the packet.
  lemma FrameLayout(payload: seq<byte>)
    requires |payload| <= 65535
    ensures var s := TcpFraming.Frame(payload);
            |s| == 2 + |payload| && U16(s, 0) == |payload| && s[2..] == payload
  {
  }
}
