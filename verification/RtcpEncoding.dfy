// The bytes of RTCP packets as the compound builder lays them out, and what
// reading them back gives.
module RtcpEncoding {
  import opened Types
  import opened Wire
  import opened RtcpPackets
  import opened SdesPacket

  const MAX_COUNT := 31
  const MAX_PACKET_LENGTH := 262144

  predicate ItemOk(item: Item) {
    item.id != 0 && |item.data| < 256
  }

  predicate ChunkOk(c: Chunk) {
    forall i :: 0 <= i < |c.items| ==> ItemOk(c.items[i])
  }

  predicate AppOk(a: App) {
    a.subtype < 32 && |a.name| == 4 && |a.data| % 4 == 0 && |a.data| / 4 + 2 <= 65535
  }

  predicate ByeOk(b: Bye) {
    |b.ssrcs| <= MAX_COUNT && |b.reason| < 256
  }

  // ---- Layout ----

  // The length field counts 32-bit words minus one, in 16 bits.
  function Header(count: nat, packettype: byte, length: nat): (h: seq<byte>)
    requires count < 32
    ensures |h| == HEADER_SIZE
  {
    [RTP_VERSION * 64 + count, packettype] + Be16(Wrap16(length / 4 - 1))
  }

  function BlockBytes(b: ReportBlock): (s: seq<byte>)
    ensures |s| == REPORT_BLOCK_SIZE
  {
    Be32(b.ssrc) + [b.fractionlost] + Be24(b.packetslost % 0x100_0000) +
        Be32s([b.exthighseqnr, b.jitter, b.lsr, b.dlsr])
  }

  function BlocksBytes(bs: seq<ReportBlock>): (s: seq<byte>)
    ensures |s| == REPORT_BLOCK_SIZE * |bs|
  {
    if bs == [] then [] else BlockBytes(bs[0]) + BlocksBytes(bs[1..])
  }

  function SenderInfo(s: Sender): seq<byte> {
    if s.SenderReport? then Be32s([s.ntpmsw, s.ntplsw, s.rtptimestamp, s.packetcount, s.octetcount]) else []
  }

  function ReportBody(s: Sender, bs: seq<ReportBlock>): seq<byte> {
    Be32(s.ssrc) + SenderInfo(s) + BlocksBytes(bs)
  }

  // Every report packet after the first is a receiver report of the same SSRC.
  function Later(s: Sender): Sender {
    ReceiverReport(s.ssrc)
  }

  function ReportPacket(s: Sender, bs: seq<ReportBlock>): seq<byte>
    requires |bs| <= MAX_COUNT
  {
    var body := ReportBody(s, bs);
    Header(|bs|, if s.SenderReport? then SR else RR, HEADER_SIZE + |body|) + body
  }

  function ReportPackets(s: Sender, bs: seq<ReportBlock>): seq<seq<byte>>
    decreases |bs|
  {
    if |bs| <= MAX_COUNT then [ReportPacket(s, bs)]
    else [ReportPacket(s, bs[..MAX_COUNT])] + ReportPackets(Later(s), bs[MAX_COUNT..])
  }

  function ItemBytes(item: Item): seq<byte>
    requires ItemOk(item)
  {
    [item.id, |item.data|] + item.data
  }

  function ItemsBytes(items: seq<Item>): seq<byte>
    requires forall i :: 0 <= i < |items| ==> ItemOk(items[i])
  {
    if items == [] then [] else ItemBytes(items[0]) + ItemsBytes(items[1..])
  }

  function Zeros(n: nat): (z: seq<byte>)
    ensures |z| == n && forall i :: 0 <= i < n ==> z[i] == 0
  {
    seq(n, i => 0)
  }

  // The zero byte that ends the list, and more up to the next multiple of four.
  function ChunkBytes(c: Chunk): seq<byte>
    requires ChunkOk(c)
  {
    var n := |ItemsBytes(c.items)| + 1;
    Be32(c.ssrc) + ItemsBytes(c.items) + Zeros(1 + RoundUp(n) - n)
  }

  function ChunksBytes(cs: seq<Chunk>): seq<byte>
    requires forall i :: 0 <= i < |cs| ==> ChunkOk(cs[i])
  {
    if cs == [] then [] else ChunkBytes(cs[0]) + ChunksBytes(cs[1..])
  }

  function SdesBytes(cs: seq<Chunk>): seq<byte>
    requires |cs| <= MAX_COUNT && forall i :: 0 <= i < |cs| ==> ChunkOk(cs[i])
  {
    Header(|cs|, SDES, HEADER_SIZE + |ChunksBytes(cs)|) + ChunksBytes(cs)
  }

  function SdesPackets(cs: seq<Chunk>): seq<seq<byte>>
    requires forall i :: 0 <= i < |cs| ==> ChunkOk(cs[i])
  {
    if cs == [] then []
    else if |cs| <= MAX_COUNT then [SdesBytes(cs)]
    else [SdesBytes(cs[..MAX_COUNT])] + SdesPackets(cs[MAX_COUNT..])
  }

  function AppBytes(a: App): seq<byte>
    requires AppOk(a)
  {
    Header(a.subtype, APP, HEADER_SIZE + 8 + |a.data|) + Be32(a.ssrc) + a.name + a.data
  }

  // A reason is preceded by its length and followed by zeros up to the next
  // multiple of four.
  function ReasonBytes(reason: seq<byte>): seq<byte>
    requires |reason| < 256
  {
    if reason == [] then [] else [|reason|] + reason + Zeros(RoundUp(1 + |reason|) - 1 - |reason|)
  }

  function ByeBytes(b: Bye): seq<byte>
    requires ByeOk(b)
  {
    var body := Be32s(b.ssrcs) + ReasonBytes(b.reason);
    Header(|b.ssrcs|, BYE, HEADER_SIZE + |body|) + body
  }

  // ---- Headers ----

  lemma RoundUpWords(n: nat)
    ensures RoundUp(n) % 4 == 0
  {
  }

  // The header of a packet of whole words reads back; its length field is right
  // exactly when the packet is not longer than 2^16 words.
  lemma HeaderReads(count: nat, packettype: byte, length: nat, body: seq<byte>)
    requires count < 32 && length == HEADER_SIZE + |body| && length % 4 == 0
    ensures var p := Header(count, packettype, length) + body;
            && |p| == length && Version(p) == RTP_VERSION && !HasPadding(p) && Count(p) == count
            && PacketType(p) == packettype && Unpadded(p) == Some(length)
            && (AnnouncedLength(p) == length <==> length <= MAX_PACKET_LENGTH) && Holds(p, HEADER_SIZE, body)
  {
    var p := Header(count, packettype, length) + body;
    HoldsWhole(p);
    HoldsParts(p, 0, Header(count, packettype, length), body);
    var w := Wrap16(length / 4 - 1);
    assert p[2] == w / 256 && p[3] == w % 256;
    assert Get16(p, 2) == w;
  }

  // ---- Reports ----

  // What a report block comes back as: its loss count modulo 2^24, signed.
  function Norm(b: ReportBlock): ReportBlock {
    b.(packetslost := SignExtend24(b.packetslost % 0x100_0000))
  }

  // The loss count comes back exactly if and only if it fits 24 bits signed.
  lemma NormExact(b: ReportBlock)
    ensures Norm(b) == b <==> -0x80_0000 <= b.packetslost < 0x80_0000
    ensures (Norm(b).packetslost - b.packetslost) % 0x100_0000 == 0
  {
  }

  lemma BlockReads(s: seq<byte>, o: nat, b: ReportBlock)
    requires Holds(s, o, BlockBytes(b))
    ensures BlockAt(s, o) == Norm(b)
  {
    var lost, words := b.packetslost % 0x100_0000, [b.exthighseqnr, b.jitter, b.lsr, b.dlsr];
    HoldsParts(s, o, Be32(b.ssrc) + [b.fractionlost] + Be24(lost), Be32s(words));
    HoldsParts(s, o, Be32(b.ssrc) + [b.fractionlost], Be24(lost));
    HoldsParts(s, o, Be32(b.ssrc), [b.fractionlost]);
    Held32(s, o, b.ssrc);
    assert s[o + 4] == [b.fractionlost][0];
    Held24(s, o + 5, lost);
    Held32s(s, o + 8, words);
    assert Get32(s, o + 8 + 4 * 0) == words[0] && Get32(s, o + 8 + 4 * 1) == words[1];
    assert Get32(s, o + 8 + 4 * 2) == words[2] && Get32(s, o + 8 + 4 * 3) == words[3];
  }

  lemma {:induction false} BlocksRead(s: seq<byte>, o: nat, bs: seq<ReportBlock>)
    requires Holds(s, o, BlocksBytes(bs))
    ensures forall i :: 0 <= i < |bs| ==> BlockAt(s, o + REPORT_BLOCK_SIZE * i) == Norm(bs[i])
    decreases |bs|
  {
    if bs != [] {
      HoldsParts(s, o, BlockBytes(bs[0]), BlocksBytes(bs[1..]));
      BlockReads(s, o, bs[0]);
      BlocksRead(s, o + REPORT_BLOCK_SIZE, bs[1..]);
      forall i | 0 <= i < |bs| ensures BlockAt(s, o + REPORT_BLOCK_SIZE * i) == Norm(bs[i]) {
        assert i > 0 ==> BlockAt(s, o + REPORT_BLOCK_SIZE + REPORT_BLOCK_SIZE * (i - 1)) == Norm(bs[1..][i - 1]);
      }
    }
  }

  function Norms(bs: seq<ReportBlock>): (r: seq<ReportBlock>)
    ensures |r| == |bs| && forall i :: 0 <= i < |bs| ==> r[i] == Norm(bs[i])
  {
    seq(|bs|, i requires 0 <= i < |bs| => Norm(bs[i]))
  }

  // The size and the header of a report packet.
  lemma ReportKnown(s: Sender, bs: seq<ReportBlock>)
    requires |bs| <= MAX_COUNT
    ensures var p := ReportPacket(s, bs);
            && |p| == HEADER_SIZE + 4 + (if s.SenderReport? then SENDER_INFO_SIZE else 0) + REPORT_BLOCK_SIZE * |bs|
            && KnownReport(p) && Count(p) == |bs| && PacketType(p) == (if s.SenderReport? then SR else RR)
            && PacketOk(p, true, false) && Holds(p, HEADER_SIZE, ReportBody(s, bs))
  {
    var body := ReportBody(s, bs);
    HeaderReads(|bs|, if s.SenderReport? then SR else RR, HEADER_SIZE + |body|, body);
  }

  lemma SenderReads(p: seq<byte>, s: Sender)
    requires |p| >= HEADER_SIZE && KnownReport(p) && PacketType(p) == if s.SenderReport? then SR else RR
    requires Holds(p, HEADER_SIZE, Be32(s.ssrc) + SenderInfo(s))
    ensures SenderOf(p) == s
  {
    HoldsParts(p, HEADER_SIZE, Be32(s.ssrc), SenderInfo(s));
    Held32(p, HEADER_SIZE, s.ssrc);
    if s.SenderReport? {
      var words := [s.ntpmsw, s.ntplsw, s.rtptimestamp, s.packetcount, s.octetcount];
      Held32s(p, 8, words);
      assert Get32(p, 8 + 4 * 0) == words[0] && Get32(p, 8 + 4 * 1) == words[1] && Get32(p, 8 + 4 * 2) == words[2];
      assert Get32(p, 8 + 4 * 3) == words[3] && Get32(p, 8 + 4 * 4) == words[4];
    }
  }

  lemma BlocksAre(p: seq<byte>, bs: seq<ReportBlock>)
    requires |p| >= HEADER_SIZE && KnownReport(p) && Count(p) == |bs| && Holds(p, ReportStart(p), BlocksBytes(bs))
    ensures BlocksOf(p) == Norms(bs)
  {
    BlocksRead(p, ReportStart(p), bs);
    var read, norms := BlocksOf(p), Norms(bs);
    assert forall i :: 0 <= i < |bs| ==> read[i] == norms[i];
  }

  lemma ReportFields(p: seq<byte>, s: Sender, bs: seq<ReportBlock>)
    requires |p| >= HEADER_SIZE && KnownReport(p) && PacketType(p) == if s.SenderReport? then SR else RR
    requires Count(p) == |bs| && Holds(p, HEADER_SIZE, ReportBody(s, bs))
    ensures SenderOf(p) == s && BlocksOf(p) == Norms(bs)
  {
    HoldsParts(p, HEADER_SIZE, Be32(s.ssrc) + SenderInfo(s), BlocksBytes(bs));
    SenderReads(p, s);
    BlocksAre(p, bs);
  }

  // A report packet is of known format and reads back.
  lemma ReportReads(s: Sender, bs: seq<ReportBlock>)
    requires |bs| <= MAX_COUNT
    ensures var p := ReportPacket(s, bs); KnownReport(p) && SenderOf(p) == s && BlocksOf(p) == Norms(bs)
  {
    ReportKnown(s, bs);
    ReportFields(ReportPacket(s, bs), s, bs);
  }

  // ---- SDES ----

  lemma ItemReads(s: seq<byte>, o: nat, item: Item)
    requires ItemOk(item) && Holds(s, o, ItemBytes(item)) && ItemsEnd(s, o + 2 + |item.data|).Some?
    ensures ItemsEnd(s, o) == ItemsEnd(s, o + 2 + |item.data|)
    ensures ItemsAt(s, o) == [item] + ItemsAt(s, o + 2 + |item.data|)
  {
    HoldsParts(s, o, [item.id, |item.data|], item.data);
    HeldSlice(s, o + 2, item.data);
    assert s[o] == [item.id, |item.data|][0] && s[o + 1] == [item.id, |item.data|][1];
  }

  lemma {:induction false} ItemsRead(s: seq<byte>, o: nat, items: seq<Item>)
    requires forall i :: 0 <= i < |items| ==> ItemOk(items[i])
    requires Holds(s, o, ItemsBytes(items)) && o + |ItemsBytes(items)| < |s| && s[o + |ItemsBytes(items)|] == 0
    ensures ItemsEnd(s, o) == Some(o + |ItemsBytes(items)| + 1) && ItemsAt(s, o) == items
    decreases |items|
  {
    if items != [] {
      HoldsParts(s, o, ItemBytes(items[0]), ItemsBytes(items[1..]));
      ItemsRead(s, o + |ItemBytes(items[0])|, items[1..]);
      ItemReads(s, o, items[0]);
      HeadTail(items);
    }
  }

  lemma RoundUpShift(n: nat)
    ensures RoundUp(4 + n) == 4 + RoundUp(n)
  {
  }

  lemma ChunkSize(c: Chunk)
    requires ChunkOk(c)
    ensures |ChunkBytes(c)| == 4 + RoundUp(|ItemsBytes(c.items)| + 1) && |ChunkBytes(c)| % 4 == 0
  {
    RoundUpWords(|ItemsBytes(c.items)| + 1);
  }

  lemma ChunkEnds(s: seq<byte>, o: nat, m: nat, size: nat)
    requires size == 4 + RoundUp(m + 1) && o + size <= |s|
    requires ItemsEnd(s, o + 4) == Some(o + 4 + m + 1)
    ensures ChunkEnd(s, o) == Some(o + size)
  {
    RoundUpShift(m + 1);
    var e := ItemsEnd(s, o + 4).value;
    assert e - o == 4 + (m + 1);
    assert |s| - o >= 8;
  }

  lemma ChunkReads(s: seq<byte>, o: nat, c: Chunk)
    requires ChunkOk(c) && Holds(s, o, ChunkBytes(c))
    ensures ChunkEnd(s, o) == Some(o + |ChunkBytes(c)|) && Get32(s, o) == c.ssrc && ItemsAt(s, o + 4) == c.items
  {
    hide ItemsBytes, ItemsEnd, ItemsAt, Holds;
    var n := |ItemsBytes(c.items)| + 1;
    var zeros := Zeros(1 + RoundUp(n) - n);
    HoldsParts(s, o, Be32(c.ssrc) + ItemsBytes(c.items), zeros);
    HoldsParts(s, o, Be32(c.ssrc), ItemsBytes(c.items));
    Held32(s, o, c.ssrc);
    assert s[o + 4 + n - 1] == zeros[0];
    ItemsRead(s, o + 4, c.items);
    ChunkSize(c);
    ChunkEnds(s, o, n - 1, |ChunkBytes(c)|);
  }

  lemma {:induction false} ChunksRead(s: seq<byte>, o: nat, cs: seq<Chunk>)
    requires forall i :: 0 <= i < |cs| ==> ChunkOk(cs[i])
    requires Holds(s, o, ChunksBytes(cs)) && o + |ChunksBytes(cs)| == |s|
    ensures ChunksOk(s, o, |cs|) && ChunksAt(s, o, |cs|) == cs
    decreases |cs|
  {
    hide ChunkBytes, ChunkOk, ChunkEnd, ItemsAt, ItemsEnd;
    if cs != [] {
      HoldsParts(s, o, ChunkBytes(cs[0]), ChunksBytes(cs[1..]));
      ChunkReads(s, o, cs[0]);
      ChunksRead(s, o + |ChunkBytes(cs[0])|, cs[1..]);
      HeadTail(cs);
    }
  }

  lemma WordsAdd(a: nat, b: nat)
    requires a % 4 == 0 && b % 4 == 0
    ensures (a + b) % 4 == 0
  {
  }

  lemma {:induction false} ChunksAreWords(cs: seq<Chunk>)
    requires forall i :: 0 <= i < |cs| ==> ChunkOk(cs[i])
    ensures |ChunksBytes(cs)| % 4 == 0
  {
    if cs != [] {
      ChunkSize(cs[0]);
      ChunksAreWords(cs[1..]);
      WordsAdd(|ChunkBytes(cs[0])|, |ChunksBytes(cs[1..])|);
    }
  }

  lemma SdesHeader(cs: seq<Chunk>)
    requires |cs| <= MAX_COUNT && forall i :: 0 <= i < |cs| ==> ChunkOk(cs[i])
    ensures var p := SdesBytes(cs);
            && PacketType(p) == SDES && Count(p) == |cs| && Unpadded(p) == Some(|p|)
            && |p| == HEADER_SIZE + |ChunksBytes(cs)| && |p| % 4 == 0
            && (PacketOk(p, false, false) <==> |p| <= MAX_PACKET_LENGTH) && Holds(p, HEADER_SIZE, ChunksBytes(cs))
  {
    ChunksAreWords(cs);
    var body := ChunksBytes(cs);
    WordsAdd(HEADER_SIZE, |body|);
    HeaderReads(|cs|, SDES, HEADER_SIZE + |body|, body);
  }

  lemma SdesReads(cs: seq<Chunk>)
    requires |cs| <= MAX_COUNT && forall i :: 0 <= i < |cs| ==> ChunkOk(cs[i])
    ensures KnownSdes(SdesBytes(cs)) && ChunksOf(SdesBytes(cs)) == cs
  {
    var p := SdesBytes(cs);
    SdesHeader(cs);
    assert Body(p) == p;
    ChunksRead(p, HEADER_SIZE, cs);
  }

  // ---- APP and BYE ----

  lemma AppHeader(a: App)
    requires AppOk(a)
    ensures var p := AppBytes(a);
            && PacketType(p) == APP && Count(p) == a.subtype && Unpadded(p) == Some(|p|)
            && |p| == HEADER_SIZE + 8 + |a.data| && PacketOk(p, false, false)
            && Holds(p, HEADER_SIZE, Be32(a.ssrc) + a.name + a.data)
  {
    var body := Be32(a.ssrc) + a.name + a.data;
    assert AppBytes(a) == Header(a.subtype, APP, HEADER_SIZE + 8 + |a.data|) + body;
    WordsAdd(HEADER_SIZE + 8, |a.data|);
    HeaderReads(a.subtype, APP, HEADER_SIZE + 8 + |a.data|, body);
  }

  lemma AppReads(a: App)
    requires AppOk(a)
    ensures KnownApp(AppBytes(a)) && AppOf(AppBytes(a)) == a
  {
    var p := AppBytes(a);
    AppHeader(a);
    HoldsParts(p, HEADER_SIZE, Be32(a.ssrc) + a.name, a.data);
    HoldsParts(p, HEADER_SIZE, Be32(a.ssrc), a.name);
    Held32(p, HEADER_SIZE, a.ssrc);
    HeldSlice(p, 8, a.name);
    HeldSlice(p, 12, a.data);
  }

  lemma ReasonWords(reason: seq<byte>)
    requires |reason| < 256
    ensures |ReasonBytes(reason)| % 4 == 0 && |ReasonBytes(reason)| <= 256
    ensures reason != [] ==> |ReasonBytes(reason)| == RoundUp(1 + |reason|) && |ReasonBytes(reason)| > |reason|
  {
    RoundUpWords(1 + |reason|);
  }

  lemma ByeHeader(b: Bye)
    requires ByeOk(b)
    ensures var p := ByeBytes(b);
            && PacketType(p) == BYE && Count(p) == |b.ssrcs| && Unpadded(p) == Some(|p|)
            && |p| == HEADER_SIZE + 4 * |b.ssrcs| + |ReasonBytes(b.reason)| && |p| % 4 == 0 && PacketOk(p, false, false)
            && Holds(p, HEADER_SIZE, Be32s(b.ssrcs) + ReasonBytes(b.reason))
  {
    var body := Be32s(b.ssrcs) + ReasonBytes(b.reason);
    ReasonWords(b.reason);
    HeaderReads(|b.ssrcs|, BYE, HEADER_SIZE + |body|, body);
  }

  lemma ReasonReads(s: seq<byte>, o: nat, reason: seq<byte>)
    requires |reason| < 256 && reason != [] && Holds(s, o, ReasonBytes(reason))
    ensures |s| >= o + 1 + |reason| && s[o] == |reason| && s[o + 1..o + 1 + |reason|] == reason
  {
    HoldsParts(s, o, [|reason|] + reason, Zeros(RoundUp(1 + |reason|) - 1 - |reason|));
    HoldsParts(s, o, [|reason|], reason);
    assert s[o] == [|reason|][0];
    HeldSlice(s, o + 1, reason);
  }

  lemma ByeFields(p: seq<byte>, b: Bye)
    requires ByeOk(b) && |p| == HEADER_SIZE + 4 * |b.ssrcs| + |ReasonBytes(b.reason)|
    requires Count(p) == |b.ssrcs| && Unpadded(p) == Some(|p|)
             && Holds(p, HEADER_SIZE, Be32s(b.ssrcs) + ReasonBytes(b.reason))
    ensures KnownBye(p) && ByeOf(p) == b
  {
    HoldsParts(p, HEADER_SIZE, Be32s(b.ssrcs), ReasonBytes(b.reason));
    Held32s(p, HEADER_SIZE, b.ssrcs);
    ReasonWords(b.reason);
    if b.reason != [] {
      ReasonReads(p, HEADER_SIZE + 4 * |b.ssrcs|, b.reason);
    }
  }

  lemma ByeReads(b: Bye)
    requires ByeOk(b)
    ensures KnownBye(ByeBytes(b)) && ByeOf(ByeBytes(b)) == b
  {
    ByeHeader(b);
    ByeFields(ByeBytes(b), b);
  }
}
