// RTCPCompoundPacketBuilder: the object that collects reports, SDES chunks, APP
// and BYE packets as buffers, and writes them out as one compound packet.
module CompoundBuilder {
  import opened Types
  import opened Wire
  import opened RtcpPackets
  import opened SdesPacket
  import opened RtcpEncoding
  import opened RoundTrip
  import opened BuildModel
  import opened CompoundPacket

  // One SDES chunk: its items as buffers, and their total size.
  datatype SdesSource = SdesSource(ssrc: uint32, items: seq<seq<byte>>, totalitemsize: nat)

  // ---- What the buffers of a build hold ----

  function HeaderData(s: Option<Sender>): seq<byte> {
    if s.None? then [] else Be32(s.value.ssrc) + SenderInfo(s.value)
  }

  function BlockBuffers(bs: seq<ReportBlock>): (r: seq<seq<byte>>)
    ensures |r| == |bs| && forall i :: 0 <= i < |bs| ==> r[i] == BlockBytes(bs[i])
  {
    seq(|bs|, i requires 0 <= i < |bs| => BlockBytes(bs[i]))
  }

  function ItemBuffers(items: seq<Item>): (r: seq<seq<byte>>)
    requires forall i :: 0 <= i < |items| ==> ItemOk(items[i])
    ensures |r| == |items| && forall i :: 0 <= i < |items| ==> r[i] == ItemBytes(items[i])
  {
    seq(|items|, i requires 0 <= i < |items| => ItemBytes(items[i]))
  }

  function SourceFor(c: Chunk): SdesSource
    requires ChunkOk(c)
  {
    SdesSource(c.ssrc, ItemBuffers(c.items), ItemsSize(c.items))
  }

  function Sources(cs: seq<Chunk>): (r: seq<SdesSource>)
    requires ChunksGood(cs)
    ensures |r| == |cs| && forall i :: 0 <= i < |cs| ==> r[i] == SourceFor(cs[i])
  {
    seq(|cs|, i requires 0 <= i < |cs| => SourceFor(cs[i]))
  }

  lemma SourceWithItem(c: Chunk, item: Item)
    requires ChunkOk(c) && ItemOk(item) && ChunkOk(c.(items := c.items + [item]))
    ensures SourceFor(c.(items := c.items + [item])) ==
            SdesSource(c.ssrc, SourceFor(c).items + [ItemBytes(item)], SourceFor(c).totalitemsize + |ItemBytes(item)|)
  {
    ItemsSizeAppend(c.items, item);
    assert ItemBuffers(c.items + [item]) == ItemBuffers(c.items) + [ItemBytes(item)];
  }

  lemma SourcesWithItem(cs: seq<Chunk>, item: Item)
    requires cs != [] && ChunksGood(cs) && ItemOk(item) && ChunksGood(WithItem(cs, item))
    ensures var last := Sources(cs)[|cs| - 1];
            Sources(WithItem(cs, item)) ==
              Sources(cs)[|cs| - 1 := SdesSource(last.ssrc, last.items + [ItemBytes(item)],
                  last.totalitemsize + |ItemBytes(item)|)]
  {
    var c := cs[|cs| - 1];
    assert WithItem(cs, item)[|cs| - 1] == c.(items := c.items + [item]);
    SourceWithItem(c, item);
  }

  // ---- The builder object ----

  class RTCPCompoundPacketBuilder {
    var maximumpacketsize: nat
    var buffer: array?<byte>
    var external: bool
    var arebuilding: bool
    var isSR: bool
    var headerdata: seq<byte>
    var reportblocks: seq<seq<byte>>
    var sdessources: seq<SdesSource>
    var byepackets: seq<seq<byte>>
    var byesize: nat
    var apppackets: seq<seq<byte>>
    var appsize: nat
    var compoundpacket: array?<byte>
    var compoundpacketlength: nat
    var rtcppacklist: seq<PacketInfo>
    // What the buffers stand for.
    ghost var sender: Option<Sender>
    ghost var blocks: seq<ReportBlock>
    ghost var chunks: seq<Chunk>
    ghost var apps: seq<App>
    ghost var byes: seq<Bye>

    ghost predicate ReportOk()
      reads this`isSR, this`headerdata, this`reportblocks, this`sender, this`blocks
    {
      && headerdata == HeaderData(sender) && isSR == (sender.Some? && sender.value.SenderReport?)
      && reportblocks == BlockBuffers(blocks) && (sender.None? ==> blocks == [])
    }

    ghost predicate SdesOk()
      reads this`sdessources, this`chunks
    {
      ChunksGood(chunks) && sdessources == Sources(chunks)
    }

    ghost predicate AppsOk()
      reads this`apppackets, this`appsize, this`apps
    {
      AppsGood(apps) && apppackets == AppPackets(apps) && appsize == AppsSize(apps)
    }

    ghost predicate ByesOk()
      reads this`byepackets, this`byesize, this`byes
    {
      ByesGood(byes) && byepackets == ByePackets(byes) && byesize == ByesSize(byes)
    }

    ghost function Value(): Build
      reads this`maximumpacketsize, this`sender, this`blocks, this`chunks, this`apps, this`byes
    {
      Build(maximumpacketsize, sender, blocks, chunks, apps, byes)
    }

    ghost function State(): Option<Build>
      reads this`maximumpacketsize, this`isSR, this`headerdata, this`reportblocks, this`sdessources
      reads this`byepackets, this`byesize, this`apppackets, this`appsize
      reads this`sender, this`blocks, this`chunks, this`apps, this`byes
    {
      if ReportOk() && SdesOk() && AppsOk() && ByesOk() then Some(Value()) else None
    }

    // The state together with the status that a call returns.
    ghost function Done(status: Status): Option<Result>
      reads this`maximumpacketsize, this`isSR, this`headerdata, this`reportblocks, this`sdessources
      reads this`byepackets, this`byesize, this`apppackets, this`appsize
      reads this`sender, this`blocks, this`chunks, this`apps, this`byes
    {
      if State().Some? then Some(Result(State().value, status)) else None
    }

    constructor ()
      ensures State() == Some(Start(0)) && !arebuilding && compoundpacket == null && rtcppacklist == []
    {
      maximumpacketsize, buffer, external, arebuilding := 0, null, false, false;
      isSR, headerdata, reportblocks, sdessources := false, [], [], [];
      byepackets, byesize, apppackets, appsize := [], 0, [], 0;
      compoundpacket, compoundpacketlength, rtcppacklist := null, 0, [];
      sender, blocks, chunks, apps, byes := None, [], [], [], [];
    }

    // What both InitBuild functions check first.
    function InitStatus(size: nat, toosmall: Status): Status
      reads this`arebuilding, this`compoundpacket
    {
      if arebuilding then AlreadyBuilding
      else if compoundpacket != null then AlreadyBuilt
      else if size < MIN_PACKET_SIZE then toosmall
      else Ok
    }

    // Start building in new memory.
    method InitBuild(maxpacketsize: nat) returns (status: Status)
      requires State().Some? && (!arebuilding ==> State() == Some(Start(maximumpacketsize)))
      modifies this`maximumpacketsize, this`buffer, this`external, this`byesize, this`appsize, this`arebuilding
      ensures status == old(InitStatus(maxpacketsize, MaxPacketSizeTooSmall))
      ensures State() == Some(if status == Ok then Start(maxpacketsize) else old(Value()))
      ensures arebuilding == (old(arebuilding) || status == Ok) && (status == Ok ==> !external && buffer == null)
    {
      status := InitStatus(maxpacketsize, MaxPacketSizeTooSmall);
      if status == Ok {
        BeginBuild(maxpacketsize);
        SetTarget(null, false);
      }
    }

    // Start building in the caller's buffer.
    method InitBuildExternal(externalbuffer: array<byte>) returns (status: Status)
      requires State().Some? && (!arebuilding ==> State() == Some(Start(maximumpacketsize)))
      modifies this`maximumpacketsize, this`buffer, this`external, this`byesize, this`appsize, this`arebuilding
      ensures status == old(InitStatus(externalbuffer.Length, BufferSizeTooSmall))
      ensures State() == Some(if status == Ok then Start(externalbuffer.Length) else old(Value()))
      ensures arebuilding == (old(arebuilding) || status == Ok)
              && (status == Ok ==> external && buffer == externalbuffer)
    {
      status := InitStatus(externalbuffer.Length, BufferSizeTooSmall);
      if status == Ok {
        BeginBuild(externalbuffer.Length);
        SetTarget(externalbuffer, true);
      }
    }

    method BeginBuild(maxpacketsize: nat)
      requires State() == Some(Start(maximumpacketsize))
      modifies this`maximumpacketsize, this`byesize, this`appsize
      ensures State() == Some(Start(maxpacketsize))
    {
      maximumpacketsize := maxpacketsize;
      byesize := 0;
      appsize := 0;
    }

    method SetTarget(target: array?<byte>, isexternal: bool)
      modifies this`buffer, this`external, this`arebuilding
      ensures buffer == target && external == isexternal && arebuilding
    {
      buffer := target;
      external := isexternal;
      arebuilding := true;
    }

    // ---- Size accounting ----

    method ReportNeededBytes() returns (x: nat)
      requires State().Some?
      ensures x == ReportSize(sender, |blocks|)
    {
      var n := |reportblocks|;
      if n == 0 {
        if |headerdata| == 0 {
          return 0;
        }
        x := HEADER_SIZE + |headerdata|;
      } else {
        x := n * REPORT_BLOCK_SIZE;
        var d := n / 31;
        var r := n % 31;
        if r != 0 {
          d := d + 1;
        }
        x := x + d * (HEADER_SIZE + 4);
        if isSR {
          x := x + SENDER_INFO_SIZE;
        }
      }
    }

    method ReportNeededBytesWithExtraReportBlock() returns (x: nat)
      requires State().Some? && sender.Some?
      ensures x == BlocksSize(sender.value, |blocks| + 1)
    {
      var n := |reportblocks| + 1;
      x := n * REPORT_BLOCK_SIZE;
      var d := n / 31;
      var r := n % 31;
      if r != 0 {
        d := d + 1;
      }
      x := x + d * (HEADER_SIZE + 4);
      if isSR {
        x := x + SENDER_INFO_SIZE;
      }
    }

    // SDESSource::NeededBytes and NeededBytesWithExtraItem, for the size of the
    // items.
    static method SourceNeededBytes(itemssize: nat) returns (x: nat)
      ensures x == PaddedChunkSize(itemssize)
    {
      x := itemssize + 1;
      var r := x % 4;
      if r != 0 {
        x := x + (4 - r);
      }
      x := x + 4;
    }

    // The sum over the first n sources.
    method SumSources(n: nat) returns (x: nat)
      requires State().Some? && n <= |sdessources|
      ensures x == ChunksSize(chunks[..n])
    {
      x := 0;
      var i := 0;
      while i < n
        invariant i <= n && x == ChunksSize(chunks[..i])
      {
        assert chunks[..i + 1][..i] == chunks[..i];
        var size := SourceNeededBytes(sdessources[i].totalitemsize);
        x := x + size;
        i := i + 1;
      }
    }

    method SDESNeededBytes() returns (x: nat)
      requires State().Some?
      ensures x == SdesSize(chunks)
    {
      if |sdessources| == 0 {
        return 0;
      }
      x := SumSources(|sdessources|);
      assert chunks[..|sdessources|] == chunks;
      var n := |sdessources|;
      var d := n / 31;
      var r := n % 31;
      if r != 0 {
        d := d + 1;
      }
      x := x + d * HEADER_SIZE;
    }

    method SDESNeededBytesWithExtraItem(itemdatalength: nat) returns (x: nat)
      requires State().Some?
      ensures x == SdesSizeWithExtraItem(chunks, itemdatalength)
    {
      if |sdessources| == 0 {
        return 0;
      }
      var n := |sdessources|;
      x := SumSources(n - 1);
      var last := SourceNeededBytes(sdessources[n - 1].totalitemsize + ITEM_HEADER_SIZE + itemdatalength);
      x := x + last;
      var d := n / 31;
      var r := n % 31;
      if r != 0 {
        d := d + 1;
      }
      x := x + d * HEADER_SIZE;
    }

    method SDESNeededBytesWithExtraSource() returns (x: nat)
      requires State().Some?
      ensures x == SdesSizeWithExtraSource(chunks)
    {
      if |sdessources| == 0 {
        return 0;
      }
      x := SumSources(|sdessources|);
      assert chunks[..|sdessources|] == chunks;
      x := x + 8;
      var n := |sdessources| + 1;
      var d := n / 31;
      var r := n % 31;
      if r != 0 {
        d := d + 1;
      }
      x := x + d * HEADER_SIZE;
    }

    // ---- Collecting ----

    // The room left for a report; the subtraction is unsigned.
    method ReportRoom() returns (sizeleft: nat)
      requires State().Some?
      ensures sizeleft == SizeLeft(Value())
    {
      var sdessize := SDESNeededBytes();
      var totalsize := byesize + appsize + sdessize;
      sizeleft := (maximumpacketsize - totalsize) % SIZE_MODULUS;
    }

    method StartSenderReport(s: Sender) returns (status: Status)
      requires State().Some? && s.SenderReport?
      modifies this`isSR, this`headerdata, this`sender
      ensures Done(status) == Some(Call(arebuilding, old(Value()), StartReport(s)))
    {
      hide SdesOk, AppsOk, ByesOk;
      if !arebuilding {
        return NotBuilding;
      }
      if |headerdata| != 0 {
        return AlreadyGotReport;
      }
      var sizeleft := ReportRoom();
      var neededsize := HEADER_SIZE + 4 + SENDER_INFO_SIZE;
      if neededsize > sizeleft {
        return NotEnoughBytesLeft;
      }
      isSR := true;
      headerdata := Be32(s.ssrc) + Be32s([s.ntpmsw, s.ntplsw, s.rtptimestamp, s.packetcount, s.octetcount]);
      sender := Some(s);
      return Ok;
    }

    method StartReceiverReport(senderssrc: uint32) returns (status: Status)
      requires State().Some?
      modifies this`isSR, this`headerdata, this`sender
      ensures Done(status) == Some(Call(arebuilding, old(Value()), StartReport(ReceiverReport(senderssrc))))
    {
      hide SdesOk, AppsOk, ByesOk;
      if !arebuilding {
        return NotBuilding;
      }
      if |headerdata| != 0 {
        return AlreadyGotReport;
      }
      var sizeleft := ReportRoom();
      var neededsize := HEADER_SIZE + 4;
      if neededsize > sizeleft {
        return NotEnoughBytesLeft;
      }
      isSR := false;
      headerdata := Be32(senderssrc);
      sender := Some(ReceiverReport(senderssrc));
      assert headerdata + [] == headerdata;
      return Ok;
    }

    method AddReportBlock(b: ReportBlock) returns (status: Status)
      requires State().Some?
      modifies this`reportblocks, this`blocks
      ensures Done(status) == Some(Call(arebuilding, old(Value()), AddBlock(b)))
    {
      if !arebuilding {
        return NotBuilding;
      }
      if |headerdata| == 0 {
        return ReportNotStarted;
      }
      var sdessize := SDESNeededBytes();
      var totalothersize := byesize + appsize + sdessize;
      var reportsizewithextrablock := ReportNeededBytesWithExtraReportBlock();
      if totalothersize + reportsizewithextrablock > maximumpacketsize {
        return NotEnoughBytesLeft;
      }
      PushBlock(b);
      return Ok;
    }

    method PushBlock(b: ReportBlock)
      requires State().Some? && sender.Some?
      modifies this`reportblocks, this`blocks
      ensures State() == Some(old(Value()).(blocks := old(Value()).blocks + [b]))
    {
      var packlost2 := b.packetslost % 0x1_0000_0000;
      LowBytes(b.packetslost);
      var buf := Be32(b.ssrc) + [b.fractionlost] + [packlost2 / 0x1_0000 % 256, packlost2 / 256 % 256, packlost2 % 256]
                 + Be32s([b.exthighseqnr, b.jitter, b.lsr, b.dlsr]);
      reportblocks := reportblocks + [buf];
      blocks := blocks + [b];
    }

    // The low three bytes of a number, taken from its 32-bit representation.
    static lemma LowBytes(x: int32)
      ensures var u := x % 0x1_0000_0000;
              [u / 0x1_0000 % 256, u / 256 % 256, u % 256] == Be24(x % 0x100_0000)
    {
      var u, v := x % 0x1_0000_0000, x % 0x100_0000;
      assert u % 0x100_0000 == v;
      LowThree(u, v);
    }

    static lemma LowThree(u: nat, v: nat)
      requires u < 0x1_0000_0000 && v == u % 0x100_0000
      ensures u / 0x1_0000 % 256 == v / 0x1_0000 && u / 256 % 256 == v / 256 % 256 && u % 256 == v % 256
    {
      var k := u / 0x100_0000;
      assert u == v + 0x100_0000 * k;
      assert u / 0x1_0000 == v / 0x1_0000 + 256 * k;
      assert u / 256 == v / 256 + 256 * (256 * k);
      assert u == v + 256 * (0x1_0000 * k);
      SameLowByte(v / 0x1_0000, k);
      SameLowByte(v / 256, 256 * k);
      SameLowByte(v, 0x1_0000 * k);
    }

    static lemma SameLowByte(a: nat, k: nat)
      ensures (a + 256 * k) % 256 == a % 256
    {
    }

    method AddSDESSource(ssrc: uint32) returns (status: Status)
      requires State().Some?
      modifies this`sdessources, this`chunks
      ensures Done(status) == Some(Call(arebuilding, old(Value()), AddSource(ssrc)))
    {
      if !arebuilding {
        return NotBuilding;
      }
      var reportsize := ReportNeededBytes();
      var totalotherbytes := byesize + appsize + reportsize;
      var sdessizewithextrasource := SDESNeededBytesWithExtraSource();
      if totalotherbytes + sdessizewithextrasource > maximumpacketsize {
        return NotEnoughBytesLeft;
      }
      PushSource(ssrc);
      return Ok;
    }

    // SDES::AddSSRC.
    method PushSource(ssrc: uint32)
      requires State().Some?
      modifies this`sdessources, this`chunks
      ensures State() == Some(old(Value()).(chunks := old(Value()).chunks + [Chunk(ssrc, [])]))
    {
      sdessources := sdessources + [SdesSource(ssrc, [], 0)];
      chunks := chunks + [Chunk(ssrc, [])];
      assert sdessources[|sdessources| - 1] == SourceFor(Chunk(ssrc, []));
    }

    // SDES::AddItem, on the last source.
    method PushItem(item: Item, buf: seq<byte>)
      requires State().Some? && chunks != [] && ItemOk(item) && buf == ItemBytes(item)
      modifies this`sdessources, this`chunks
      ensures State() == Some(old(Value()).(chunks := WithItem(old(Value()).chunks, item)))
    {
      WithItemGood(chunks, item);
      SourcesWithItem(chunks, item);
      var n := |sdessources| - 1;
      var last := sdessources[n];
      sdessources := sdessources[n := SdesSource(last.ssrc, last.items + [buf], last.totalitemsize + |buf|)];
      chunks := WithItem(chunks, item);
    }

    // The size check and the addition that both kinds of item share.
    method StoreItem(item: Item, buf: seq<byte>) returns (status: Status)
      requires State().Some? && chunks != [] && ItemOk(item) && buf == ItemBytes(item)
      modifies this`sdessources, this`chunks
      ensures Done(status) == Some(PutItem(old(Value()), item))
    {
      var reportsize := ReportNeededBytes();
      var totalotherbytes := byesize + appsize + reportsize;
      var sdessizewithextraitem := SDESNeededBytesWithExtraItem(|item.data|);
      if sdessizewithextraitem + totalotherbytes > maximumpacketsize {
        return NotEnoughBytesLeft;
      }
      PushItem(item, buf);
      return Ok;
    }

    method AddSDESNormalItem(t: int, itemdata: short) returns (status: Status)
      requires State().Some?
      modifies this`sdessources, this`chunks
      ensures Done(status) == Some(Call(arebuilding, old(Value()), AddItem(t, itemdata)))
    {
      if !arebuilding {
        return NotBuilding;
      }
      if |sdessources| == 0 {
        return NoCurrentSource;
      }
      if t < CNAME || t > NOTE {
        return InvalidItemType;
      }
      status := StoreItem(Item(t, itemdata), [t, |itemdata|] + itemdata);
    }

    method AddSDESPrivateItem(prefixdata: short, valuedata: short) returns (status: Status)
      requires State().Some?
      modifies this`sdessources, this`chunks
      ensures Done(status) == Some(Call(arebuilding, old(Value()), AddPrivate(prefixdata, valuedata)))
    {
      if !arebuilding {
        return NotBuilding;
      }
      if |sdessources| == 0 {
        return NoCurrentSource;
      }
      var itemlength := |prefixdata| + 1 + |valuedata|;
      if itemlength > 255 {
        return TotalItemLengthTooBig;
      }
      var data := PrivateData(prefixdata, valuedata);
      status := StoreItem(Item(PRIV, data), [PRIV, itemlength] + data);
    }

    // What everything but the packet to be added takes.
    method CurrentSize() returns (size: nat)
      requires State().Some?
      ensures size == Total(Value())
    {
      var sdessize := SDESNeededBytes();
      var reportsize := ReportNeededBytes();
      size := appsize + byesize + sdessize + reportsize;
    }

    method AddBYEPacket(ssrcs: seq<uint32>, reasondata: short) returns (status: Status)
      requires State().Some?
      modifies this`byepackets, this`byesize, this`byes
      ensures Done(status) == Some(Call(arebuilding, old(Value()), AddBye(Bye(ssrcs, reasondata))))
    {
      if !arebuilding {
        return NotBuilding;
      }
      if |ssrcs| > 31 {
        return TooManySsrcs;
      }
      var packsize, zerobytes := ByePacketSize(Bye(ssrcs, reasondata));
      var totalotherbytes := CurrentSize();
      if totalotherbytes + packsize > maximumpacketsize {
        return NotEnoughBytesLeft;
      }
      var buf := NextByeBuffer(Bye(ssrcs, reasondata), packsize, zerobytes, byes);
      PushBye(buf, packsize, byes + [Bye(ssrcs, reasondata)]);
      return Ok;
    }

    static method ByePacketSize(b: Bye) returns (packsize: nat, zerobytes: nat)
      ensures packsize == ByeSize(b)
      ensures zerobytes == if b.reason == [] then 0 else packsize - (HEADER_SIZE + 4 * |b.ssrcs| + 1 + |b.reason|)
    {
      packsize := HEADER_SIZE + 4 * |b.ssrcs|;
      zerobytes := 0;
      if |b.reason| > 0 {
        packsize := packsize + 1;
        packsize := packsize + |b.reason|;
        var r := packsize % 4;
        if r != 0 {
          zerobytes := 4 - r;
          packsize := packsize + zerobytes;
        }
      }
    }

    static lemma ByeZeros(b: Bye)
      requires ByeOk(b) && b.reason != []
      ensures RoundUp(HEADER_SIZE + 4 * |b.ssrcs| + 1 + |b.reason|) - (HEADER_SIZE + 4 * |b.ssrcs| + 1 + |b.reason|)
              == RoundUp(1 + |b.reason|) - 1 - |b.reason|
    {
    }

    static lemma OneMoreBye(byes: seq<Bye>, b: Bye)
      requires ByesGood(byes) && ByeOk(b)
      ensures ByesGood(byes + [b]) && ByePackets(byes + [b]) == ByePackets(byes) + [ByeBytes(b)]
      ensures ByesSize(byes + [b]) == ByesSize(byes) + ByeSize(b)
    {
      ByePacketsAppend(byes, b);
      assert (byes + [b])[..|byes|] == byes;
    }

    // The BYE packet in a buffer of its own.
    static method ByeBuffer(b: Bye, packsize: nat, zerobytes: nat) returns (buf: seq<byte>)
      requires ByeOk(b) && packsize == ByeSize(b)
      requires zerobytes == if b.reason == [] then 0 else packsize - (HEADER_SIZE + 4 * |b.ssrcs| + 1 + |b.reason|)
      ensures buf == ByeBytes(b)
    {
      ByeExact(b);
      var numwords := packsize / 4;
      buf := [128 + |b.ssrcs|, BYE] + Be16(Wrap16(numwords - 1)) + Be32s(b.ssrcs);
      if |b.reason| != 0 {
        ByeZeros(b);
        buf := buf + ([|b.reason|] + b.reason + Zeros(zerobytes));
      }
      assert [128 + |b.ssrcs|, BYE] + Be16(Wrap16(numwords - 1)) == Header(|b.ssrcs|, BYE, packsize);
      assert buf == Header(|b.ssrcs|, BYE, packsize) + (Be32s(b.ssrcs) + ReasonBytes(b.reason));
    }

    // The same, as the next packet after those before.
    static method NextByeBuffer(b: Bye, packsize: nat, zerobytes: nat, ghost before: seq<Bye>) returns (buf: seq<byte>)
      requires ByeOk(b) && packsize == ByeSize(b) && ByesGood(before)
      requires zerobytes == if b.reason == [] then 0 else packsize - (HEADER_SIZE + 4 * |b.ssrcs| + 1 + |b.reason|)
      ensures ByesGood(before + [b]) && ByePackets(before + [b]) == ByePackets(before) + [buf]
      ensures ByesSize(before + [b]) == ByesSize(before) + packsize
    {
      OneMoreBye(before, b);
      buf := ByeBuffer(b, packsize, zerobytes);
    }

    method PushBye(buf: seq<byte>, packsize: nat, ghost newbyes: seq<Bye>)
      requires State().Some? && ByesGood(newbyes) && ByePackets(newbyes) == byepackets + [buf]
      requires ByesSize(newbyes) == byesize + packsize
      modifies this`byepackets, this`byesize, this`byes
      ensures State() == Some(old(Value()).(byes := newbyes))
    {
      hide HeaderData, BlockBuffers, Sources, AppPackets, ByePackets;
      byepackets := byepackets + [buf];
      byesize := byesize + packsize;
      byes := newbyes;
      assert ReportOk() && SdesOk();
      assert AppsOk() && ByesOk();
    }

    method AddAPPPacket(subtype: byte, ssrc: uint32, name: seq<byte>, appdata: seq<byte>) returns (status: Status)
      requires State().Some? && |name| == 4
      modifies this`apppackets, this`appsize, this`apps
      ensures Done(status) == Some(Call(arebuilding, old(Value()), AddApp(App(subtype, ssrc, name, appdata))))
    {
      if !arebuilding {
        return NotBuilding;
      }
      if subtype > 31 {
        return IllegalSubtype;
      }
      if |appdata| % 4 != 0 {
        return IllegalAppDataLength;
      }
      var appdatawords := |appdata| / 4;
      if appdatawords + 2 > 65535 {
        return AppDataLenTooBig;
      }
      var packsize := HEADER_SIZE + 8 + |appdata|;
      var totalotherbytes := CurrentSize();
      if totalotherbytes + packsize > maximumpacketsize {
        return NotEnoughBytesLeft;
      }
      var buf := NextAppBuffer(App(subtype, ssrc, name, appdata), apps);
      PushApp(buf, packsize, apps + [App(subtype, ssrc, name, appdata)]);
      return Ok;
    }

    static lemma OneMoreApp(apps: seq<App>, a: App)
      requires AppsGood(apps) && AppOk(a)
      ensures AppsGood(apps + [a]) && AppPackets(apps + [a]) == AppPackets(apps) + [AppBytes(a)]
      ensures AppsSize(apps + [a]) == AppsSize(apps) + AppSize(a)
    {
      AppPacketsAppend(apps, a);
      assert (apps + [a])[..|apps|] == apps;
    }

    // The APP packet in a buffer of its own.
    static method AppBuffer(a: App) returns (buf: seq<byte>)
      requires AppOk(a)
      ensures buf == AppBytes(a)
    {
      assert a.name == [a.name[0], a.name[1], a.name[2], a.name[3]];
      var header := [128 + a.subtype, APP] + Be16(|a.data| / 4 + 2);
      buf := header + Be32(a.ssrc) + [a.name[0], a.name[1], a.name[2], a.name[3]] + a.data;
    }

    // The same, as the next packet after those before.
    static method NextAppBuffer(a: App, ghost before: seq<App>) returns (buf: seq<byte>)
      requires AppOk(a) && AppsGood(before)
      ensures AppsGood(before + [a]) && AppPackets(before + [a]) == AppPackets(before) + [buf]
      ensures AppsSize(before + [a]) == AppsSize(before) + AppSize(a)
    {
      OneMoreApp(before, a);
      buf := AppBuffer(a);
    }

    method PushApp(buf: seq<byte>, packsize: nat, ghost newapps: seq<App>)
      requires State().Some? && AppsGood(newapps) && AppPackets(newapps) == apppackets + [buf]
      requires AppsSize(newapps) == appsize + packsize
      modifies this`apppackets, this`appsize, this`apps
      ensures State() == Some(old(Value()).(apps := newapps))
    {
      apppackets := apppackets + [buf];
      appsize := appsize + packsize;
      apps := newapps;
      assert ReportOk() && SdesOk();
      assert AppsOk() && ByesOk();
    }

    // ---- Writing the packet ----

    // buf starts with the packets ps, and they are the ones remembered.
    ghost predicate Written(buf: array<byte>, pos: nat, ps: seq<seq<byte>>)
      reads this`rtcppacklist, buf
    {
      pos <= buf.Length && buf[..pos] == Flatten(ps) && rtcppacklist == Infos(ps, 0)
    }

    // Remember the packet just written at start.
    method AddEntry(buf: array<byte>, start: nat, length: nat, ghost ps: seq<seq<byte>>, ghost p: seq<byte>)
      requires start <= buf.Length && rtcppacklist == Infos(ps, 0) && start == |Flatten(ps)|
               && |p| == length >= HEADER_SIZE
      requires start + length <= buf.Length && buf[..start + length] == Flatten(ps) + p
      modifies this`rtcppacklist
      ensures Written(buf, start + length, ps + [p])
    {
      assert buf[start..start + length] == p;
      var info := CreatePacket(buf, start, length);
      InfosAppend(ps, p, 0);
      FlattenAppend(ps, p);
      rtcppacklist := rtcppacklist + [info];
    }

    // Fill in the header of the packet at start, whose body has been written.
    static method PatchHeader(buf: array<byte>, start: nat, count: nat, packettype: byte, length: nat)
      requires start + HEADER_SIZE <= buf.Length && count < 32
      modifies buf
      ensures buf[..start] == old(buf[..start]) && buf[start + HEADER_SIZE..] == old(buf[start + HEADER_SIZE..])
      ensures buf[start..start + HEADER_SIZE] == Header(count, packettype, length)
    {
      var numwords := length / 4;
      var lengthfield := Wrap16(numwords - 1);
      buf[start] := 2 * 64 + count;
      buf[start + 1] := packettype;
      buf[start + 2] := lengthfield / 256;
      buf[start + 3] := lengthfield % 256;
    }

    static lemma Patched(buf: seq<byte>, start: nat, pos: nat, h: seq<byte>, body: seq<byte>)
      requires start + |h| + |body| == pos <= |buf|
      requires buf[start..start + |h|] == h && buf[start + |h|..pos] == body
      ensures buf[..pos] == buf[..start] + (h + body)
    {
      assert buf[..pos] == buf[..start] + buf[start..start + |h|] + buf[start + |h|..pos];
    }

    // Copy some buffers one after the other.
    static method CopyBuffers(buf: array<byte>, start: nat, bufs: seq<seq<byte>>) returns (pos: nat)
      requires start + |Flatten(bufs)| <= buf.Length
      modifies buf
      ensures pos == start + |Flatten(bufs)| && buf[..pos] == old(buf[..start]) + Flatten(bufs)
    {
      pos := start;
      var i := 0;
      while i < |bufs|
        invariant i <= |bufs| && pos + |Flatten(bufs[i..])| == start + |Flatten(bufs)|
        invariant buf[..pos] + Flatten(bufs[i..]) == old(buf[..start]) + Flatten(bufs)
      {
        ghost var before, p, rest := buf[..pos], bufs[i], Flatten(bufs[i + 1..]);
        assert bufs[i..][0] == p && bufs[i..][1..] == bufs[i + 1..];
        pos := Put(buf, pos, bufs[i]);
        assert before + (p + rest) == (before + p) + rest;
        i := i + 1;
      }
    }

    static lemma {:induction false} BlocksFlatten(bs: seq<ReportBlock>)
      ensures Flatten(BlockBuffers(bs)) == BlocksBytes(bs)
    {
      if bs != [] {
        assert BlockBuffers(bs)[1..] == BlockBuffers(bs[1..]);
        BlocksFlatten(bs[1..]);
      }
    }

    static lemma {:induction false} ItemsFlatten(items: seq<Item>)
      requires forall i :: 0 <= i < |items| ==> ItemOk(items[i])
      ensures Flatten(ItemBuffers(items)) == ItemsBytes(items)
    {
      if items != [] {
        assert ItemBuffers(items)[1..] == ItemBuffers(items[1..]);
        ItemsFlatten(items[1..]);
      }
    }

    // Fill in the header once the body of the packet at start has been written.
    static method FinishPacket(buf: array<byte>, start: nat, pos: nat, count: nat, packettype: byte,
                               ghost front: seq<byte>, ghost body: seq<byte>)
      requires start + HEADER_SIZE <= pos <= buf.Length && count < 32
      requires |front| == start + HEADER_SIZE && buf[..pos] == front + body
      modifies buf
      ensures buf[..pos] == front[..start] + (Header(count, packettype, pos - start) + body)
    {
      ghost var tail := buf[start + HEADER_SIZE..];
      assert tail[..pos - (start + HEADER_SIZE)] == buf[start + HEADER_SIZE..pos] == body;
      assert buf[..start] == front[..start];
      PatchHeader(buf, start, count, packettype, pos - start);
      assert buf[start + HEADER_SIZE..pos] == buf[start + HEADER_SIZE..][..pos - (start + HEADER_SIZE)];
      Patched(buf[..], start, pos, Header(count, packettype, pos - start), body);
    }

    static method WriteBody(buf: array<byte>, start: nat, packettype: byte, header: seq<byte>, bufs: seq<seq<byte>>)
      returns (offset: nat)
      requires |bufs| < 32 && start + HEADER_SIZE + |header| + |Flatten(bufs)| <= buf.Length
      modifies buf
      ensures offset == HEADER_SIZE + |header| + |Flatten(bufs)|
      ensures buf[..start + offset] == old(buf[..start]) +
              (Header(|bufs|, packettype, offset) + (header + Flatten(bufs)))
    {
      ghost var front := buf[..start + HEADER_SIZE];
      var pos := Put(buf, start + HEADER_SIZE, header);
      pos := CopyBuffers(buf, pos, bufs);
      offset := pos - start;
      assert buf[..pos] == front + (header + Flatten(bufs));
      FinishPacket(buf, start, pos, |bufs|, packettype, front, header + Flatten(bufs));
    }

    // One report packet; the header is filled in when its blocks are written.
    static method WriteReport(buf: array<byte>, start: nat, issr: bool, header: seq<byte>, bufs: seq<seq<byte>>,
                              ghost s: Sender, ghost bs: seq<ReportBlock>)
      returns (offset: nat)
      requires |bs| <= MAX_COUNT && bufs == BlockBuffers(bs) && header == HeaderData(Some(s)) && issr == s.SenderReport?
      requires start + |ReportPacket(s, bs)| <= buf.Length
      modifies buf
      ensures offset == |ReportPacket(s, bs)| && buf[..start + offset] == old(buf[..start]) + ReportPacket(s, bs)
    {
      BlocksFlatten(bs);
      offset := WriteBody(buf, start, if issr then SR else RR, header, bufs);
    }

    static lemma ChunkPad(offset: nat, m: nat)
      requires offset % 4 == 0
      ensures RoundUp(offset + 4 + m + 1) == offset + 4 + RoundUp(m + 1)
    {
      var k, n := offset / 4 + 1, m + 1;
      assert offset + 4 + m + 1 == 4 * k + n;
      WordShift(n, k);
    }

    static lemma WordShift(n: nat, k: nat)
      ensures (4 * k + n) % 4 == n % 4
    {
    }

    // The zero byte that ends an item list, and zeros up to the next multiple of
    // four, counted from start.
    static method WritePadding(buf: array<byte>, start: nat, pos: nat) returns (end: nat)
      requires start <= pos && start + RoundUp(pos + 1 - start) <= buf.Length
      modifies buf
      ensures end == start + RoundUp(pos + 1 - start) && buf[..end] == old(buf[..pos]) + Zeros(end - pos)
    {
      end := Put(buf, pos, [0]);
      var offset := end - start;
      var r := offset % 4;
      if r != 0 {
        var num := 4 - r;
        end := Put(buf, end, Zeros(num));
      }
    }

    // One SDES chunk, padded with zeros up to the next multiple of four.
    static method WriteItems(buf: array<byte>, start: nat, offset: nat, ssrc: uint32, items: seq<seq<byte>>)
      returns (end: nat)
      requires offset % 4 == 0
      requires var n := |Flatten(items)| + 1; start + offset + 4 + RoundUp(n) <= buf.Length
      modifies buf
      ensures var n := |Flatten(items)| + 1;
              && end == offset + 4 + RoundUp(n)
              && buf[..start + end] == old(buf[..start + offset]) +
                  (Be32(ssrc) + Flatten(items) + Zeros(1 + RoundUp(n) - n))
    {
      hide Flatten, Zeros, RoundUp;
      ghost var m := |Flatten(items)|;
      ghost var before := buf[..start + offset];
      ChunkPad(offset, m);
      var pos := Put(buf, start + offset, Be32(ssrc));
      pos := CopyBuffers(buf, pos, items);
      pos := WritePadding(buf, start, pos);
      end := pos - start;
    }

    // The bytes of each chunk.
    static ghost function PartAt(parts: seq<seq<byte>>, i: nat): seq<byte>
      requires i < |parts|
    {
      parts[i]
    }

    static ghost predicate AreParts(parts: seq<seq<byte>>, cs: seq<Chunk>)
      requires ChunksGood(cs)
    {
      |parts| == |cs| && forall i {:trigger PartAt(parts, i)} :: 0 <= i < |cs| ==> PartAt(parts, i) == ChunkBytes(cs[i])
    }

    static lemma {:induction false} ChunksFlatten(cs: seq<Chunk>) returns (parts: seq<seq<byte>>)
      requires ChunksGood(cs)
      ensures AreParts(parts, cs) && Flatten(parts) == ChunksBytes(cs)
    {
      parts := [];
      if cs != [] {
        var rest := ChunksFlatten(cs[1..]);
        parts := [ChunkBytes(cs[0])] + rest;
        assert parts[1..] == rest;
        forall i | 0 <= i < |cs| ensures PartAt(parts, i) == ChunkBytes(cs[i]) {
          assert i > 0 ==> PartAt(rest, i - 1) == ChunkBytes(cs[i]);
        }
      }
    }

    static method WriteChunk(buf: array<byte>, start: nat, offset: nat, src: SdesSource,
                             ghost cs: seq<Chunk>, ghost parts: seq<seq<byte>>, ghost i: nat)
      returns (end: nat)
      requires ChunksGood(cs) && AreParts(parts, cs) && i < |cs| && src == SourceFor(cs[i]) && offset % 4 == 0
      requires start + offset + |parts[i]| <= buf.Length
      modifies buf
      ensures end == offset + |parts[i]| && end % 4 == 0
      ensures buf[..start + end] == old(buf[..start + offset]) + parts[i]
    {
      assert PartAt(parts, i) == ChunkBytes(cs[i]);
      ItemsFlatten(cs[i].items);
      ChunkSize(cs[i]);
      end := WriteItems(buf, start, offset, src.ssrc, src.items);
    }

    // The chunks of one SDES packet.
    static method WriteChunks(buf: array<byte>, start: nat, srcs: seq<SdesSource>, ghost cs: seq<Chunk>,
                              ghost parts: seq<seq<byte>>)
      returns (offset: nat)
      requires ChunksGood(cs) && srcs == Sources(cs) && AreParts(parts, cs)
      requires start + HEADER_SIZE + |Flatten(parts)| <= buf.Length
      modifies buf
      ensures offset == HEADER_SIZE + |Flatten(parts)|
      ensures buf[..start + offset] == old(buf[..start + HEADER_SIZE]) + Flatten(parts)
    {
      offset := HEADER_SIZE;
      var i := 0;
      while i < |srcs|
        invariant i <= |srcs| && offset % 4 == 0 && offset + |Flatten(parts[i..])| == HEADER_SIZE + |Flatten(parts)|
        invariant buf[..start + offset] + Flatten(parts[i..]) == old(buf[..start + HEADER_SIZE]) + Flatten(parts)
      {
        ghost var before, p, rest := buf[..start + offset], parts[i], Flatten(parts[i + 1..]);
        assert parts[i..][0] == p && parts[i..][1..] == parts[i + 1..];
        offset := WriteChunk(buf, start, offset, srcs[i], cs, parts, i);
        assert before + (p + rest) == (before + p) + rest;
        i := i + 1;
      }
    }

    // One SDES packet of at most 31 chunks.
    static method WriteSdes(buf: array<byte>, start: nat, srcs: seq<SdesSource>, ghost cs: seq<Chunk>)
      returns (offset: nat)
      requires ChunksGood(cs) && |cs| <= MAX_COUNT && srcs == Sources(cs)
      requires start + |SdesBytes(cs)| <= buf.Length
      modifies buf
      ensures offset == |SdesBytes(cs)| && buf[..start + offset] == old(buf[..start]) + SdesBytes(cs)
    {
      ghost var parts := ChunksFlatten(cs);
      ghost var body := ChunksBytes(cs);
      ghost var before, front := buf[..start], buf[..start + HEADER_SIZE];
      assert front[..start] == before;
      offset := WriteChunks(buf, start, srcs, cs, parts);
      FinishPacket(buf, start, start + offset, |srcs|, SDES, front, body);
    }

    // ---- EndBuild ----

    // Where the packet that begins with element it ends.
    static function Stop(it: nat, n: nat): nat
      requires it <= n
    {
      if n - it < MAX_COUNT then n else it + MAX_COUNT
    }

    static lemma SplitReports(s: Sender, bs: seq<ReportBlock>, it: nat)
      requires it <= |bs|
      ensures var next := Stop(it, |bs|);
              ReportPackets(s, bs[it..]) ==
                [ReportPacket(s, bs[it..next])] + if next < |bs| then ReportPackets(Later(s), bs[next..]) else []
    {
      var next := Stop(it, |bs|);
      assert bs[it..][..next - it] == bs[it..next] && bs[it..][next - it..] == bs[next..];
      assert next == |bs| ==> bs[it..next] == bs[it..];
    }

    static lemma SplitSdes(cs: seq<Chunk>, it: nat)
      requires ChunksGood(cs) && it < |cs|
      ensures var next := Stop(it, |cs|); SdesPackets(cs[it..]) == [SdesBytes(cs[it..next])] + SdesPackets(cs[next..])
    {
      var next := Stop(it, |cs|);
      assert cs[it..][..next - it] == cs[it..next] && cs[it..][next - it..] == cs[next..];
      if next == |cs| {
        assert cs[it..next] == cs[it..] && cs[next..] == [];
        assert SdesPackets(cs[next..]) == [];
      }
    }

    // The packets ps of all have been written; left are still to come.
    ghost predicate Pending(buf: array<byte>, pos: nat, ps: seq<seq<byte>>, left: seq<seq<byte>>, all: seq<seq<byte>>)
      reads this`rtcppacklist, buf
    {
      && Written(buf, pos, ps) && all == ps + left
      && pos == |Flatten(ps)| && pos + |Flatten(left)| == |Flatten(all)| <= buf.Length
    }

    static lemma FirstLeft(left: seq<seq<byte>>)
      requires left != []
      ensures Flatten(left) == left[0] + Flatten(left[1..])
    {
    }

    static lemma MoveFirst(ps: seq<seq<byte>>, left: seq<seq<byte>>)
      requires left != []
      ensures ps + left == (ps + [left[0]]) + left[1..] && |Flatten(ps + [left[0]])| == |Flatten(ps)| + |left[0]|
    {
      FlattenAppend(ps, left[0]);
    }

    // The next packet has been written at pos.
    method Advance(buf: array<byte>, pos: nat, length: nat, ghost ps: seq<seq<byte>>, ghost left: seq<seq<byte>>,
                   ghost all: seq<seq<byte>>)
      requires left != [] && |left[0]| == length >= HEADER_SIZE && rtcppacklist == Infos(ps, 0) && all == ps + left
      requires pos == |Flatten(ps)| && pos + |Flatten(left)| == |Flatten(all)| <= buf.Length
      requires pos + length <= buf.Length && buf[..pos + length] == Flatten(ps) + left[0]
      modifies this`rtcppacklist
      ensures Pending(buf, pos + length, ps + [left[0]], left[1..], all)
    {
      AddEntry(buf, pos, length, ps, left[0]);
      MoveFirst(ps, left);
      FirstLeft(left);
    }

    // The header of a report packet: all of the header data for a first sender
    // report, the SSRC alone for the rest.
    static lemma HeaderFor(s: Sender, sender: Sender, first: bool)
      requires s == if first then sender else Later(sender)
      ensures |HeaderData(Some(sender))| >= 4 && s.SenderReport? == (first && sender.SenderReport?)
      ensures var header := HeaderData(Some(sender));
              HeaderData(Some(s)) == if first && sender.SenderReport? then header else header[..4]
    {
      assert HeaderData(Some(sender))[..4] == Be32(sender.ssrc);
      assert Be32(sender.ssrc) + [] == Be32(sender.ssrc);
    }

    // One report packet with the blocks from it on, at most 31 of them.
    static method WriteBlocksFrom(buf: array<byte>, pos: nat, it: nat, issr: bool, header: seq<byte>,
                                  reportblocks: seq<seq<byte>>,
                                  ghost s: Sender, ghost bs: seq<ReportBlock>)
      returns (offset: nat, next: nat)
      requires reportblocks == BlockBuffers(bs) && it <= |bs| && header == HeaderData(Some(s))
               && issr == s.SenderReport?
      requires pos + |ReportPacket(s, bs[it..Stop(it, |bs|)])| <= buf.Length
      modifies buf
      ensures next == Stop(it, |bs|) && offset == |ReportPacket(s, bs[it..next])| >= HEADER_SIZE
      ensures buf[..pos + offset] == old(buf[..pos]) + ReportPacket(s, bs[it..next])
    {
      next := Stop(it, |reportblocks|);
      assert reportblocks[it..next] == BlockBuffers(bs[it..next]);
      ReportKnown(s, bs[it..next]);
      offset := WriteReport(buf, pos, issr, header, reportblocks[it..next], s, bs[it..next]);
    }

    static ghost function SenderNow(sender: Sender, firstpacket: bool): Sender {
      if firstpacket then sender else Later(sender)
    }

    // What the header of the next report packet is copied from.
    method NextHeader(firstpacket: bool) returns (issr: bool, header: seq<byte>)
      requires ReportOk() && sender.Some?
      ensures var s := SenderNow(sender.value, firstpacket); header == HeaderData(Some(s)) && issr == s.SenderReport?
    {
      HeaderFor(SenderNow(sender.value, firstpacket), sender.value, firstpacket);
      issr := firstpacket && isSR;
      header := if issr then headerdata else headerdata[..4];
    }

    // The next report packet, and its entry in the list.
    method WriteNextReport(buf: array<byte>, pos: nat, it: nat, firstpacket: bool, ghost s: Sender,
                           ghost bs: seq<ReportBlock>,
                           ghost ps: seq<seq<byte>>, ghost left: seq<seq<byte>>, ghost all: seq<seq<byte>>)
      returns (offset: nat, next: nat)
      requires ReportOk() && sender == Some(s) && blocks == bs && it <= |bs| && Pending(buf, pos, ps, left, all)
      requires left != [] && left[0] == ReportPacket(SenderNow(s, firstpacket), bs[it..Stop(it, |bs|)])
      modifies this`rtcppacklist, buf
      ensures next == Stop(it, |bs|) && Pending(buf, pos + offset, ps + [left[0]], left[1..], all)
    {
      var issr, header := NextHeader(firstpacket);
      FirstLeft(left);
      offset, next := WriteBlocksFrom(buf, pos, it, issr, header, reportblocks, SenderNow(s, firstpacket), bs);
      Advance(buf, pos, offset, ps, left, all);
    }

    static lemma ReportsLeft(s: Sender, bs: seq<ReportBlock>, it: nat, left: seq<seq<byte>>)
      requires it <= |bs| && left == ReportPackets(s, bs[it..])
      ensures var next := Stop(it, |bs|);
              && left != [] && left[0] == ReportPacket(s, bs[it..next])
              && left[1..] == if next < |bs| then ReportPackets(Later(s), bs[next..]) else []
    {
      SplitReports(s, bs, it);
    }

    // With one of left moved to the packets written.
    static lemma MoveOne(ps: seq<seq<byte>>, left: seq<seq<byte>>, others: seq<seq<byte>>, packets: seq<seq<byte>>)
      requires left != [] && packets == ps + left
      ensures packets == (ps + [left[0]]) + left[1..] && (left + others)[0] == left[0]
              && (left + others)[1..] == left[1..] + others
    {
    }

    // The report packets, 31 blocks to each; others follow.
    method WriteReports(buf: array<byte>, ghost reports: seq<seq<byte>>, ghost others: seq<seq<byte>>)
      returns (pos: nat)
      requires ReportOk() && sender.Some? && reports == ReportPackets(sender.value, blocks)
      requires Pending(buf, 0, [], reports + others, reports + others)
      modifies this`rtcppacklist, buf
      ensures Pending(buf, pos, reports, others, reports + others)
    {
      hide ReportPackets, HeaderData, Pending;
      var it, firstpacket, done := 0, true, false;
      pos := 0;
      ghost var s, bs, all := sender.value, blocks, reports + others;
      ghost var ps, left := [], reports;
      assert bs[0..] == bs;
      while !done
        invariant it <= |bs| && reports == ps + left && Pending(buf, pos, ps, left + others, all)
        invariant left == if done then [] else ReportPackets(SenderNow(s, firstpacket), bs[it..])
        decreases |bs| - it, !done
      {
        ReportsLeft(SenderNow(s, firstpacket), bs, it, left);
        MoveOne(ps, left, others, reports);
        var offset;
        offset, it := WriteNextReport(buf, pos, it, firstpacket, s, bs, ps, left + others, all);
        ps, left := ps + [left[0]], left[1..];
        pos := pos + offset;
        firstpacket := false;
        done := it == |reportblocks|;
      }
      assert ps == reports && left + others == others;
    }

    // One SDES packet with the chunks from it on, at most 31 of them.
    static method WriteChunksFrom(buf: array<byte>, pos: nat, it: nat, sdessources: seq<SdesSource>,
                                  ghost cs: seq<Chunk>)
      returns (offset: nat, next: nat)
      requires ChunksGood(cs) && sdessources == Sources(cs) && it < |cs|
      requires pos + |SdesBytes(cs[it..Stop(it, |cs|)])| <= buf.Length
      modifies buf
      ensures next == Stop(it, |cs|) && offset == |SdesBytes(cs[it..next])| >= HEADER_SIZE
      ensures buf[..pos + offset] == old(buf[..pos]) + SdesBytes(cs[it..next])
    {
      next := Stop(it, |sdessources|);
      assert sdessources[it..next] == Sources(cs[it..next]);
      SdesHeader(cs[it..next]);
      offset := WriteSdes(buf, pos, sdessources[it..next], cs[it..next]);
    }

    // The next SDES packet, and its entry in the list.
    method WriteNextSdes(buf: array<byte>, pos: nat, it: nat, ghost ps: seq<seq<byte>>, ghost left: seq<seq<byte>>,
                         ghost all: seq<seq<byte>>)
      returns (offset: nat, next: nat)
      requires SdesOk() && it < |chunks| && Pending(buf, pos, ps, left, all)
      requires left != [] && left[0] == SdesBytes(chunks[it..Stop(it, |chunks|)])
      modifies this`rtcppacklist, buf
      ensures next == Stop(it, |chunks|) && Pending(buf, pos + offset, ps + [left[0]], left[1..], all)
    {
      FirstLeft(left);
      offset, next := WriteChunksFrom(buf, pos, it, sdessources, chunks);
      Advance(buf, pos, offset, ps, left, all);
    }

    static lemma SdesLeft(cs: seq<Chunk>, it: nat, left: seq<seq<byte>>)
      requires ChunksGood(cs) && it < |cs| && left == SdesPackets(cs[it..])
      ensures var next := Stop(it, |cs|);
              left != [] && left[0] == SdesBytes(cs[it..next]) && left[1..] == SdesPackets(cs[next..])
    {
      SplitSdes(cs, it);
    }

    // The SDES packets, 31 chunks to each; others follow.
    method WriteSdesPackets(buf: array<byte>, start: nat, ghost before: seq<seq<byte>>, ghost sdes: seq<seq<byte>>,
                            ghost others: seq<seq<byte>>, ghost all: seq<seq<byte>>)
      returns (pos: nat)
      requires SdesOk() && sdes == SdesPackets(chunks) && Pending(buf, start, before, sdes + others, all)
      modifies this`rtcppacklist, buf
      ensures Pending(buf, pos, before + sdes, others, all)
    {
      hide Pending;
      pos := start;
      ghost var ps, left := before, sdes;
      if |sdessources| > 0 {
        var it, done := 0, false;
        assert chunks[0..] == chunks;
        while !done
          invariant it <= |chunks| && before + sdes == ps + left && Pending(buf, pos, ps, left + others, all)
          invariant done == (it == |chunks|) && left == SdesPackets(chunks[it..])
          decreases |chunks| - it
        {
          SdesLeft(chunks, it, left);
          MoveOne(ps, left, others, before + sdes);
          var offset;
          offset, it := WriteNextSdes(buf, pos, it, ps, left + others, all);
          ps, left := ps + [left[0]], left[1..];
          pos := pos + offset;
          done := it == |sdessources|;
        }
        assert chunks[it..] == [];
      }
      assert left == [] && left + others == others && ps == before + sdes;
    }

    // Copy one finished packet, and add its entry to the list.
    method WritePacket(buf: array<byte>, pos: nat, packet: seq<byte>, ghost ps: seq<seq<byte>>,
                       ghost left: seq<seq<byte>>, ghost all: seq<seq<byte>>)
      requires Pending(buf, pos, ps, left, all) && left != [] && packet == left[0] && |packet| >= HEADER_SIZE
      modifies this`rtcppacklist, buf
      ensures Pending(buf, pos + |packet|, ps + [left[0]], left[1..], all)
    {
      FirstLeft(left);
      var end := Put(buf, pos, packet);
      Advance(buf, pos, |packet|, ps, left, all);
    }

    // APP or BYE packets, which are ready in their buffers; others follow.
    method WritePackets(buf: array<byte>, start: nat, packets: seq<seq<byte>>, ghost before: seq<seq<byte>>,
                        ghost others: seq<seq<byte>>, ghost all: seq<seq<byte>>)
      returns (pos: nat)
      requires Pending(buf, start, before, packets + others, all)
      requires forall i :: 0 <= i < |packets| ==> |packets[i]| >= HEADER_SIZE
      modifies this`rtcppacklist, buf
      ensures Pending(buf, pos, before + packets, others, all)
    {
      pos := start;
      var i := 0;
      ghost var ps, left := before, packets;
      while i < |packets|
        invariant i <= |packets| && left == packets[i..] && before + packets == ps + left
        invariant Pending(buf, pos, ps, left + others, all)
      {
        MoveOne(ps, left, others, before + packets);
        WritePacket(buf, pos, packets[i], ps, left + others, all);
        ps, left := ps + [left[0]], left[1..];
        pos := pos + |packets[i]|;
        i := i + 1;
      }
      assert left == [] && left + others == others && ps == before + packets;
    }

    static lemma LongEnough(c: Contents)
      requires ContentsOk(c)
      ensures forall i :: 0 <= i < |AppPackets(c.apps)| ==> |AppPackets(c.apps)[i]| >= HEADER_SIZE
      ensures forall i :: 0 <= i < |ByePackets(c.byes)| ==> |ByePackets(c.byes)[i]| >= HEADER_SIZE
    {
      AppsRead(c.apps);
      ByesRead(c.byes);
      assert forall i :: 0 <= i < |AppPackets(c.apps)| ==> Sound(AppPackets(c.apps)[i]);
      assert forall i :: 0 <= i < |ByePackets(c.byes)| ==> Sound(ByePackets(c.byes)[i]);
    }

    // The four kinds of packet, one kind after the other.
    static lemma Kinds(r: seq<seq<byte>>, s: seq<seq<byte>>, a: seq<seq<byte>>, y: seq<seq<byte>>)
      ensures r + s + a + y == r + (s + (a + y)) && y + [] == y
    {
    }

    // What a finished build b consists of.
    static ghost function Output(b: Build): seq<seq<byte>>
      requires BuildOk(b) && b.sender.Some?
    {
      Packets(ContentsOf(b))
    }

    // The reports and the SDES packets; others follow.
    method WriteFront(buf: array<byte>, ghost r: seq<seq<byte>>, ghost s: seq<seq<byte>>,
                      ghost others: seq<seq<byte>>) returns (pos: nat)
      requires State().Some? && sender.Some? && r == ReportPackets(sender.value, blocks) && s == SdesPackets(chunks)
      requires Pending(buf, 0, [], r + (s + others), r + (s + others))
      modifies this`rtcppacklist, buf
      ensures Pending(buf, pos, r + s, others, r + (s + others))
    {
      pos := WriteReports(buf, r, s + others);
      pos := WriteSdesPackets(buf, pos, r, s, others, r + (s + others));
    }

    // The APP and the BYE packets.
    method WriteBack(buf: array<byte>, start: nat, ghost before: seq<seq<byte>>, ghost all: seq<seq<byte>>)
      returns (pos: nat)
      requires State().Some? && Pending(buf, start, before, apppackets + byepackets, all)
      requires forall i :: 0 <= i < |apppackets| ==> |apppackets[i]| >= HEADER_SIZE
      requires forall i :: 0 <= i < |byepackets| ==> |byepackets[i]| >= HEADER_SIZE
      modifies this`rtcppacklist, buf
      ensures Pending(buf, pos, before + apppackets + byepackets, [], all)
    {
      assert byepackets + [] == byepackets;
      pos := WritePackets(buf, start, apppackets, before, byepackets, all);
      pos := WritePackets(buf, pos, byepackets, before + apppackets, [], all);
    }

    lemma PendingStart(buf: array<byte>, all: seq<seq<byte>>)
      requires rtcppacklist == [] && |Flatten(all)| <= buf.Length
      ensures Pending(buf, 0, [], all, all)
    {
      assert [] + all == all && buf[..0] == [];
    }

    lemma PendingEnd(buf: array<byte>, pos: nat, ps: seq<seq<byte>>, all: seq<seq<byte>>)
      requires Pending(buf, pos, ps, [], all)
      ensures pos == |Flatten(all)| && Written(buf, pos, all)
    {
      assert ps + [] == ps;
    }

    // All the packets of the build b, into a buffer that is large enough.
    method WriteAll(buf: array<byte>, ghost b: Build) returns (pos: nat)
      requires State() == Some(b) && b.sender.Some? && rtcppacklist == [] && Total(b) <= buf.Length
      modifies this`rtcppacklist, buf
      ensures pos == Total(b) == |Flatten(Output(b))| && Written(buf, pos, Output(b))
    {
      hide Written, Pending, Flatten, ReportPackets, SdesPackets, Total, HeaderData;
      SizeIsExact(b);
      LongEnough(ContentsOf(b));
      ghost var r, s, all := ReportPackets(b.sender.value, b.blocks), SdesPackets(b.chunks), Output(b);
      Kinds(r, s, apppackets, byepackets);
      PendingStart(buf, all);
      pos := WriteFront(buf, r, s, apppackets + byepackets);
      pos := WriteBack(buf, pos, r + s, all);
      PendingEnd(buf, pos, r + s + apppackets + byepackets, all);
    }

    // Nothing is left of the build.
    ghost predicate Cleared()
      reads this`isSR, this`headerdata, this`reportblocks, this`sdessources, this`byepackets, this`apppackets
      reads this`byesize, this`appsize, this`sender, this`blocks, this`chunks, this`apps, this`byes
    {
      && !isSR && headerdata == [] && reportblocks == [] && sdessources == []
      && byepackets == [] && apppackets == [] && byesize == 0 && appsize == 0
      && sender == None && blocks == [] && chunks == [] && apps == [] && byes == []
    }

    lemma ClearedState()
      requires Cleared()
      ensures State() == Some(Start(maximumpacketsize))
    {
      assert ReportOk() && SdesOk();
      assert AppsOk() && ByesOk();
    }

    method ClearBuildBuffers()
      modifies this`isSR, this`headerdata, this`reportblocks, this`sdessources, this`byepackets, this`apppackets
      modifies this`byesize, this`appsize, this`sender, this`blocks, this`chunks, this`apps, this`byes
      ensures Cleared()
    {
      isSR, headerdata, reportblocks, sdessources := false, [], [], [];
      byepackets, apppackets, byesize, appsize := [], [], 0, 0;
      Forget();
    }

    // The buffers stand for nothing.
    ghost method Forget()
      modifies this`sender, this`blocks, this`chunks, this`apps, this`byes
      ensures sender == None && blocks == [] && chunks == [] && apps == [] && byes == []
    {
      sender, blocks, chunks, apps, byes := None, [], [], [], [];
    }

    function EndStatus(): Status
      reads this`arebuilding, this`headerdata
    {
      if !arebuilding then NotBuilding else if |headerdata| == 0 then NoReportPresent else Ok
    }

    // The compound packet is finished: the packets ps, in the memory at buf.
    ghost predicate Finished(buf: array<byte>, ps: seq<seq<byte>>)
      reads this`compoundpacket, this`compoundpacketlength, this`rtcppacklist, this`arebuilding, buf
    {
      && !arebuilding && compoundpacket == buf && compoundpacketlength == |Flatten(ps)|
      && Written(buf, compoundpacketlength, ps)
    }

    // Where the packet is written: the external buffer, or new memory of the
    // predicted size.
    method NewBuffer(ghost b: Build) returns (buf: array<byte>)
      requires State() == Some(b) && (external ==> buffer != null && Total(b) <= buffer.Length)
      ensures Total(b) <= buf.Length && if external then buf == buffer else fresh(buf)
    {
      var reportsize := ReportNeededBytes();
      var sdessize := SDESNeededBytes();
      var len := appsize + byesize + reportsize + sdessize;
      if external {
        buf := buffer;
      } else {
        buf := new byte[len];
      }
    }

    // The finished packet takes its place in the object.
    method Publish(buf: array<byte>, len: nat, ghost ps: seq<seq<byte>>)
      requires len == |Flatten(ps)| && Written(buf, len, ps)
      modifies this`compoundpacket, this`compoundpacketlength, this`arebuilding
      ensures Finished(buf, ps)
    {
      compoundpacket := buf;
      compoundpacketlength := len;
      arebuilding := false;
    }

    method WriteCompound(buf: array<byte>, ghost b: Build)
      requires State() == Some(b) && b.sender.Some? && rtcppacklist == [] && Total(b) <= buf.Length
      modifies this`rtcppacklist, this`compoundpacket, this`compoundpacketlength, this`arebuilding, buf
      ensures Finished(buf, Output(b))
    {
      var len := WriteAll(buf, b);
      Publish(buf, len, Output(b));
    }

    method FinishBuild(buf: array<byte>, ghost b: Build)
      requires State() == Some(b) && b.sender.Some? && rtcppacklist == [] && Total(b) <= buf.Length
      modifies this, buf
      ensures Finished(buf, Output(b)) && Cleared()
    {
      hide State, Total, Flatten;
      WriteCompound(buf, b);
      ClearBuildBuffers();
    }

    // Write the compound packet of the build b; buf is where it stands, if it was
    // written. An external buffer must hold it: nothing here checks that.
    method EndBuild(ghost b: Build) returns (status: Status, ghost buf: array?<byte>)
      requires State() == Some(b) && (arebuilding ==> rtcppacklist == [])
      requires external ==> buffer != null && Total(b) <= buffer.Length
      modifies this, buffer
      ensures status == old(EndStatus())
      ensures status != Ok ==> State() == Some(b)
      ensures status != Ok ==> arebuilding == old(arebuilding) && rtcppacklist == old(rtcppacklist)
      ensures status == Ok ==> buf != null && b.sender.Some? && Finished(buf, Output(b))
      ensures status == Ok ==> Cleared() && State() == Some(Start(maximumpacketsize))
      ensures status == Ok ==> if old(external) then buf == old(buffer) else fresh(buf)
    {
      if !arebuilding {
        return NotBuilding, null;
      }
      if |headerdata| == 0 {
        return NoReportPresent, null;
      }
      var where := NewBuffer(b);
      FinishBuild(where, b);
      ClearedState();
      return Ok, where;
    }

    // A packet finished after any calls parses into exactly the builder's own list,
    // and every packet is of known format, if no group of chunks is too long.
    lemma FinishedParses(buf: array<byte>, max: nat, ops: seq<Op>)
      requires OpsOk(ops) && MIN_PACKET_SIZE <= max && Run(Start(max), ops).sender.Some?
      requires BuildOk(Run(Start(max), ops)) && Finished(buf, Output(Run(Start(max), ops)))
      ensures compoundpacketlength <= buf.Length
      ensures GroupsShort(Run(Start(max), ops).chunks) ==>
                var parsed := Cut(buf[..compoundpacketlength], true);
                parsed.Some? && rtcppacklist == Infos(parsed.value, 0)
                && forall i :: 0 <= i < |parsed.value| ==> |parsed.value[i]| >= HEADER_SIZE && Known(parsed.value[i])
      ensures max <= MAX_PACKET_LENGTH ==> GroupsShort(Run(Start(max), ops).chunks)
    {
      hide Run, Total, Cut, OpsOk, BuildOk;
      RunRoundTrip(max, ops);
      ghost var ps := Output(Run(Start(max), ops));
      forall i | 0 <= i < |ps| ensures |ps[i]| >= HEADER_SIZE && Known(ps[i]) {
        assert Sound(ps[i]);
      }
    }
  }
}
