// RTCPPacketBuilder: which calls fill the next compound packet of a session, and
// its BYE packet.
module PacketBuilder {
  import opened Types
  import opened RtcpPackets
  import opened SdesPacket
  import opened RtcpEncoding
  import opened RoundTrip
  import opened BuildModel
  import opened CompoundBuilder

  // ---- Adding as much as fits ----

  datatype Filled = Filled(build: Build, count: nat)

  // Make the calls up to the first that is refused.
  function Fill(b: Build, ops: seq<Op>): (f: Filled)
    ensures f.count <= |ops|
    decreases |ops|
  {
    if ops == [] || Apply(b, ops[0]).status != Ok then Filled(b, 0)
    else
      var rest := Fill(Apply(b, ops[0]).build, ops[1..]);
      Filled(rest.build, 1 + rest.count)
  }

  function BlockOps(bs: seq<ReportBlock>): (ops: seq<Op>)
    ensures |ops| == |bs| && forall i :: 0 <= i < |bs| ==> ops[i] == AddBlock(bs[i])
  {
    seq(|bs|, i requires 0 <= i < |bs| => AddBlock(bs[i]))
  }

  predicate NormalItem(item: Item) {
    CNAME <= item.id <= NOTE && |item.data| < 256
  }

  predicate NormalItems(items: seq<Item>) {
    forall i :: 0 <= i < |items| ==> NormalItem(items[i])
  }

  function ItemOps(items: seq<Item>): (ops: seq<Op>)
    requires NormalItems(items)
    ensures |ops| == |items| && forall i :: 0 <= i < |items| ==> ops[i] == AddItem(items[i].id, items[i].data)
  {
    seq(|items|, i requires 0 <= i < |items| => AddItem(items[i].id, items[i].data))
  }

  lemma OneMore<T>(a: seq<T>, s: seq<T>, n: nat)
    requires n < |s|
    ensures a + [s[0]] + s[1..][..n] == a + s[..n + 1]
  {
  }

  // The report blocks that fit are a first part of those offered.
  lemma {:induction false} BlocksFilled(b: Build, bs: seq<ReportBlock>)
    requires b.sender.Some?
    ensures var f := Fill(b, BlockOps(bs)); f.build == b.(blocks := b.blocks + bs[..f.count])
    decreases |bs|
  {
    assert b.blocks + [] == b.blocks;
    if bs != [] && Apply(b, AddBlock(bs[0])).status == Ok {
      var more := Fill(Apply(b, AddBlock(bs[0])).build, BlockOps(bs[1..]));
      assert BlockOps(bs)[1..] == BlockOps(bs[1..]);
      BlocksFilled(Apply(b, AddBlock(bs[0])).build, bs[1..]);
      OneMore(b.blocks, bs, more.count);
    }
  }

  lemma OneItem(b: Build, ssrc: uint32, its: seq<Item>, item: Item)
    requires NormalItem(item) && b.chunks == [Chunk(ssrc, its)]
    ensures var r := Apply(b, AddItem(item.id, item.data));
            r.build == if r.status == Ok then b.(chunks := [Chunk(ssrc, its + [item])]) else b
  {
    assert item == Item(item.id, item.data);
    assert WithItem(b.chunks, item) == [Chunk(ssrc, its + [item])];
  }

  lemma TakeOneMore(its: seq<Item>, items: seq<Item>, n: nat)
    requires n < |items|
    ensures (its + [items[0]]) + items[1..][..n] == its + items[..n + 1]
  {
  }

  // So are the items, all in the one chunk.
  lemma {:induction false} ItemsFilled(b: Build, ssrc: uint32, its: seq<Item>, items: seq<Item>)
    requires NormalItems(items) && b.chunks == [Chunk(ssrc, its)]
    ensures var f := Fill(b, ItemOps(items)); f.build == b.(chunks := [Chunk(ssrc, its + items[..f.count])])
    decreases |items|
  {
    assert its + [] == its;
    if items != [] {
      OneItem(b, ssrc, its, items[0]);
      var r := Apply(b, AddItem(items[0].id, items[0].data));
      if r.status == Ok {
        assert ItemOps(items)[1..] == ItemOps(items[1..]);
        ItemsFilled(r.build, ssrc, its + [items[0]], items[1..]);
        TakeOneMore(its, items, Fill(r.build, ItemOps(items[1..])).count);
      }
    }
  }

  lemma {:induction false} FillFits(b: Build, ops: seq<Op>)
    requires BuildOk(b) && OpsOk(ops) && b.max < SIZE_MODULUS && Fits(b) && b.chunks != []
    ensures var f := Fill(b, ops); BuildOk(f.build) && Fits(f.build) && f.build.chunks != [] && f.build.max == b.max
    decreases |ops|
  {
    if ops != [] && Apply(b, ops[0]).status == Ok {
      ApplyKeeps(b, ops[0]);
      CallStaysFitting(b, ops[0]);
      FillFits(Apply(b, ops[0]).build, ops[1..]);
    }
  }

  // ---- The next packet ----

  // Every packet starts with a report, and a chunk with the CNAME.
  function FirstPart(max: nat, s: Sender, cname: short): Build {
    Build(max, Some(s), [], [Chunk(s.ssrc, [Item(CNAME, cname)])], [], [])
  }

  lemma FirstPartIs(max: nat, s: Sender, cname: short)
    requires MIN_PACKET_SIZE <= max < SIZE_MODULUS
    ensures var r := Apply(AfterSource(max, s, s.ssrc), AddItem(CNAME, cname));
            r == Result(FirstPart(max, s, cname), Ok) && Total(r.build) <= 296 && BuildOk(r.build) && Fits(r.build)
  {
    CnameFits(max, s, s.ssrc, cname);
    TwoCalls(max, s, s.ssrc);
    ApplyKeeps(AfterSource(max, s, s.ssrc), AddItem(CNAME, cname));
    assert [] + [Item(CNAME, cname)] == [Item(CNAME, cname)];
  }

  // SDES items that are due but did not fit in the packets so far.
  datatype Round = Round(processingsdes: bool, pending: seq<Item>)

  predicate RoundOk(r: Round) {
    NormalItems(r.pending) && r.processingsdes == (r.pending != [])
  }

  datatype Next = Next(build: Build, round: Round)

  // Items first, and if all of them fit, report blocks.
  function SdesStep(b: Build, items: seq<Item>, bs: seq<ReportBlock>): Next
    requires NormalItems(items)
  {
    var f := Fill(b, ItemOps(items));
    if f.count == |items| then Next(Fill(f.build, BlockOps(bs)).build, Round(false, []))
    else Next(f.build, Round(true, items[f.count..]))
  }

  // The blocks offered are those of the sources to report on; due are the items
  // whose interval has passed; again are blocks for sources skipped before.
  function NextBuild(first: Build, r: Round, offered: seq<ReportBlock>, again: seq<ReportBlock>, due: seq<Item>): Next
    requires RoundOk(r) && NormalItems(due)
  {
    if r.processingsdes then SdesStep(first, r.pending, offered)
    else
      var f := Fill(first, BlockOps(offered));
      if f.count < |offered| then Next(f.build, r) else SdesStep(f.build, due, again)
  }

  lemma BlockOpsOk(bs: seq<ReportBlock>)
    ensures OpsOk(BlockOps(bs))
  {
  }

  lemma ItemOpsOk(items: seq<Item>)
    requires NormalItems(items)
    ensures OpsOk(ItemOps(items))
  {
  }

  // A packet after b that carries the items wanted, but for those now pending,
  // and some first part of the blocks offered.
  ghost predicate Follows(n: Next, b: Build, ssrc: uint32, its: seq<Item>, wanted: seq<Item>, bs: seq<ReportBlock>) {
    && BuildOk(n.build) && Fits(n.build) && RoundOk(n.round)
    && n.build.max == b.max && n.build.sender == b.sender && n.build.apps == b.apps && n.build.byes == b.byes
    && |n.round.pending| <= |wanted| && wanted[|wanted| - |n.round.pending|..] == n.round.pending
    && n.build.chunks == [Chunk(ssrc, its + wanted[..|wanted| - |n.round.pending|])]
    && n.build.blocks <= b.blocks + bs
  }

  // A packet can be continued: its chunk is the one with the CNAME.
  ghost predicate Open(b: Build, ssrc: uint32, its: seq<Item>) {
    BuildOk(b) && b.sender.Some? && Fits(b) && b.max < SIZE_MODULUS && b.chunks == [Chunk(ssrc, its)]
  }

  lemma BlocksOpen(b: Build, ssrc: uint32, its: seq<Item>, bs: seq<ReportBlock>)
    requires Open(b, ssrc, its)
    ensures var f := Fill(b, BlockOps(bs));
            Open(f.build, ssrc, its) && f.build == b.(blocks := b.blocks + bs[..f.count])
  {
    BlockOpsOk(bs);
    FillFits(b, BlockOps(bs));
    BlocksFilled(b, bs);
  }

  lemma ItemsOpen(b: Build, ssrc: uint32, its: seq<Item>, items: seq<Item>)
    requires Open(b, ssrc, its) && NormalItems(items)
    ensures var f := Fill(b, ItemOps(items));
            Open(f.build, ssrc, its + items[..f.count]) && f.build == b.(chunks := f.build.chunks)
  {
    ItemOpsOk(items);
    FillFits(b, ItemOps(items));
    ItemsFilled(b, ssrc, its, items);
  }

  lemma SdesStepFollows(b: Build, ssrc: uint32, its: seq<Item>, items: seq<Item>, bs: seq<ReportBlock>)
    requires Open(b, ssrc, its) && NormalItems(items)
    ensures Follows(SdesStep(b, items, bs), b, ssrc, its, items, bs)
  {
    hide Fill, BuildOk, Fits;
    var f := Fill(b, ItemOps(items));
    ItemsOpen(b, ssrc, its, items);
    if f.count == |items| {
      assert items[..|items|] == items && items[|items|..] == [];
      BlocksOpen(f.build, ssrc, its + items, bs);
    } else {
      assert b.blocks <= b.blocks + bs;
      assert forall i :: 0 <= i < |items[f.count..]| ==> items[f.count..][i] == items[f.count + i];
    }
  }

  // The items a packet should carry: those left over, or those now due unless
  // the report blocks already filled it.
  function Wanted(first: Build, r: Round, offered: seq<ReportBlock>, due: seq<Item>): seq<Item> {
    if r.processingsdes then r.pending
    else if Fill(first, BlockOps(offered)).count < |offered| then [] else due
  }

  lemma FollowsMore(n: Next, b: Build, ssrc: uint32, its: seq<Item>, wanted: seq<Item>, bs: seq<ReportBlock>,
                    more: seq<ReportBlock>)
    requires Follows(n, b, ssrc, its, wanted, bs)
    ensures Follows(n, b, ssrc, its, wanted, bs + more)
  {
    assert (b.blocks + bs) + more == b.blocks + (bs + more);
  }

  lemma FollowsEarlier(n: Next, b: Build, filled: Build, ssrc: uint32, its: seq<Item>, wanted: seq<Item>,
                       bs: seq<ReportBlock>, more: seq<ReportBlock>)
    requires Follows(n, filled, ssrc, its, wanted, more) && filled == b.(blocks := b.blocks + bs)
    ensures Follows(n, b, ssrc, its, wanted, bs + more)
  {
    assert (b.blocks + bs) + more == b.blocks + (bs + more);
  }

  lemma FilledFollows(first: Build, ssrc: uint32, its: seq<Item>, r: Round, offered: seq<ReportBlock>,
                      again: seq<ReportBlock>, due: seq<Item>)
    requires Open(first, ssrc, its) && RoundOk(r) && !r.processingsdes && NormalItems(due)
    ensures Follows(NextBuild(first, r, offered, again, due), first, ssrc, its, Wanted(first, r, offered, due),
            offered + again)
  {
    var n := NextBuild(first, r, offered, again, due);
    var f := Fill(first, BlockOps(offered));
    BlocksOpen(first, ssrc, its, offered);
    if f.count < |offered| {
      assert its + [] == its && r.pending == [] && first.blocks + offered[..f.count] <= first.blocks + offered;
      FollowsMore(n, first, ssrc, its, [], offered, again);
    } else {
      SdesStepFollows(f.build, ssrc, its, due, again);
      assert offered[..f.count] == offered;
      FollowsEarlier(n, first, f.build, ssrc, its, due, offered, again);
    }
  }

  // Every next packet fits its maximum, has the CNAME as the first item of its
  // one chunk, and report blocks that are among those offered, in order; and of
  // the items it should carry none is lost: what it does not carry is pending.
  lemma NextBuildFollows(max: nat, s: Sender, cname: short, r: Round, offered: seq<ReportBlock>,
                         again: seq<ReportBlock>, due: seq<Item>)
    requires MIN_PACKET_SIZE <= max < SIZE_MODULUS && RoundOk(r) && NormalItems(due)
    ensures var first := FirstPart(max, s, cname);
            Follows(NextBuild(first, r, offered, again, due), first, s.ssrc, [Item(CNAME, cname)],
                    Wanted(first, r, offered, due), offered + again)
  {
    var first, its := FirstPart(max, s, cname), [Item(CNAME, cname)];
    FirstPartIs(max, s, cname);
    if r.processingsdes {
      SdesStepFollows(first, s.ssrc, its, r.pending, offered);
      FollowsMore(SdesStep(first, r.pending, offered), first, s.ssrc, its, r.pending, offered, again);
    } else {
      FilledFollows(first, s.ssrc, its, r, offered, again, due);
    }
  }

  // With a maximum of at least 600 there is always room for something: a report
  // block, or an item of up to 255 bytes. So no packet is filled too soon.
  lemma AlwaysRoom(max: nat, s: Sender, cname: short, block: ReportBlock, item: Item)
    requires MIN_PACKET_SIZE <= max < SIZE_MODULUS && NormalItem(item)
    ensures Apply(FirstPart(max, s, cname), AddBlock(block)).status == Ok
    ensures Apply(FirstPart(max, s, cname), AddItem(item.id, item.data)).status == Ok
  {
    var b := FirstPart(max, s, cname);
    FirstPartIs(max, s, cname);
    assert BlocksSize(s, 1) <= ReportSize(Some(s), 0) + 24;
    assert b.chunks[..0] == [];
    ItemsSizeAppend([], Item(CNAME, cname));
    assert [] + [Item(CNAME, cname)] == [Item(CNAME, cname)];
    PaddedGrows(ItemsSize(b.chunks[0].items) + ITEM_HEADER_SIZE + |item.data|, 514);
    assert SdesSizeWithExtraItem(b.chunks, |item.data|) <= 524;
  }

  lemma FillStarts(b: Build, ops: seq<Op>)
    requires ops != [] && Apply(b, ops[0]).status == Ok
    ensures Fill(b, ops).count >= 1
  {
  }

  // An SDES round makes progress with every packet, so it ends.
  lemma RoundProgress(max: nat, s: Sender, cname: short, r: Round, offered: seq<ReportBlock>, again: seq<ReportBlock>,
                      due: seq<Item>)
    requires MIN_PACKET_SIZE <= max < SIZE_MODULUS && RoundOk(r) && NormalItems(due)
    ensures r.processingsdes ==>
            |NextBuild(FirstPart(max, s, cname), r, offered, again, due).round.pending| < |r.pending|
    ensures !r.processingsdes && offered != [] ==> Fill(FirstPart(max, s, cname), BlockOps(offered)).count >= 1
  {
    var first := FirstPart(max, s, cname);
    if r.processingsdes {
      assert NormalItem(r.pending[0]);
      AlwaysRoom(max, s, cname, ReportBlock(0, 0, 0, 0, 0, 0, 0), r.pending[0]);
      FillStarts(first, ItemOps(r.pending));
    } else if offered != [] {
      AlwaysRoom(max, s, cname, offered[0], Item(CNAME, []));
      FillStarts(first, BlockOps(offered));
    }
  }

  // ---- Outcomes ----

  datatype InitStatus = Initialized | AlreadyInit | IllegalMaxPackSize | IllegalTimestampUnit

  datatype Outcome = Built | NotInit | PacketFilledTooSoon | Refused(status: Status)

  function AsOutcome(status: Status): Outcome {
    if status == Ok then Built else if status == NotEnoughBytesLeft then PacketFilledTooSoon else Refused(status)
  }

  // The calls in turn, up to the first that is refused.
  function Calls(b: Build, ops: seq<Op>): Result
    decreases |ops|
  {
    if ops == [] then Result(b, Ok)
    else
      var r := Apply(b, ops[0]);
      if r.status != Ok then r else Calls(r.build, ops[1..])
  }

  function FirstCalls(max: nat, s: Sender, cname: short): Result {
    if max < MIN_PACKET_SIZE then Result(Start(max), MaxPacketSizeTooSmall)
    else Calls(Start(max), [StartReport(s), AddSource(s.ssrc), AddItem(CNAME, cname)])
  }

  lemma CallsStep(b: Build, op: Op, rest: seq<Op>)
    ensures Calls(b, [op] + rest) == if Apply(b, op).status != Ok then Apply(b, op) else Calls(Apply(b, op).build, rest)
  {
    assert ([op] + rest)[1..] == rest;
  }

  lemma CallsTwo(b: Build, one: Op, two: Op)
    ensures var r := Apply(b, one); Calls(b, [one, two]) == if r.status != Ok then r else Apply(r.build, two)
  {
    CallsStep(b, one, [two]);
    CallsStep(Apply(b, one).build, two, []);
    assert [one] + [two] == [one, two] && [two] + [] == [two];
  }

  lemma FirstCallsWork(max: nat, s: Sender, cname: short)
    requires MIN_PACKET_SIZE <= max < SIZE_MODULUS
    ensures FirstCalls(max, s, cname) == Result(FirstPart(max, s, cname), Ok)
  {
    var one, two, three := StartReport(s), AddSource(s.ssrc), AddItem(CNAME, cname);
    assert [one] + [two, three] == [one, two, three];
    CallsStep(Start(max), one, [two, three]);
    TwoCalls(max, s, s.ssrc);
    SourceAdded(max, s);
    CallsTwo(Build(max, Some(s), [], [], [], []), two, three);
    FirstPartIs(max, s, cname);
  }

  lemma SourceAdded(max: nat, s: Sender)
    requires MIN_PACKET_SIZE <= max < SIZE_MODULUS
    ensures Apply(Start(max), StartReport(s)) == Result(Build(max, Some(s), [], [], [], []), Ok)
    ensures Apply(Build(max, Some(s), [], [], [], []), AddSource(s.ssrc)) == Result(AfterSource(max, s, s.ssrc), Ok)
  {
    TwoCalls(max, s, s.ssrc);
    assert [] + [Chunk(s.ssrc, [])] == [Chunk(s.ssrc, [])];
  }

  // Nothing can be added after the first part, although something should be.
  predicate Stuck(first: Build, r: Round, offered: seq<ReportBlock>)
    requires RoundOk(r)
  {
    if r.processingsdes then Fill(first, ItemOps(r.pending)).count == 0
    else offered != [] && Fill(first, BlockOps(offered)).count == 0
  }

  function NextOutcome(max: nat, s: Sender, cname: short, r: Round, offered: seq<ReportBlock>): Outcome
    requires RoundOk(r)
  {
    var first := FirstCalls(max, s, cname);
    if first.status != Ok then AsOutcome(first.status)
    else if Stuck(first.build, r, offered) then PacketFilledTooSoon else Built
  }

  // No next packet is ever filled too soon.
  lemma NeverTooSoon(max: nat, s: Sender, cname: short, r: Round, offered: seq<ReportBlock>)
    requires MIN_PACKET_SIZE <= max < SIZE_MODULUS && RoundOk(r)
    ensures NextOutcome(max, s, cname, r, offered) == Built
  {
    FirstCallsWork(max, s, cname);
    var first := FirstPart(max, s, cname);
    if r.processingsdes {
      assert NormalItem(r.pending[0]);
      AlwaysRoom(max, s, cname, ReportBlock(0, 0, 0, 0, 0, 0, 0), r.pending[0]);
      FillStarts(first, ItemOps(r.pending));
    } else if offered != [] {
      AlwaysRoom(max, s, cname, offered[0], Item(CNAME, []));
      FillStarts(first, BlockOps(offered));
    }
  }

  // ---- The BYE packet ----

  // Lengths above 255 are cut.
  function CutTo255(s: seq<byte>): short {
    if |s| > 255 then s[..255] else s
  }

  function ByeResult(max: nat, s: Sender, cname: short, reason: seq<byte>): Result {
    var first := FirstCalls(max, s, cname);
    if first.status != Ok then first else Apply(first.build, AddBye(Bye([s.ssrc], CutTo255(reason))))
  }

  // With a maximum of at least 600, a BYE packet never fails for room, whatever
  // the CNAME and the reason, and takes at most 560 bytes.
  lemma ByeAlwaysFits(max: nat, s: Sender, cname: short, reason: seq<byte>)
    requires MIN_PACKET_SIZE <= max < SIZE_MODULUS
    ensures var r := ByeResult(max, s, cname, reason);
            && r == Result(FirstPart(max, s, cname).(byes := [Bye([s.ssrc], CutTo255(reason))]), Ok)
            && BuildOk(r.build) && Total(r.build) <= 560 && Fits(r.build)
  {
    FirstCallsWork(max, s, cname);
    FirstPartIs(max, s, cname);
    ByeStepFits(FirstPart(max, s, cname), s.ssrc, CutTo255(reason));
    assert [] + [Bye([s.ssrc], CutTo255(reason))] == [Bye([s.ssrc], CutTo255(reason))];
  }

  // A finished packet within a maximum of at most 262144 reads back.
  lemma FittingReadsBack(b: Build)
    requires BuildOk(b) && b.sender.Some? && Fits(b) && b.max <= MAX_PACKET_LENGTH
    ensures var ps := Packets(ContentsOf(b));
            && Cut(Flatten(ps), true) == Some(ps) && AllSound(ps) && SenderOfFirst(ps) == b.sender
            && ReadAll(ps) == Reading(Norms(b.blocks), b.chunks, b.apps, b.byes)
  {
    SizeIsExact(b);
    CompoundRoundTrip(ContentsOf(b));
    PacketsReadBack(ContentsOf(b));
  }

  // ---- The object ----

  // pack is being built in new memory, and holds b.
  ghost predicate Ready(pack: RTCPCompoundPacketBuilder, b: Build)
    reads pack
  {
    pack.State() == Some(b) && pack.arebuilding && !pack.external && pack.buffer == null && pack.rtcppacklist == []
  }

  class RTCPPacketBuilder {
    var init: bool
    var maxpacketsize: nat
    var owncname: short
    var processingsdes: bool
    // The SDES items of this round that are still to be sent.
    var pending: seq<Item>

    predicate Valid()
      reads this
    {
      RoundOk(CurrentRound()) && (init ==> MIN_PACKET_SIZE <= maxpacketsize < SIZE_MODULUS)
    }

    function CurrentRound(): Round
      reads this`processingsdes, this`pending
    {
      Round(processingsdes, pending)
    }

    constructor ()
      ensures Valid() && !init && CurrentRound() == Round(false, [])
    {
      init, maxpacketsize, owncname := false, 0, [];
      processingsdes, pending := false, [];
    }

    method Init(maxpacksize: nat, tsunit: real, cname: seq<byte>) returns (status: InitStatus)
      requires Valid() && maxpacksize < SIZE_MODULUS
      modifies this
      ensures Valid() && init == (old(init) || status.Initialized?)
      ensures status == if old(init) then AlreadyInit
                        else if maxpacksize < MIN_PACKET_SIZE then IllegalMaxPackSize
                        else if tsunit < 0.0 then IllegalTimestampUnit
                        else Initialized
      ensures status.Initialized? ==>
                maxpacketsize == maxpacksize && owncname == CutTo255(cname) && CurrentRound() == Round(false, [])
      ensures !status.Initialized? ==>
                && maxpacketsize == old(maxpacketsize) && owncname == old(owncname)
                && CurrentRound() == old(CurrentRound())
    {
      if init {
        return AlreadyInit;
      }
      if maxpacksize < MIN_PACKET_SIZE {
        return IllegalMaxPackSize;
      }
      if tsunit < 0.0 {
        return IllegalTimestampUnit;
      }
      maxpacketsize := maxpacksize;
      owncname := CutTo255(cname);
      processingsdes, pending := false, [];
      init := true;
      return Initialized;
    }

    // A packet with its report started.
    static method StartPacket(max: nat, s: Sender) returns (status: Status, pack: RTCPCompoundPacketBuilder)
      requires max >= MIN_PACKET_SIZE
      ensures fresh(pack) && status == Apply(Start(max), StartReport(s)).status
      ensures status == Ok ==> Ready(pack, Apply(Start(max), StartReport(s)).build)
    {
      pack := new RTCPCompoundPacketBuilder();
      status := pack.InitBuild(max);
      if s.SenderReport? {
        status := pack.StartSenderReport(s);
      } else {
        status := pack.StartReceiverReport(s.ssrc);
      }
    }

    // One call on a packet that is being built.
    static method MakeCall(pack: RTCPCompoundPacketBuilder, op: Op, ghost b: Build) returns (status: Status)
      requires Ready(pack, b) && (op.AddBlock? || op.AddSource? || op.AddItem?)
      modifies pack`reportblocks, pack`blocks, pack`sdessources, pack`chunks
      ensures status == Apply(b, op).status && Ready(pack, Apply(b, op).build)
    {
      match op {
        case AddBlock(block) => status := pack.AddReportBlock(block);
        case AddSource(ssrc) => status := pack.AddSDESSource(ssrc);
        case AddItem(id, data) => status := pack.AddSDESNormalItem(id, data);
      }
    }

    // The own chunk and its CNAME.
    static method AddCname(pack: RTCPCompoundPacketBuilder, ssrc: uint32, cname: short, ghost b: Build)
      returns (status: Status)
      requires Ready(pack, b)
      modifies pack`reportblocks, pack`blocks, pack`sdessources, pack`chunks
      ensures var r := Calls(b, [AddSource(ssrc), AddItem(CNAME, cname)]); status == r.status && Ready(pack, r.build)
    {
      CallsTwo(b, AddSource(ssrc), AddItem(CNAME, cname));
      status := MakeCall(pack, AddSource(ssrc), b);
      if status == Ok {
        status := MakeCall(pack, AddItem(CNAME, cname), Apply(b, AddSource(ssrc)).build);
      }
    }

    // What every packet of the session begins with.
    method BeginPacket(s: Sender) returns (status: Status, pack: RTCPCompoundPacketBuilder?)
      ensures status == FirstCalls(maxpacketsize, s, owncname).status
      ensures status == Ok ==> pack != null && fresh(pack) && Ready(pack, FirstCalls(maxpacketsize, s, owncname).build)
    {
      if maxpacketsize < MIN_PACKET_SIZE {
        return MaxPacketSizeTooSmall, null;
      }
      ghost var ops := [StartReport(s), AddSource(s.ssrc), AddItem(CNAME, owncname)];
      assert ops[1..] == [AddSource(s.ssrc), AddItem(CNAME, owncname)];
      status, pack := StartPacket(maxpacketsize, s);
      if status != Ok {
        return status, null;
      }
      status := AddCname(pack, s.ssrc, owncname, Apply(Start(maxpacketsize), StartReport(s)).build);
    }

    // The first calls of ops, added of them, have led from b to now; if full, the
    // next one has been refused.
    static ghost predicate Filling(b: Build, ops: seq<Op>, now: Build, added: nat, full: bool) {
      && added <= |ops| && (full ==> added < |ops|)
      && Fill(b, ops) == if full then Filled(now, added)
                         else Filled(Fill(now, ops[added..]).build, added + Fill(now, ops[added..]).count)
    }

    static lemma FillingNext(b: Build, ops: seq<Op>, now: Build, added: nat)
      requires Filling(b, ops, now, added, false) && added < |ops|
      ensures var r := Apply(now, ops[added]);
              Filling(b, ops, r.build, if r.status == Ok then added + 1 else added, r.status != Ok)
    {
      assert ops[added..][1..] == ops[added + 1..];
    }

    // Make the calls until the packet is full.
    static method FillIn(pack: RTCPCompoundPacketBuilder, ops: seq<Op>, ghost b: Build) returns (full: bool, added: nat)
      requires Ready(pack, b) && forall i :: 0 <= i < |ops| ==> ops[i].AddBlock? || ops[i].AddItem?
      modifies pack`reportblocks, pack`blocks, pack`sdessources, pack`chunks
      ensures Ready(pack, Fill(b, ops).build) && added == Fill(b, ops).count && full == (added < |ops|)
    {
      full, added := false, 0;
      ghost var now := b;
      assert ops[0..] == ops;
      while added < |ops| && !full
        invariant Filling(b, ops, now, added, full) && Ready(pack, now)
        decreases |ops| - added, !full
      {
        FillingNext(b, ops, now, added);
        var status := MakeCall(pack, ops[added], now);
        now := Apply(now, ops[added]).build;
        full := status != Ok;
        added := if full then added else added + 1;
      }
    }

    // With a report started, a block is only ever refused for room.
    static method FillInReportBlocks(pack: RTCPCompoundPacketBuilder, bs: seq<ReportBlock>, ghost b: Build)
      returns (full: bool, added: nat)
      requires Ready(pack, b)
      modifies pack`reportblocks, pack`blocks, pack`sdessources, pack`chunks
      ensures Ready(pack, Fill(b, BlockOps(bs)).build) && added == Fill(b, BlockOps(bs)).count && full == (added < |bs|)
    {
      full, added := FillIn(pack, BlockOps(bs), b);
    }

    static method FillInSDES(pack: RTCPCompoundPacketBuilder, items: seq<Item>, ghost b: Build)
      returns (full: bool, added: nat)
      requires Ready(pack, b) && NormalItems(items)
      modifies pack`reportblocks, pack`blocks, pack`sdessources, pack`chunks
      ensures Ready(pack, Fill(b, ItemOps(items)).build) && added == Fill(b, ItemOps(items)).count
              && full == (added < |items|)
    {
      full, added := FillIn(pack, ItemOps(items), b);
    }

    // The SDES items, and if all of them fit, report blocks.
    method AddSdesRound(pack: RTCPCompoundPacketBuilder, items: seq<Item>, bs: seq<ReportBlock>,
                        ghost b: Build) returns (itemcount: nat)
      requires Ready(pack, b) && NormalItems(items)
      modifies this`processingsdes, this`pending, pack`reportblocks, pack`blocks, pack`sdessources, pack`chunks
      ensures Ready(pack, SdesStep(b, items, bs).build) && CurrentRound() == SdesStep(b, items, bs).round
      ensures itemcount == Fill(b, ItemOps(items)).count
    {
      var full;
      full, itemcount := FillInSDES(pack, items, b);
      if full {
        processingsdes, pending := true, items[itemcount..];
      } else {
        processingsdes, pending := false, [];
        var blocksfull, added := FillInReportBlocks(pack, bs, Fill(b, ItemOps(items)).build);
      }
    }

    // What comes after the CNAME; false if nothing could be added.
    method FillPacket(pack: RTCPCompoundPacketBuilder, offered: seq<ReportBlock>, again: seq<ReportBlock>,
                      due: seq<Item>, ghost b: Build)
      returns (ok: bool)
      requires Ready(pack, b) && RoundOk(CurrentRound()) && NormalItems(due)
      modifies this`processingsdes, this`pending, pack`reportblocks, pack`blocks, pack`sdessources, pack`chunks
      ensures var n := NextBuild(b, old(CurrentRound()), offered, again, due);
              ok ==> Ready(pack, n.build) && CurrentRound() == n.round
      ensures ok == !Stuck(b, old(CurrentRound()), offered)
      ensures !ok ==> CurrentRound() == old(CurrentRound())
    {
      if processingsdes {
        var items := pending;
        var itemcount := AddSdesRound(pack, items, offered, b);
        ok := itemcount != 0;
        assert itemcount == 0 ==> items[0..] == items;
      } else {
        var full, added := FillInReportBlocks(pack, offered, b);
        if full {
          ok := added != 0;
        } else {
          ok := true;
          var itemcount := AddSdesRound(pack, due, again, Fill(b, BlockOps(offered)).build);
        }
      }
    }

    // pack is finished, and its bytes stand at buf.
    static ghost predicate Holding(pack: RTCPCompoundPacketBuilder?, buf: array?<byte>, b: Build)
      reads pack, buf
    {
      && pack != null && buf != null && BuildOk(b) && b.sender.Some?
      && pack.Finished(buf, RTCPCompoundPacketBuilder.Output(b))
    }

    static method EndPacket(pack: RTCPCompoundPacketBuilder, ghost b: Build) returns (ghost buf: array<byte>)
      requires Ready(pack, b) && b.sender.Some?
      modifies pack
      ensures Holding(pack, buf, b)
    {
      var status, where := pack.EndBuild(b);
      buf := where;
    }

    static lemma NextSender(max: nat, s: Sender, cname: short, r: Round, offered: seq<ReportBlock>,
                            again: seq<ReportBlock>, due: seq<Item>)
      requires MIN_PACKET_SIZE <= max < SIZE_MODULUS && RoundOk(r) && NormalItems(due)
      ensures var n := NextBuild(FirstCalls(max, s, cname).build, r, offered, again, due);
              n.build.sender.Some? && RoundOk(n.round)
    {
      FirstCallsWork(max, s, cname);
      NextBuildFollows(max, s, cname, r, offered, again, due);
    }

    // Fill a packet that has been begun, and finish it.
    method CompleteNext(pack: RTCPCompoundPacketBuilder, offered: seq<ReportBlock>, again: seq<ReportBlock>,
                        due: seq<Item>,
                        ghost first: Build, ghost n: Next)
      returns (ok: bool, ghost buf: array?<byte>)
      requires RoundOk(CurrentRound()) && NormalItems(due) && Ready(pack, first)
      requires n == NextBuild(first, CurrentRound(), offered, again, due) && n.build.sender.Some?
      modifies this`processingsdes, this`pending, pack
      ensures ok == !Stuck(first, old(CurrentRound()), offered)
      ensures ok ==> Holding(pack, buf, n.build) && CurrentRound() == n.round
      ensures !ok ==> CurrentRound() == old(CurrentRound())
    {
      ok := FillPacket(pack, offered, again, due, first);
      buf := null;
      if ok {
        buf := EndPacket(pack, n.build);
      }
    }

    // Build the next compound packet of the session.
    method BuildNextPacket(s: Sender, offered: seq<ReportBlock>, again: seq<ReportBlock>, due: seq<Item>)
      returns (outcome: Outcome, pack: RTCPCompoundPacketBuilder?, ghost buf: array?<byte>)
      requires Valid() && NormalItems(due)
      modifies this`processingsdes, this`pending
      ensures Valid()
      ensures outcome == if init then NextOutcome(maxpacketsize, s, owncname, old(CurrentRound()), offered) else NotInit
      ensures var first := FirstCalls(maxpacketsize, s, owncname).build;
              var n := NextBuild(first, old(CurrentRound()), offered, again, due);
              if outcome == Built then Holding(pack, buf, n.build) && CurrentRound() == n.round
              else pack == null && CurrentRound() == old(CurrentRound())
    {
      hide NextBuild, FirstCalls, Holding, Ready, Stuck, NormalItems;
      if !init {
        return NotInit, null, null;
      }
      var status, p := BeginPacket(s);
      if status != Ok {
        return AsOutcome(status), null, null;
      }
      NextSender(maxpacketsize, s, owncname, CurrentRound(), offered, again, due);
      ghost var first := FirstCalls(maxpacketsize, s, owncname).build;
      ghost var n := NextBuild(first, CurrentRound(), offered, again, due);
      var ok;
      ok, buf := CompleteNext(p, offered, again, due, first, n);
      if !ok {
        return PacketFilledTooSoon, null, null;
      }
      return Built, p, buf;
    }

    static lemma ByeSender(max: nat, s: Sender, cname: short, reason: seq<byte>)
      requires FirstCalls(max, s, cname).status == Ok && MIN_PACKET_SIZE <= max < SIZE_MODULUS
      ensures var r := ByeResult(max, s, cname, reason);
              && r.build.sender.Some?
              && r == Apply(FirstCalls(max, s, cname).build, AddBye(Bye([s.ssrc], CutTo255(reason))))
    {
      ByeAlwaysFits(max, s, cname, reason);
    }

    // The BYE packet, and the end.
    method CompleteBye(pack: RTCPCompoundPacketBuilder, s: Sender, reason: seq<byte>)
      returns (status: Status, ghost buf: array?<byte>)
      requires Valid() && init && FirstCalls(maxpacketsize, s, owncname).status == Ok
      requires Ready(pack, FirstCalls(maxpacketsize, s, owncname).build)
      modifies pack
      ensures var r := ByeResult(maxpacketsize, s, owncname, reason);
              status == r.status && (status == Ok ==> Holding(pack, buf, r.build))
    {
      ByeSender(maxpacketsize, s, owncname, reason);
      buf := null;
      status := pack.AddBYEPacket([s.ssrc], CutTo255(reason));
      if status == Ok {
        buf := EndPacket(pack, ByeResult(maxpacketsize, s, owncname, reason).build);
      }
    }

    // Build a BYE packet for the own source.
    method BuildBYEPacket(s: Sender, reason: seq<byte>)
      returns (outcome: Outcome, pack: RTCPCompoundPacketBuilder?, ghost buf: array?<byte>)
      requires Valid()
      ensures outcome == if init then AsOutcome(ByeResult(maxpacketsize, s, owncname, reason).status) else NotInit
      ensures if outcome == Built then Holding(pack, buf, ByeResult(maxpacketsize, s, owncname, reason).build)
              else pack == null
    {
      if !init {
        return NotInit, null, null;
      }
      var status, p := BeginPacket(s);
      if status != Ok {
        return AsOutcome(status), null, null;
      }
      status, buf := CompleteBye(p, s, reason);
      if status != Ok {
        return AsOutcome(status), null, null;
      }
      return Built, p, buf;
    }
  }
}
