// Building a compound packet: the size accounting of rtcpcompoundpacketbuilder.h
// and the checks of every builder call, on the value of a build.
module BuildModel {
  import opened Types
  import opened RtcpPackets
  import opened SdesPacket
  import opened RtcpEncoding
  import opened RoundTrip

  const MIN_PACKET_SIZE := 600
  const SIZE_MODULUS := 0x1_0000_0000_0000_0000
  const CNAME := 1
  const NOTE := 7

  // Lengths are passed in a byte.
  type short = s: seq<byte> | |s| < 256

  datatype Build = Build(
    max: nat,
    sender: Option<Sender>,
    blocks: seq<ReportBlock>,
    chunks: seq<Chunk>,
    apps: seq<App>,
    byes: seq<Bye>)

  function Start(max: nat): Build {
    Build(max, None, [], [], [], [])
  }

  predicate BuildOk(b: Build) {
    ChunksGood(b.chunks) && AppsGood(b.apps) && ByesGood(b.byes) && (b.sender.None? ==> b.blocks == [])
  }

  // ---- Predicted sizes ----

  // The number of packets that n blocks or chunks are split into.
  function Groups(n: nat): nat {
    n / MAX_COUNT + if n % MAX_COUNT != 0 then 1 else 0
  }

  function HeaderLength(s: Sender): nat {
    if s.SenderReport? then 4 + SENDER_INFO_SIZE else 4
  }

  // The formula for at least one block.
  function BlocksSize(s: Sender, n: nat): nat {
    n * REPORT_BLOCK_SIZE + Groups(n) * (HEADER_SIZE + 4) + if s.SenderReport? then SENDER_INFO_SIZE else 0
  }

  function ReportSize(s: Option<Sender>, n: nat): nat {
    if s.None? then 0 else if n == 0 then HEADER_SIZE + HeaderLength(s.value) else BlocksSize(s.value, n)
  }

  function ItemsSize(items: seq<Item>): nat {
    if items == [] then 0 else ITEM_HEADER_SIZE + |items[0].data| + ItemsSize(items[1..])
  }

  function PaddedChunkSize(itemssize: nat): nat {
    RoundUp(itemssize + 1) + 4
  }

  function ChunksSize(cs: seq<Chunk>): nat {
    if cs == [] then 0 else ChunksSize(cs[..|cs| - 1]) + PaddedChunkSize(ItemsSize(cs[|cs| - 1].items))
  }

  function SdesSize(cs: seq<Chunk>): nat {
    if cs == [] then 0 else ChunksSize(cs) + Groups(|cs|) * HEADER_SIZE
  }

  function SdesSizeWithExtraItem(cs: seq<Chunk>, length: nat): nat {
    if cs == [] then 0
    else
      ChunksSize(cs[..|cs| - 1]) + PaddedChunkSize(ItemsSize(cs[|cs| - 1].items) + ITEM_HEADER_SIZE + length)
      + Groups(|cs|) * HEADER_SIZE
  }

  // 0 for the first source, although that one needs 12 bytes.
  function SdesSizeWithExtraSource(cs: seq<Chunk>): nat {
    if cs == [] then 0 else ChunksSize(cs) + 8 + Groups(|cs| + 1) * HEADER_SIZE
  }

  function AppSize(a: App): nat {
    HEADER_SIZE + 8 + |a.data|
  }

  function AppsSize(apps: seq<App>): nat {
    if apps == [] then 0 else AppsSize(apps[..|apps| - 1]) + AppSize(apps[|apps| - 1])
  }

  function ByeSize(b: Bye): nat {
    var packsize := HEADER_SIZE + 4 * |b.ssrcs|;
    if b.reason == [] then packsize else RoundUp(packsize + 1 + |b.reason|)
  }

  function ByesSize(byes: seq<Bye>): nat {
    if byes == [] then 0 else ByesSize(byes[..|byes| - 1]) + ByeSize(byes[|byes| - 1])
  }

  function OtherSize(b: Build): nat {
    AppsSize(b.apps) + ByesSize(b.byes)
  }

  function Total(b: Build): nat {
    OtherSize(b) + ReportSize(b.sender, |b.blocks|) + SdesSize(b.chunks)
  }

  // ---- The builder calls ----

  datatype Status =
    | Ok
    | NotBuilding
    | AlreadyBuilding
    | AlreadyBuilt
    | MaxPacketSizeTooSmall
    | BufferSizeTooSmall
    | AlreadyGotReport
    | ReportNotStarted
    | NoReportPresent
    | NotEnoughBytesLeft
    | NoCurrentSource
    | InvalidItemType
    | TotalItemLengthTooBig
    | TooManySsrcs
    | IllegalSubtype
    | IllegalAppDataLength
    | AppDataLenTooBig

  datatype Op =
    | StartReport(sender: Sender)
    | AddBlock(block: ReportBlock)
    | AddSource(ssrc: uint32)
    | AddItem(id: int, data: short)
    | AddPrivate(prefix: short, value: short)
    | AddBye(bye: Bye)
    | AddApp(app: App)

  // The arguments a caller can pass.
  predicate OpOk(op: Op) {
    && (op.AddBye? ==> |op.bye.reason| < 256)
    && (op.AddApp? ==> |op.app.name| == 4)
  }

  datatype Result = Result(build: Build, status: Status)

  // Adding an item to the current chunk, the last one.
  function WithItem(cs: seq<Chunk>, item: Item): seq<Chunk>
    requires cs != []
  {
    var last := cs[|cs| - 1];
    cs[..|cs| - 1] + [last.(items := last.items + [item])]
  }

  // An unsigned subtraction: it wraps when the total already exceeds the maximum.
  function SizeLeft(b: Build): nat {
    (b.max - (OtherSize(b) + SdesSize(b.chunks))) % SIZE_MODULUS
  }

  function PutItem(b: Build, item: Item): Result {
    if b.chunks == [] then Result(b, NoCurrentSource)
    else if SdesSizeWithExtraItem(b.chunks, |item.data|) + OtherSize(b) + ReportSize(b.sender, |b.blocks|) > b.max then
      Result(b, NotEnoughBytesLeft)
    else Result(b.(chunks := WithItem(b.chunks, item)), Ok)
  }

  function PrivateData(prefix: short, value: short): seq<byte> {
    [|prefix|] + prefix + value
  }

  function Apply(b: Build, op: Op): Result {
    match op
    case StartReport(s) =>
      if b.sender.Some? then Result(b, AlreadyGotReport)
      else if HEADER_SIZE + HeaderLength(s) > SizeLeft(b) then Result(b, NotEnoughBytesLeft)
      else Result(b.(sender := Some(s)), Ok)
    case AddBlock(block) =>
      if b.sender.None? then Result(b, ReportNotStarted)
      else if OtherSize(b) + SdesSize(b.chunks) + BlocksSize(b.sender.value, |b.blocks| + 1) > b.max then
        Result(b, NotEnoughBytesLeft)
      else Result(b.(blocks := b.blocks + [block]), Ok)
    case AddSource(ssrc) =>
      if OtherSize(b) + ReportSize(b.sender, |b.blocks|) + SdesSizeWithExtraSource(b.chunks) > b.max then
        Result(b, NotEnoughBytesLeft)
      else Result(b.(chunks := b.chunks + [Chunk(ssrc, [])]), Ok)
    case AddItem(id, data) =>
      if b.chunks == [] then Result(b, NoCurrentSource)
      else if !(CNAME <= id <= NOTE) then Result(b, InvalidItemType)
      else PutItem(b, Item(id, data))
    case AddPrivate(prefix, value) =>
      if b.chunks == [] then Result(b, NoCurrentSource)
      else if |prefix| + 1 + |value| > 255 then Result(b, TotalItemLengthTooBig)
      else PutItem(b, Item(PRIV, PrivateData(prefix, value)))
    case AddBye(bye) =>
      if |bye.ssrcs| > MAX_COUNT then Result(b, TooManySsrcs)
      else if Total(b) + ByeSize(bye) > b.max then Result(b, NotEnoughBytesLeft)
      else Result(b.(byes := b.byes + [bye]), Ok)
    case AddApp(app) =>
      if app.subtype > 31 then Result(b, IllegalSubtype)
      else if |app.data| % 4 != 0 then Result(b, IllegalAppDataLength)
      else if |app.data| / 4 + 2 > 65535 then Result(b, AppDataLenTooBig)
      else if Total(b) + AppSize(app) > b.max then Result(b, NotEnoughBytesLeft)
      else Result(b.(apps := b.apps + [app]), Ok)
  }

  // A call on a builder that may not have been started.
  function Call(building: bool, b: Build, op: Op): Result {
    if building then Apply(b, op) else Result(b, NotBuilding)
  }

  function Run(b: Build, ops: seq<Op>): Build {
    if ops == [] then b else Apply(Run(b, ops[..|ops| - 1]), ops[|ops| - 1]).build
  }

  predicate OpsOk(ops: seq<Op>) {
    forall i :: 0 <= i < |ops| ==> OpOk(ops[i])
  }

  lemma WithItemGood(cs: seq<Chunk>, item: Item)
    requires cs != [] && ChunksGood(cs) && ItemOk(item)
    ensures ChunksGood(WithItem(cs, item))
  {
    var last := cs[|cs| - 1];
    assert ChunkOk(last);
    var c := last.(items := last.items + [item]);
    forall i | 0 <= i < |c.items| ensures ItemOk(c.items[i]) {
      assert i < |last.items| ==> c.items[i] == last.items[i];
    }
  }

  lemma ApplyKeeps(b: Build, op: Op)
    requires BuildOk(b) && OpOk(op)
    ensures BuildOk(Apply(b, op).build) && Apply(b, op).build.max == b.max
    ensures Apply(b, op).status != Ok ==> Apply(b, op).build == b
  {
    match op
    case AddItem(id, data) =>
      if b.chunks != [] && CNAME <= id <= NOTE {
        WithItemGood(b.chunks, Item(id, data));
      }
    case AddPrivate(prefix, value) =>
      if b.chunks != [] && |prefix| + 1 + |value| <= 255 {
        WithItemGood(b.chunks, Item(PRIV, PrivateData(prefix, value)));
      }
    case _ =>
  }

  lemma {:induction false} RunKeeps(b: Build, ops: seq<Op>)
    requires BuildOk(b) && OpsOk(ops)
    ensures BuildOk(Run(b, ops)) && Run(b, ops).max == b.max
  {
    if ops != [] {
      RunKeeps(b, ops[..|ops| - 1]);
      ApplyKeeps(Run(b, ops[..|ops| - 1]), ops[|ops| - 1]);
    }
  }

  // ---- The predictions are exact ----

  function ContentsOf(b: Build): Contents
    requires b.sender.Some?
  {
    Contents(b.sender.value, b.blocks, b.chunks, b.apps, b.byes)
  }

  lemma GroupsStep(n: nat)
    requires n > MAX_COUNT
    ensures Groups(n) == 1 + Groups(n - MAX_COUNT)
  {
  }

  lemma {:induction false} FlattenConcat(a: seq<seq<byte>>, b: seq<seq<byte>>)
    ensures Flatten(a + b) == Flatten(a) + Flatten(b)
  {
    if a == [] {
      assert a + b == b;
    } else {
      assert (a + b)[0] == a[0] && (a + b)[1..] == a[1..] + b;
      FlattenConcat(a[1..], b);
    }
  }

  lemma FlattenOne(p: seq<byte>)
    ensures Flatten([p]) == p
  {
    assert [p][1..] == [];
  }

  lemma {:induction false} ReportsExact(s: Sender, bs: seq<ReportBlock>)
    ensures |Flatten(ReportPackets(s, bs))| == ReportSize(Some(s), |bs|)
    decreases |bs|
  {
    hide ReportPacket, KnownReport;
    if |bs| <= MAX_COUNT {
      ReportKnown(s, bs);
      FlattenOne(ReportPacket(s, bs));
    } else {
      ReportKnown(s, bs[..MAX_COUNT]);
      ReportsExact(Later(s), bs[MAX_COUNT..]);
      GroupsStep(|bs|);
      FlattenCons(ReportPacket(s, bs[..MAX_COUNT]), ReportPackets(Later(s), bs[MAX_COUNT..]));
    }
  }

  lemma FlattenCons(p: seq<byte>, rest: seq<seq<byte>>)
    ensures Flatten([p] + rest) == p + Flatten(rest)
  {
    assert ([p] + rest)[1..] == rest;
  }

  lemma {:induction false} ItemsExact(items: seq<Item>)
    requires forall i :: 0 <= i < |items| ==> ItemOk(items[i])
    ensures |ItemsBytes(items)| == ItemsSize(items)
  {
    if items != [] {
      ItemsExact(items[1..]);
    }
  }

  lemma ChunkExact(c: Chunk)
    requires ChunkOk(c)
    ensures |ChunkBytes(c)| == PaddedChunkSize(ItemsSize(c.items))
  {
    ItemsExact(c.items);
    ChunkSize(c);
  }

  lemma {:induction false} ChunksSizeSplit(a: seq<Chunk>, b: seq<Chunk>)
    ensures ChunksSize(a + b) == ChunksSize(a) + ChunksSize(b)
  {
    if b == [] {
      assert a + b == a;
    } else {
      assert (a + b)[..|a + b| - 1] == a + b[..|b| - 1];
      ChunksSizeSplit(a, b[..|b| - 1]);
    }
  }

  lemma {:induction false} ChunksExact(cs: seq<Chunk>)
    requires ChunksGood(cs)
    ensures |ChunksBytes(cs)| == ChunksSize(cs)
    decreases |cs|
  {
    if cs != [] {
      ChunkExact(cs[0]);
      ChunksExact(cs[1..]);
      ChunksSizeSplit([cs[0]], cs[1..]);
      assert [cs[0]] + cs[1..] == cs && [cs[0]][..0] == [];
    }
  }

  lemma SdesPacketExact(cs: seq<Chunk>)
    requires |cs| <= MAX_COUNT && ChunksGood(cs)
    ensures |SdesBytes(cs)| == HEADER_SIZE + ChunksSize(cs)
  {
    SdesHeader(cs);
    ChunksExact(cs);
  }

  lemma {:induction false} SdesExact(cs: seq<Chunk>)
    requires ChunksGood(cs)
    ensures |Flatten(SdesPackets(cs))| == SdesSize(cs)
    decreases |cs|
  {
    hide SdesBytes, ChunksSize;
    if cs == [] {
    } else if |cs| <= MAX_COUNT {
      SdesPacketExact(cs);
      FlattenOne(SdesBytes(cs));
    } else {
      var head, tail := cs[..MAX_COUNT], cs[MAX_COUNT..];
      SdesPacketExact(head);
      SdesExact(tail);
      SdesSizeStep(cs);
      FlattenCons(SdesBytes(head), SdesPackets(tail));
    }
  }

  lemma SdesSizeStep(cs: seq<Chunk>)
    requires |cs| > MAX_COUNT
    ensures SdesSize(cs) == HEADER_SIZE + ChunksSize(cs[..MAX_COUNT]) + SdesSize(cs[MAX_COUNT..])
  {
    assert cs[..MAX_COUNT] + cs[MAX_COUNT..] == cs;
    ChunksSizeSplit(cs[..MAX_COUNT], cs[MAX_COUNT..]);
    GroupsStep(|cs|);
  }

  lemma {:induction false} AppPacketsAppend(apps: seq<App>, a: App)
    requires AppsGood(apps) && AppOk(a)
    ensures AppPackets(apps + [a]) == AppPackets(apps) + [AppBytes(a)]
  {
    if apps == [] {
      assert apps + [a] == [a] && [a][1..] == [];
    } else {
      assert (apps + [a])[1..] == apps[1..] + [a];
      AppPacketsAppend(apps[1..], a);
    }
  }

  lemma {:induction false} ByePacketsAppend(byes: seq<Bye>, b: Bye)
    requires ByesGood(byes) && ByeOk(b)
    ensures ByePackets(byes + [b]) == ByePackets(byes) + [ByeBytes(b)]
  {
    hide ByeBytes, ByeOk;
    if byes == [] {
      assert byes + [b] == [b] && [b][1..] == [];
    } else {
      assert (byes + [b])[1..] == byes[1..] + [b];
      ByePacketsAppend(byes[1..], b);
    }
  }

  lemma {:induction false} AppsExact(apps: seq<App>)
    requires AppsGood(apps)
    ensures |Flatten(AppPackets(apps))| == AppsSize(apps)
  {
    if apps != [] {
      var front, last := apps[..|apps| - 1], apps[|apps| - 1];
      AppsExact(front);
      AppHeader(last);
      assert front + [last] == apps;
      AppPacketsAppend(front, last);
      FlattenConcat(AppPackets(front), [AppBytes(last)]);
      FlattenOne(AppBytes(last));
    }
  }

  lemma ByeExact(b: Bye)
    requires ByeOk(b)
    ensures |ByeBytes(b)| == ByeSize(b)
  {
    hide ByeOk;
    ByeHeader(b);
  }

  lemma {:induction false} ByesExact(byes: seq<Bye>)
    requires ByesGood(byes)
    ensures |Flatten(ByePackets(byes))| == ByesSize(byes)
  {
    if byes != [] {
      var front, last := byes[..|byes| - 1], byes[|byes| - 1];
      ByesExact(front);
      ByeExact(last);
      assert front + [last] == byes;
      ByePacketsAppend(front, last);
      FlattenConcat(ByePackets(front), [ByeBytes(last)]);
      FlattenOne(ByeBytes(last));
    }
  }

  // The bytes of the finished packet are exactly as many as predicted.
  lemma SizeIsExact(b: Build)
    requires BuildOk(b) && b.sender.Some?
    ensures |Flatten(Packets(ContentsOf(b)))| == Total(b)
  {
    var r, s := ReportPackets(b.sender.value, b.blocks), SdesPackets(b.chunks);
    var a, y := AppPackets(b.apps), ByePackets(b.byes);
    ReportsExact(b.sender.value, b.blocks);
    SdesExact(b.chunks);
    AppsExact(b.apps);
    ByesExact(b.byes);
    FlattenConcat(r, s);
    FlattenConcat(r + s, a);
    FlattenConcat(r + s + a, y);
  }

  // The three look-ahead sizes equal the size after the addition: for a report
  // block always, for an item and a further source when there is a source.
  lemma ExtraBlockExact(s: Sender, n: nat)
    ensures BlocksSize(s, n + 1) == ReportSize(Some(s), n + 1) >= ReportSize(Some(s), n)
  {
    GroupsGrow(n);
  }

  lemma GroupsGrow(n: nat)
    ensures Groups(n) <= Groups(n + 1) && Groups(n + 1) >= 1
  {
  }

  lemma ItemsSizeAppend(items: seq<Item>, item: Item)
    ensures ItemsSize(items + [item]) == ItemsSize(items) + ITEM_HEADER_SIZE + |item.data|
  {
    if items == [] {
      assert items + [item] == [item] && [item][1..] == [];
    } else {
      assert (items + [item])[1..] == items[1..] + [item];
      ItemsSizeAppend(items[1..], item);
    }
  }

  lemma PaddedGrows(a: nat, b: nat)
    requires a <= b
    ensures PaddedChunkSize(a) <= PaddedChunkSize(b)
  {
  }

  lemma ExtraItemExact(cs: seq<Chunk>, item: Item)
    requires cs != []
    ensures SdesSizeWithExtraItem(cs, |item.data|) == SdesSize(WithItem(cs, item)) >= SdesSize(cs)
  {
    var last := cs[|cs| - 1];
    ItemsSizeAppend(last.items, item);
    assert WithItem(cs, item)[..|cs| - 1] == cs[..|cs| - 1];
    PaddedGrows(ItemsSize(last.items), ItemsSize(last.items) + ITEM_HEADER_SIZE + |item.data|);
  }

  lemma ExtraSourceExact(cs: seq<Chunk>, ssrc: uint32)
    ensures SdesSize(cs + [Chunk(ssrc, [])]) >= SdesSize(cs)
    ensures cs != [] ==> SdesSizeWithExtraSource(cs) == SdesSize(cs + [Chunk(ssrc, [])])
    ensures cs == [] ==> SdesSizeWithExtraSource(cs) == 0 && SdesSize(cs + [Chunk(ssrc, [])]) == 12
  {
    var c := Chunk(ssrc, []);
    assert (cs + [c])[..|cs|] == cs;
    assert PaddedChunkSize(ItemsSize(c.items)) == 8;
    GroupsGrow(|cs|);
  }

  // ---- Fit ----

  predicate Fits(b: Build) {
    Total(b) <= b.max
  }

  // A first source that is accepted although fewer than 12 bytes are free.
  predicate Tight(b: Build, op: Op) {
    op.AddSource? && b.chunks == [] && Fits(b) && b.max - Total(b) < 12
  }

  lemma LastAdds(b: Build, bye: Bye, app: App)
    ensures ByesSize(b.byes + [bye]) == ByesSize(b.byes) + ByeSize(bye)
    ensures AppsSize(b.apps + [app]) == AppsSize(b.apps) + AppSize(app)
  {
    assert (b.byes + [bye])[..|b.byes|] == b.byes && (b.apps + [app])[..|b.apps|] == b.apps;
  }

  lemma ItemFits(b: Build, item: Item)
    requires b.chunks != []
    ensures var r := PutItem(b, item).build; Total(r) >= Total(b) && (Fits(r) <==> Fits(b))
  {
    ExtraItemExact(b.chunks, item);
  }

  lemma SourceFits(b: Build, ssrc: uint32)
    ensures var r := Apply(b, AddSource(ssrc)).build;
            Total(r) >= Total(b) && (Fits(r) <==> Fits(b) && !Tight(b, AddSource(ssrc)))
  {
    ExtraSourceExact(b.chunks, ssrc);
  }

  lemma ReportFits(b: Build, s: Sender)
    requires BuildOk(b) && b.max < SIZE_MODULUS
    ensures var r := Apply(b, StartReport(s)).build; Total(r) >= Total(b) && (Fits(r) <==> Fits(b))
  {
    if b.sender.None? && Fits(b) {
      assert SizeLeft(b) == b.max - (OtherSize(b) + SdesSize(b.chunks));
    }
  }

  lemma BlockFits(b: Build, block: ReportBlock)
    requires b.sender.Some?
    ensures Fits(Apply(b, AddBlock(block)).build) <==> Fits(b)
  {
    ExtraBlockExact(b.sender.value, |b.blocks|);
  }

  lemma ByeFits(b: Build, bye: Bye)
    ensures Fits(Apply(b, AddBye(bye)).build) <==> Fits(b)
  {
    LastAdds(b, bye, App(0, 0, [], []));
  }

  lemma AppFits(b: Build, app: App)
    ensures Fits(Apply(b, AddApp(app)).build) <==> Fits(b)
  {
    LastAdds(b, Bye([], []), app);
  }

  lemma ItemCallFits(b: Build, op: Op)
    requires op.AddItem? || op.AddPrivate?
    ensures Fits(Apply(b, op).build) <==> Fits(b)
  {
    if b.chunks != [] {
      if op.AddItem? && CNAME <= op.id <= NOTE {
        ItemFits(b, Item(op.id, op.data));
      } else if op.AddPrivate? && |op.prefix| + 1 + |op.value| <= 255 {
        ItemFits(b, Item(PRIV, PrivateData(op.prefix, op.value)));
      }
    }
  }

  // A call lets the packet outgrow its maximum exactly when it adds a first
  // source with fewer than 12 bytes free; and an outgrown packet stays so.
  lemma CallFits(b: Build, op: Op)
    requires BuildOk(b) && OpOk(op) && b.max < SIZE_MODULUS
    ensures Fits(Apply(b, op).build) <==> Fits(b) && !Tight(b, op)
  {
    match op
    case StartReport(s) => ReportFits(b, s);
    case AddBlock(block) =>
      if b.sender.Some? {
        BlockFits(b, block);
      }
    case AddSource(ssrc) => SourceFits(b, ssrc);
    case AddItem(_, _) => ItemCallFits(b, op);
    case AddPrivate(_, _) => ItemCallFits(b, op);
    case AddBye(bye) => ByeFits(b, bye);
    case AddApp(app) => AppFits(b, app);
  }

  // No first source comes with fewer than 12 bytes free.
  predicate NeverTight(b: Build, ops: seq<Op>) {
    ops == [] || (NeverTight(b, ops[..|ops| - 1]) && !Tight(Run(b, ops[..|ops| - 1]), ops[|ops| - 1]))
  }

  // Over any sequence of calls, successful or not: the finished packet is within
  // its maximum if and only if no first source came with fewer than 12 bytes free.
  lemma {:induction false} RunFits(max: nat, ops: seq<Op>)
    requires OpsOk(ops) && max < SIZE_MODULUS
    ensures Fits(Run(Start(max), ops)) <==> NeverTight(Start(max), ops)
  {
    if ops != [] {
      var front, last := ops[..|ops| - 1], ops[|ops| - 1];
      RunFits(max, front);
      RunKeeps(Start(max), front);
      CallFits(Run(Start(max), front), last);
    }
  }

  // ---- The call order of the packet builder ----

  lemma {:induction false} RunAppend(b: Build, ops: seq<Op>, op: Op)
    ensures Run(b, ops + [op]) == Apply(Run(b, ops), op).build
  {
    assert (ops + [op])[..|ops|] == ops;
  }

  lemma {:induction false} RunConcat(b: Build, first: seq<Op>, more: seq<Op>)
    ensures Run(b, first + more) == Run(Run(b, first), more)
  {
    if more == [] {
      assert first + more == first;
    } else {
      assert (first + more)[..|first + more| - 1] == first + more[..|more| - 1];
      RunConcat(b, first, more[..|more| - 1]);
    }
  }

  // Once a source has been added, every further call keeps the packet fitting.
  lemma {:induction false} StaysFitting(b: Build, ops: seq<Op>)
    requires BuildOk(b) && OpsOk(ops) && b.max < SIZE_MODULUS && Fits(b) && b.chunks != []
    ensures Fits(Run(b, ops)) && Run(b, ops).chunks != []
  {
    if ops != [] {
      var front, last := ops[..|ops| - 1], ops[|ops| - 1];
      StaysFitting(b, front);
      RunKeeps(b, front);
      CallStaysFitting(Run(b, front), last);
    }
  }

  lemma CallStaysFitting(b: Build, op: Op)
    requires BuildOk(b) && OpOk(op) && b.max < SIZE_MODULUS && Fits(b) && b.chunks != []
    ensures Fits(Apply(b, op).build) && Apply(b, op).build.chunks != []
  {
    CallFits(b, op);
  }

  // A report, then the own source, then anything: the finished packet fits.
  lemma NextPacketFits(max: nat, s: Sender, ssrc: uint32, more: seq<Op>)
    requires MIN_PACKET_SIZE <= max < SIZE_MODULUS && OpsOk(more)
    ensures Fits(Run(Start(max), [StartReport(s), AddSource(ssrc)] + more))
  {
    TwoCalls(max, s, ssrc);
    RunConcat(Start(max), [StartReport(s), AddSource(ssrc)], more);
    StaysFitting(AfterSource(max, s, ssrc), more);
  }

  function AfterSource(max: nat, s: Sender, ssrc: uint32): Build {
    Build(max, Some(s), [], [Chunk(ssrc, [])], [], [])
  }

  lemma TwoCalls(max: nat, s: Sender, ssrc: uint32)
    requires MIN_PACKET_SIZE <= max < SIZE_MODULUS
    ensures Run(Start(max), [StartReport(s), AddSource(ssrc)]) == AfterSource(max, s, ssrc)
    ensures Apply(Start(max), StartReport(s)).status == Ok
    ensures Apply(Build(max, Some(s), [], [], [], []), AddSource(ssrc)).status == Ok
    ensures Total(AfterSource(max, s, ssrc)) <= 40 && BuildOk(AfterSource(max, s, ssrc))
  {
    RunAppend(Start(max), [], StartReport(s));
    RunAppend(Start(max), [StartReport(s)], AddSource(ssrc));
    assert [] + [StartReport(s)] == [StartReport(s)];
    assert [StartReport(s)] + [AddSource(ssrc)] == [StartReport(s), AddSource(ssrc)];
    assert [] + [Chunk(ssrc, [])] == [Chunk(ssrc, [])];
    ExtraSourceExact([], ssrc);
  }

  // BuildBYEPacket: no call is refused for room, whatever the CNAME and the
  // reason, because at most 560 bytes are needed.
  lemma CnameFits(max: nat, s: Sender, ssrc: uint32, cname: short)
    requires MIN_PACKET_SIZE <= max
    ensures var r := Apply(AfterSource(max, s, ssrc), AddItem(CNAME, cname)); r.status == Ok && Total(r.build) <= 296
  {
    OneChunkSize(ssrc, Item(CNAME, cname));
    ItemRoom(AfterSource(max, s, ssrc), Item(CNAME, cname), 28, 268);
  }

  lemma ItemRoom(b: Build, item: Item, others: nat, size: nat)
    requires b.chunks != [] && OtherSize(b) + ReportSize(b.sender, |b.blocks|) <= others
    requires SdesSizeWithExtraItem(b.chunks, |item.data|) <= size && others + size <= b.max
    ensures PutItem(b, item).status == Ok && Total(PutItem(b, item).build) <= others + size
  {
    ExtraItemExact(b.chunks, item);
  }

  lemma ByeStepFits(b: Build, ssrc: uint32, reason: short)
    requires MIN_PACKET_SIZE <= b.max && Total(b) <= 296
    ensures var r := Apply(b, AddBye(Bye([ssrc], reason))); r.status == Ok && Total(r.build) <= 560
  {
    LastAdds(b, Bye([ssrc], reason), App(0, 0, [], []));
  }

  lemma OneChunkSize(ssrc: uint32, item: Item)
    requires |item.data| < 256
    ensures SdesSizeWithExtraItem([Chunk(ssrc, [])], |item.data|) <= 268
  {
    assert [Chunk(ssrc, [])][..0] == [];
    PaddedGrows(ITEM_HEADER_SIZE + |item.data|, 257);
  }

  // ---- Every finished build reads back ----

  ghost predicate AllShort(ps: seq<seq<byte>>) {
    forall i :: 0 <= i < |ps| ==> |ps[i]| <= MAX_PACKET_LENGTH
  }

  lemma {:induction false} ReportsShort(s: Sender, bs: seq<ReportBlock>)
    ensures AllShort(ReportPackets(s, bs))
    decreases |bs|
  {
    if |bs| <= MAX_COUNT {
      ReportKnown(s, bs);
    } else {
      ReportKnown(s, bs[..MAX_COUNT]);
      ReportsShort(Later(s), bs[MAX_COUNT..]);
    }
  }

  lemma {:induction false} AppsShort(apps: seq<App>)
    requires AppsGood(apps)
    ensures AllShort(AppPackets(apps))
  {
    if apps != [] {
      AppHeader(apps[0]);
      AppsShort(apps[1..]);
    }
  }

  lemma {:induction false} ByesShort(byes: seq<Bye>)
    requires ByesGood(byes)
    ensures AllShort(ByePackets(byes))
  {
    if byes != [] {
      ByeHeader(byes[0]);
      ReasonWords(byes[0].reason);
      ByesShort(byes[1..]);
    }
  }

  // No 31 chunks that go into one SDES packet make it longer than 2^16 words.
  predicate GroupsShort(cs: seq<Chunk>)
    decreases |cs|
  {
    if |cs| <= MAX_COUNT then HEADER_SIZE + ChunksSize(cs) <= MAX_PACKET_LENGTH
    else HEADER_SIZE + ChunksSize(cs[..MAX_COUNT]) <= MAX_PACKET_LENGTH && GroupsShort(cs[MAX_COUNT..])
  }

  lemma ShortCons(p: seq<byte>, rest: seq<seq<byte>>)
    ensures AllShort([p] + rest) <==> |p| <= MAX_PACKET_LENGTH && AllShort(rest)
  {
    var ps := [p] + rest;
    assert ps[0] == p && forall i :: 0 <= i < |rest| ==> rest[i] == ps[i + 1];
  }

  lemma {:induction false} SdesShort(cs: seq<Chunk>)
    requires ChunksGood(cs)
    ensures AllShort(SdesPackets(cs)) <==> GroupsShort(cs)
    decreases |cs|
  {
    if cs == [] {
    } else if |cs| <= MAX_COUNT {
      SdesPacketExact(cs);
      assert SdesPackets(cs)[0] == SdesBytes(cs);
    } else {
      SdesPacketExact(cs[..MAX_COUNT]);
      SdesShort(cs[MAX_COUNT..]);
      ShortCons(SdesBytes(cs[..MAX_COUNT]), SdesPackets(cs[MAX_COUNT..]));
    }
  }

  // Chunks that altogether fit one packet are split into packets that do.
  lemma {:induction false} FewChunksShort(cs: seq<Chunk>)
    requires SdesSize(cs) <= MAX_PACKET_LENGTH
    ensures GroupsShort(cs)
    decreases |cs|
  {
    if |cs| > MAX_COUNT {
      SdesSizeStep(cs);
      FewChunksShort(cs[MAX_COUNT..]);
    } else if cs != [] {
      assert Groups(|cs|) == 1;
    }
  }

  lemma ShortAppend(a: seq<seq<byte>>, b: seq<seq<byte>>)
    ensures AllShort(a + b) <==> AllShort(a) && AllShort(b)
  {
    var s := a + b;
    assert forall i :: 0 <= i < |a| ==> a[i] == s[i];
    assert forall i :: 0 <= i < |b| ==> b[i] == s[|a| + i];
  }

  // Only an SDES packet can be too long for its length field.
  lemma PacketsShort(c: Contents)
    requires ContentsOk(c)
    ensures AllShort(Packets(c)) <==> GroupsShort(c.chunks)
  {
    var r, s, a, y := ReportPackets(c.sender, c.blocks), SdesPackets(c.chunks), AppPackets(c.apps), ByePackets(c.byes);
    ReportsShort(c.sender, c.blocks);
    SdesShort(c.chunks);
    AppsShort(c.apps);
    ByesShort(c.byes);
    ShortAppend(r, s);
    ShortAppend(r + s, a);
    ShortAppend(r + s + a, y);
  }

  // The parser cuts the finished packet into exactly the builder's own packets
  // if and only if no group of chunks is too long; nothing else matters.
  lemma ParsesIfGroupsShort(c: Contents)
    requires ContentsOk(c)
    ensures Cut(Flatten(Packets(c)), true) == Some(Packets(c)) <==> GroupsShort(c.chunks)
  {
    BuiltPacketParses(c);
    PacketsShort(c);
  }

  lemma CallSdesSize(b: Build, op: Op)
    requires SdesSize(b.chunks) <= b.max && b.max >= MIN_PACKET_SIZE
    ensures SdesSize(Apply(b, op).build.chunks) <= b.max
  {
    match op
    case AddSource(ssrc) => ExtraSourceExact(b.chunks, ssrc);
    case AddItem(id, data) =>
      if b.chunks != [] && CNAME <= id <= NOTE {
        ExtraItemExact(b.chunks, Item(id, data));
      }
    case AddPrivate(prefix, value) =>
      if b.chunks != [] && |prefix| + 1 + |value| <= 255 {
        ExtraItemExact(b.chunks, Item(PRIV, PrivateData(prefix, value)));
      }
    case _ =>
  }

  lemma {:induction false} RunSdesSize(max: nat, ops: seq<Op>)
    requires OpsOk(ops) && max >= MIN_PACKET_SIZE
    ensures SdesSize(Run(Start(max), ops).chunks) <= max && BuildOk(Run(Start(max), ops))
            && Run(Start(max), ops).max == max
  {
    if ops != [] {
      var front, last := ops[..|ops| - 1], ops[|ops| - 1];
      RunSdesSize(max, front);
      ApplyKeeps(Run(Start(max), front), last);
      CallSdesSize(Run(Start(max), front), last);
    }
  }

  // After any sequence of builder calls the finished packet has the predicted
  // size, and its packets are all of known format and give back everything that
  // was added. It parses into these packets if and only if no group of chunks is
  // too long, so always with a maximum of at most 262144.
  lemma RunRoundTrip(max: nat, ops: seq<Op>)
    requires OpsOk(ops) && MIN_PACKET_SIZE <= max && Run(Start(max), ops).sender.Some?
    ensures var b := Run(Start(max), ops);
            && BuildOk(b)
            && var c := ContentsOf(b);
               && |Flatten(Packets(c))| == Total(b)
               && (Cut(Flatten(Packets(c)), true) == Some(Packets(c)) <==> GroupsShort(b.chunks))
               && (max <= MAX_PACKET_LENGTH ==> GroupsShort(b.chunks))
               && AllSound(Packets(c)) && SenderOfFirst(Packets(c)) == b.sender
               && ReadAll(Packets(c)) == Reading(Norms(b.blocks), b.chunks, b.apps, b.byes)
  {
    var b := Run(Start(max), ops);
    RunSdesSize(max, ops);
    SizeIsExact(b);
    ParsesIfGroupsShort(ContentsOf(b));
    if max <= MAX_PACKET_LENGTH {
      FewChunksShort(b.chunks);
    }
    PacketsReadBack(ContentsOf(b));
    FirstSenderReads(b.sender.value, b.blocks);
    FirstIsReport(ContentsOf(b));
  }

  // ---- Private items ----

  lemma PrivateReads(prefix: short, value: short)
    requires |prefix| + 1 + |value| <= 255
    ensures var item := Item(PRIV, PrivateData(prefix, value));
            ItemOk(item) && PrivPrefix(item) == prefix && PrivValue(item) == value
  {
    var data := PrivateData(prefix, value);
    assert data[1..1 + |prefix|] == prefix && data[1 + |prefix|..] == value;
  }

  // Every chunk of a is still there in b, with at least its items.
  ghost predicate Grows(a: seq<Chunk>, b: seq<Chunk>) {
    |a| <= |b| && forall i :: 0 <= i < |a| ==> a[i].ssrc == b[i].ssrc && a[i].items <= b[i].items
  }

  lemma GrowsOn(a: seq<Chunk>, b: seq<Chunk>, c: seq<Chunk>)
    requires Grows(a, b) && Grows(b, c)
    ensures Grows(a, c)
  {
  }

  lemma CallGrows(b: Build, op: Op)
    ensures Grows(b.chunks, Apply(b, op).build.chunks)
  {
    hide ChunksSize;
  }

  lemma {:induction false} RunGrows(b: Build, ops: seq<Op>)
    ensures Grows(b.chunks, Run(b, ops).chunks)
  {
    if ops != [] {
      RunGrows(b, ops[..|ops| - 1]);
      CallGrows(Run(b, ops[..|ops| - 1]), ops[|ops| - 1]);
      GrowsOn(b.chunks, Run(b, ops[..|ops| - 1]).chunks, Run(b, ops).chunks);
    }
  }

  // The item that an accepted AddPrivate adds, in the chunk and at the place where
  // it adds it.
  lemma PrivateAdded(b: Build, prefix: short, value: short)
    requires Apply(b, AddPrivate(prefix, value)).status == Ok
    ensures var r, i := Apply(b, AddPrivate(prefix, value)).build, |b.chunks| - 1;
            && b.chunks != [] && |r.chunks| == |b.chunks| && |r.chunks[i].items| == |b.chunks[i].items| + 1
            && r.chunks[i].items[|b.chunks[i].items|] == Item(PRIV, PrivateData(prefix, value))
            && |prefix| + 1 + |value| <= 255
  {
  }

  // Item k of chunk i is a private item with this prefix and value.
  ghost predicate HasPrivate(cs: seq<Chunk>, i: nat, k: nat, prefix: seq<byte>, value: seq<byte>) {
    i < |cs| && k < |cs[i].items| && PrivPrefix(cs[i].items[k]) == prefix && PrivValue(cs[i].items[k]) == value
  }

  // Where the next item is added.
  function NextItem(cs: seq<Chunk>): nat
    requires cs != []
  {
    |cs[|cs| - 1].items|
  }

  lemma PrivateStays(b: Build, prefix: short, value: short, more: seq<Op>)
    requires Apply(b, AddPrivate(prefix, value)).status == Ok
    ensures b.chunks != []
    ensures var r := Run(Apply(b, AddPrivate(prefix, value)).build, more);
            && HasPrivate(r.chunks, |b.chunks| - 1, NextItem(b.chunks), prefix, value)
            && r.chunks[|b.chunks| - 1].ssrc == b.chunks[|b.chunks| - 1].ssrc
  {
    PrivateAdded(b, prefix, value);
    PrivateReads(prefix, value);
    CallGrows(b, AddPrivate(prefix, value));
    RunGrows(Apply(b, AddPrivate(prefix, value)).build, more);
  }

  // Whatever calls come before and after: a private item that is accepted is read
  // back from the finished packet, in its chunk and at its place, with its prefix
  // and its value.
  lemma PrivateReadsBack(max: nat, before: seq<Op>, prefix: short, value: short, more: seq<Op>, ops: seq<Op>)
    requires MIN_PACKET_SIZE <= max && OpsOk(ops) && ops == before + [AddPrivate(prefix, value)] + more
    requires Apply(Run(Start(max), before), AddPrivate(prefix, value)).status == Ok && Run(Start(max), ops).sender.Some?
    ensures var was, b := Run(Start(max), before).chunks, Run(Start(max), ops);
            && BuildOk(b) && was != []
            && var read := ReadAll(Packets(ContentsOf(b))).chunks;
               && HasPrivate(read, |was| - 1, NextItem(was), prefix, value)
               && read[|was| - 1].ssrc == was[|was| - 1].ssrc
  {
    RunAppend(Start(max), before, AddPrivate(prefix, value));
    RunConcat(Start(max), before + [AddPrivate(prefix, value)], more);
    PrivateStays(Run(Start(max), before), prefix, value, more);
    RunRoundTrip(max, ops);
  }

  // ---- Inputs at which the gaps show ----

  function BigApp(): App {
    App(0, 1, [0, 0, 0, 0], seq(576, i => 0))
  }

  // The build after a report, after the APP packet, and after the first source.
  function Outgrowing(n: nat): Build {
    Build(600, Some(ReceiverReport(1)), [], if n < 2 then [] else [Chunk(1, [])], if n < 1 then [] else [BigApp()], [])
  }

  lemma OutgrowingReport()
    ensures Apply(Start(600), StartReport(ReceiverReport(1))) == Result(Outgrowing(0), Ok)
  {
  }

  lemma OutgrowingApp()
    ensures OpsOk([AddApp(BigApp())]) && Apply(Outgrowing(0), AddApp(BigApp())) == Result(Outgrowing(1), Ok)
  {
    assert [] + [BigApp()] == [BigApp()] && [BigApp()][..0] == [];
  }

  lemma OutgrowingSource()
    ensures Apply(Outgrowing(1), AddSource(1)) == Result(Outgrowing(2), Ok)
    ensures Total(Outgrowing(2)) == 608
  {
    assert [BigApp()][..0] == [];
    ExtraSourceExact([], 1);
    assert [] + [Chunk(1, [])] == [Chunk(1, [])];
  }

  // A first source that is accepted with too little room: 12 bytes are needed, and
  // 4 are free.
  lemma OutgrownRun()
    ensures var ops := [StartReport(ReceiverReport(1)), AddApp(BigApp()), AddSource(1)];
            && OpsOk(ops) && !NeverTight(Start(600), ops)
            && !Fits(Run(Start(600), ops)) && Total(Run(Start(600), ops)) == 608
  {
    hide Apply, Total, NeverTight;
    var one, two, three := StartReport(ReceiverReport(1)), AddApp(BigApp()), AddSource(1);
    RunAppend(Start(600), [], one);
    RunAppend(Start(600), [one], two);
    RunAppend(Start(600), [one, two], three);
    assert [] + [one] == [one] && [one] + [two] == [one, two] && [one, two] + [three] == [one, two, three];
    OutgrowingReport();
    OutgrowingApp();
    OutgrowingSource();
    assert OpOk([two][0]);
    RunFits(600, [one, two, three]);
  }

  // A chunk of n full items, added one by one.
  function FullItem(): Item {
    Item(CNAME, seq(255, i => 0))
  }

  function FullItems(n: nat): (items: seq<Item>)
    ensures |items| == n && forall i :: 0 <= i < n ==> items[i] == FullItem()
  {
    seq(n, i => FullItem())
  }

  lemma {:induction false} FullItemsSize(n: nat)
    ensures ItemsSize(FullItems(n)) == 257 * n
  {
    if n > 0 {
      assert FullItems(n)[1..] == FullItems(n - 1);
      FullItemsSize(n - 1);
    }
  }

  function FullCalls(n: nat): (ops: seq<Op>)
    ensures |ops| == n && forall i :: 0 <= i < n ==> ops[i] == AddItem(CNAME, FullItem().data)
  {
    seq(n, i => AddItem(CNAME, FullItem().data))
  }

  lemma FullCallAccepted(b: Build, n: nat)
    requires b == Build(300000, Some(ReceiverReport(1)), [], [Chunk(1, FullItems(n))], [], []) && n < 1030
    ensures Apply(b, AddItem(CNAME, FullItem().data)).build == b.(chunks := [Chunk(1, FullItems(n + 1))])
  {
    FullItemsSize(n);
    assert b.chunks[..0] == [];
    assert SdesSizeWithExtraItem(b.chunks, 255) == PaddedChunkSize(257 * n + 257) + HEADER_SIZE;
    assert FullItems(n) + [FullItem()] == FullItems(n + 1);
    assert WithItem(b.chunks, FullItem()) == [Chunk(1, FullItems(n + 1))];
  }

  lemma {:induction false} FullRun(n: nat)
    requires n <= 1030
    ensures Run(AfterSource(300000, ReceiverReport(1), 1), FullCalls(n)) ==
              Build(300000, Some(ReceiverReport(1)), [], [Chunk(1, FullItems(n))], [], [])
  {
    if n == 0 {
      assert FullItems(0) == [];
    } else {
      FullRun(n - 1);
      assert FullCalls(n)[..n - 1] == FullCalls(n - 1);
      FullCallAccepted(Run(AfterSource(300000, ReceiverReport(1), 1), FullCalls(n - 1)), n - 1);
    }
  }

  function OverlongCalls(): seq<Op> {
    [StartReport(ReceiverReport(1)), AddSource(1)] + FullCalls(1020)
  }

  lemma FullBuild(max: nat, s: Sender, n: nat, first: seq<Op>)
    requires max == 300000 && s == ReceiverReport(1) && n <= 1030 && first == [StartReport(s), AddSource(1)]
    ensures OpsOk(first + FullCalls(n)) && Fits(Run(Start(max), first + FullCalls(n)))
    ensures Run(Start(max), first + FullCalls(n)) == Build(max, Some(s), [], [Chunk(1, FullItems(n))], [], [])
  {
    TwoCalls(max, s, 1);
    RunConcat(Start(max), first, FullCalls(n));
    FullRun(n);
    NextPacketFits(max, s, 1, FullCalls(n));
  }

  lemma OverlongBuild()
    ensures OpsOk(OverlongCalls()) && Fits(Run(Start(300000), OverlongCalls()))
    ensures Run(Start(300000), OverlongCalls()) ==
              Build(300000, Some(ReceiverReport(1)), [], [Chunk(1, FullItems(1020))], [], [])
  {
    FullBuild(300000, ReceiverReport(1), 1020, [StartReport(ReceiverReport(1)), AddSource(1)]);
  }

  lemma OneLongChunk(cs: seq<Chunk>)
    requires cs == [Chunk(1, FullItems(1020))]
    ensures !GroupsShort(cs)
  {
    FullItemsSize(1020);
    assert cs[..0] == [];
    assert ChunksSize(cs) == PaddedChunkSize(257 * 1020);
  }

  // A chunk of 1020 full items makes an SDES packet of 262152 bytes. Every call is
  // accepted with a maximum of 300000, and the finished packet does not parse into
  // the packets that were built.
  lemma OverlongRun()
    ensures var b := Run(Start(300000), OverlongCalls());
            && OpsOk(OverlongCalls()) && Fits(b) && BuildOk(b) && b.sender.Some? && !GroupsShort(b.chunks)
            && Cut(Flatten(Packets(ContentsOf(b))), true) != Some(Packets(ContentsOf(b)))
  {
    OverlongBuild();
    OneLongChunk(Run(Start(300000), OverlongCalls()).chunks);
    RunRoundTrip(300000, OverlongCalls());
  }
}
