// What the packets of a session carry: every next packet is as full as it can be,
// and the packets of an SDES round carry its items once each.
module NextPackets {
  import opened Types
  import opened RtcpPackets
  import opened SdesPacket
  import opened RtcpEncoding
  import opened RoundTrip
  import opened BuildModel
  import opened BuildCalls
  import opened PacketBuilder

  // ---- Filling up ----

  // The packet with the CNAME, these items after it, and these report blocks.
  function With(max: nat, s: Sender, cname: short, blocks: seq<ReportBlock>, items: seq<Item>): Build {
    Build(max, Some(s), blocks, [Chunk(s.ssrc, [Item(CNAME, cname)] + items)], [], [])
  }

  // The call that was refused was refused.
  lemma {:induction false} FillStops(b: Build, ops: seq<Op>)
    ensures var f := Fill(b, ops);
            f.count < |ops| ==> Apply(f.build, ops[f.count]).status != Ok
    decreases |ops|
  {
    hide Apply;
    if ops != [] && Apply(b, ops[0]).status == Ok {
      FillStops(Apply(b, ops[0]).build, ops[1..]);
    }
  }

  // Packets that are being filled: within their maximum, after the report and the
  // CNAME.
  ghost predicate Filling(b: Build, s: Sender, cname: short, items: seq<Item>) {
    && MIN_PACKET_SIZE <= b.max < SIZE_MODULUS && b == With(b.max, s, cname, b.blocks, items)
    && BuildOk(b) && Fits(b)
  }

  lemma FillsBlocks(b: Build, s: Sender, cname: short, items: seq<Item>, bs: seq<ReportBlock>)
    requires Filling(b, s, cname, items)
    ensures var f := Fill(b, BlockOps(bs));
            && Filling(f.build, s, cname, items) && f.build == With(b.max, s, cname, b.blocks + bs[..f.count], items)
            && (f.count < |bs| ==> !Fits(With(b.max, s, cname, b.blocks + bs[..f.count + 1], items)))
  {
    hide Fill, Fits, BuildOk, Apply;
    var f := Fill(b, BlockOps(bs));
    BlocksOpen(b, s.ssrc, [Item(CNAME, cname)] + items, bs);
    if f.count < |bs| {
      FillStops(b, BlockOps(bs));
      BlockAccepted(f.build, bs[f.count]);
      assert b.blocks + bs[..f.count] + [bs[f.count]] == b.blocks + bs[..f.count + 1];
    }
  }

  lemma FillsItems(b: Build, s: Sender, cname: short, items: seq<Item>)
    requires Filling(b, s, cname, []) && NormalItems(items)
    ensures var f := Fill(b, ItemOps(items));
            && Filling(f.build, s, cname, items[..f.count])
            && f.build == With(b.max, s, cname, b.blocks, items[..f.count])
            && (f.count < |items| ==> !Fits(With(b.max, s, cname, b.blocks, items[..f.count + 1])))
  {
    hide Fill, Fits, BuildOk, Apply;
    var f, cn := Fill(b, ItemOps(items)), [Item(CNAME, cname)];
    assert cn + [] == cn;
    ItemsOpen(b, s.ssrc, cn, items);
    ItemsFilled(b, s.ssrc, cn, items);
    if f.count < |items| {
      var x := items[f.count];
      assert NormalItem(x) && x == Item(x.id, x.data);
      FillStops(b, ItemOps(items));
      ItemRefused(f.build, x);
      assert cn + items[..f.count] + [x] == cn + items[..f.count + 1];
    }
  }

  lemma FillingFits(b: Build, s: Sender, cname: short, items: seq<Item>)
    requires Filling(b, s, cname, items)
    ensures Fits(b)
  {
  }

  lemma ItemRefused(b: Build, item: Item)
    requires NormalItem(item) && |b.chunks| == 1 && Apply(b, AddItem(item.id, item.data)).status != Ok
    ensures !Fits(b.(chunks := [Chunk(b.chunks[0].ssrc, b.chunks[0].items + [item])]))
  {
    hide Fits;
    ItemAccepted(b, Item(item.id, item.data));
    assert ExtendLast(b.chunks, item) == [Chunk(b.chunks[0].ssrc, b.chunks[0].items + [item])];
  }

  // ---- The next packet ----

  // The items of a packet after its CNAME.
  function ItemsIn(b: Build): seq<Item> {
    if b.chunks == [] || b.chunks[0].items == [] then [] else b.chunks[0].items[1..]
  }

  // Items first, and blocks if all of the items fit: both as many as fit, in order,
  // and the items that do not fit are pending.
  ghost predicate FullSdes(n: Next, max: nat, s: Sender, cname: short, before: seq<ReportBlock>, items: seq<Item>,
                           bs: seq<ReportBlock>)
  {
    var i, k := |ItemsIn(n.build)|, |n.build.blocks| - |before|;
    && i <= |items| && 0 <= k <= |bs| && (i < |items| ==> k == 0)
    && n.build == With(max, s, cname, before + bs[..k], items[..i]) && Fits(n.build)
    && n.round == Round(i < |items|, items[i..])
    && (i < |items| ==> !Fits(With(max, s, cname, before, items[..i + 1])))
    && (i == |items| && k < |bs| ==> !Fits(With(max, s, cname, before + bs[..k + 1], items)))
  }

  lemma ItemsOfWith(max: nat, s: Sender, cname: short, blocks: seq<ReportBlock>, items: seq<Item>)
    ensures var b := With(max, s, cname, blocks, items); ItemsIn(b) == items && b.blocks == blocks && b.max == max
  {
  }

  // Full for want of room for the next item.
  lemma FullOfItems(b: Build, s: Sender, cname: short, before: seq<ReportBlock>, items: seq<Item>, bs: seq<ReportBlock>,
                    i: nat)
    requires i < |items| && b == With(b.max, s, cname, before, items[..i]) && Fits(b)
    requires !Fits(With(b.max, s, cname, before, items[..i + 1]))
    ensures FullSdes(Next(b, Round(true, items[i..])), b.max, s, cname, before, items, bs)
  {
    hide Fits, ItemsIn, With;
    ItemsOfWith(b.max, s, cname, before, items[..i]);
    assert before + bs[..0] == before;
  }

  // Full of blocks, or of all there is.
  lemma FullOfBlocks(b: Build, s: Sender, cname: short, before: seq<ReportBlock>, items: seq<Item>,
                     bs: seq<ReportBlock>, k: nat)
    requires k <= |bs| && b == With(b.max, s, cname, before + bs[..k], items) && Fits(b)
    requires k < |bs| ==> !Fits(With(b.max, s, cname, before + bs[..k + 1], items))
    ensures FullSdes(Next(b, Round(false, [])), b.max, s, cname, before, items, bs)
  {
    hide Fits, ItemsIn, With;
    ItemsOfWith(b.max, s, cname, before + bs[..k], items);
    assert items[..|items|] == items && items[|items|..] == [];
  }

  lemma SdesIsFull(b: Build, s: Sender, cname: short, items: seq<Item>, bs: seq<ReportBlock>)
    requires Filling(b, s, cname, []) && NormalItems(items)
    ensures FullSdes(SdesStep(b, items, bs), b.max, s, cname, b.blocks, items, bs)
    ensures |ItemsIn(SdesStep(b, items, bs).build)| == Fill(b, ItemOps(items)).count
  {
    hide Fill, Fits, BuildOk, Filling, FullSdes, With, ItemsIn;
    var f := Fill(b, ItemOps(items));
    FillsItems(b, s, cname, items);
    ItemsOfWith(b.max, s, cname, b.blocks, items[..f.count]);
    FillingFits(f.build, s, cname, items[..f.count]);
    if f.count < |items| {
      FullOfItems(f.build, s, cname, b.blocks, items, bs, f.count);
    } else {
      assert items[..f.count] == items;
      var g := Fill(f.build, BlockOps(bs));
      FillsBlocks(f.build, s, cname, items, bs);
      FillingFits(g.build, s, cname, items);
      ItemsOfWith(b.max, s, cname, b.blocks + bs[..g.count], items);
      FullOfBlocks(g.build, s, cname, b.blocks, items, bs, g.count);
    }
  }

  lemma FirstIsFilling(max: nat, s: Sender, cname: short)
    requires MIN_PACKET_SIZE <= max < SIZE_MODULUS
    ensures Filling(FirstPart(max, s, cname), s, cname, []) && FirstPart(max, s, cname).blocks == []
    ensures FirstPart(max, s, cname).max == max
  {
    FirstPartIs(max, s, cname);
    assert [Item(CNAME, cname)] + [] == [Item(CNAME, cname)];
  }

  // In a round, the next packet carries the pending items up to the first that does
  // not fit, at least one; and if all of them fit, the blocks offered up to the
  // first that does not fit.
  lemma RoundPacketIsFull(max: nat, s: Sender, cname: short, r: Round, offered: seq<ReportBlock>,
                          again: seq<ReportBlock>, due: seq<Item>)
    requires MIN_PACKET_SIZE <= max < SIZE_MODULUS && RoundOk(r) && r.processingsdes && NormalItems(due)
    ensures var n := NextBuild(FirstPart(max, s, cname), r, offered, again, due);
            FullSdes(n, max, s, cname, [], r.pending, offered) && ItemsIn(n.build) != []
  {
    hide Fill, FirstPart, Filling, FullSdes, Apply, NormalItem, ItemsIn;
    var first := FirstPart(max, s, cname);
    FirstIsFilling(max, s, cname);
    assert NormalItem(r.pending[0]);
    AlwaysRoom(max, s, cname, ReportBlock(0, 0, 0, 0, 0, 0, 0), r.pending[0]);
    FillStarts(first, ItemOps(r.pending));
    SdesIsFull(first, s, cname, r.pending, offered);
  }

  // Outside a round, it carries the blocks offered up to the first that does not
  // fit, at least one if there is one. If all of them fit, the items that are due
  // and the blocks offered again follow in the same way.
  lemma ReportPacketIsFull(max: nat, s: Sender, cname: short, r: Round, offered: seq<ReportBlock>,
                           again: seq<ReportBlock>, due: seq<Item>)
    requires MIN_PACKET_SIZE <= max < SIZE_MODULUS && RoundOk(r) && !r.processingsdes && NormalItems(due)
    ensures var n := NextBuild(FirstPart(max, s, cname), r, offered, again, due);
            var k := |n.build.blocks|;
            && (offered != [] ==> k > 0)
            && (k < |offered| ==>
                  && n == Next(With(max, s, cname, offered[..k], []), r) && Fits(n.build)
                  && !Fits(With(max, s, cname, offered[..k + 1], [])))
            && (k >= |offered| ==> FullSdes(n, max, s, cname, offered, due, again))
  {
    hide Fill, FirstPart, Filling, FullSdes, Apply, Fits;
    var first := FirstPart(max, s, cname);
    FirstIsFilling(max, s, cname);
    FillsBlocks(first, s, cname, [], offered);
    var f := Fill(first, BlockOps(offered));
    assert [] + offered[..f.count] == offered[..f.count];
    if offered != [] {
      AlwaysRoom(max, s, cname, offered[0], Item(CNAME, []));
      FillStarts(first, BlockOps(offered));
    }
    if f.count < |offered| {
      assert [] + offered[..f.count + 1] == offered[..f.count + 1];
      FillingFits(f.build, s, cname, []);
    } else {
      assert offered[..f.count] == offered;
      SdesIsFull(f.build, s, cname, due, again);
      FullKeepsBefore(SdesStep(f.build, due, again), max, s, cname, offered, due, again);
    }
  }

  lemma FullKeepsBefore(n: Next, max: nat, s: Sender, cname: short, before: seq<ReportBlock>, items: seq<Item>,
                        bs: seq<ReportBlock>)
    requires FullSdes(n, max, s, cname, before, items, bs)
    ensures |n.build.blocks| >= |before|
  {
  }

  // ---- A round ----

  // The packets of a session until the round is over: what each is built from.
  datatype Turn = Turn(s: Sender, offered: seq<ReportBlock>, again: seq<ReportBlock>, due: seq<Item>)

  ghost predicate TurnsOk(turns: seq<Turn>) {
    forall i :: 0 <= i < |turns| ==> NormalItems(turns[i].due)
  }

  function TurnPacket(max: nat, cname: short, r: Round, t: Turn): Next
    requires RoundOk(r) && NormalItems(t.due)
  {
    NextBuild(FirstPart(max, t.s, cname), r, t.offered, t.again, t.due)
  }

  // The items the packets carry, in order, until the round is over.
  function Carried(max: nat, cname: short, r: Round, turns: seq<Turn>): seq<Item>
    requires RoundOk(r) && TurnsOk(turns)
    decreases |turns|
  {
    if turns == [] || !r.processingsdes then []
    else
      var n := TurnPacket(max, cname, r, turns[0]);
      if RoundOk(n.round) then ItemsIn(n.build) + Carried(max, cname, n.round, turns[1..]) else []
  }

  function RoundAfter(max: nat, cname: short, r: Round, turns: seq<Turn>): Round
    requires RoundOk(r) && TurnsOk(turns)
    decreases |turns|
  {
    if turns == [] || !r.processingsdes then r
    else
      var n := TurnPacket(max, cname, r, turns[0]);
      if RoundOk(n.round) then RoundAfter(max, cname, n.round, turns[1..]) else n.round
  }

  lemma TurnCarries(max: nat, cname: short, r: Round, t: Turn)
    requires MIN_PACKET_SIZE <= max < SIZE_MODULUS && RoundOk(r) && r.processingsdes && NormalItems(t.due)
    ensures var n := TurnPacket(max, cname, r, t);
            RoundOk(n.round) && ItemsIn(n.build) != [] && ItemsIn(n.build) + n.round.pending == r.pending
  {
    hide NextBuild, Fits;
    RoundPacketIsFull(max, t.s, cname, r, t.offered, t.again, t.due);
    var n := TurnPacket(max, cname, r, t);
    var i := |ItemsIn(n.build)|;
    assert ItemsIn(n.build) == r.pending[..i];
    assert forall j :: 0 <= j < |r.pending[i..]| ==> r.pending[i..][j] == r.pending[i + j];
  }

  // The packets of a round carry its items exactly once each and in order, whatever
  // else happens between them, and the round is over after at most as many packets
  // as it has items.
  lemma {:induction false} RoundIsSent(max: nat, cname: short, r: Round, turns: seq<Turn>)
    requires MIN_PACKET_SIZE <= max < SIZE_MODULUS && RoundOk(r) && TurnsOk(turns)
    ensures var q := RoundAfter(max, cname, r, turns);
            && RoundOk(q) && Carried(max, cname, r, turns) + q.pending == r.pending
            && (|turns| >= |r.pending| ==> q == Round(false, []) && Carried(max, cname, r, turns) == r.pending)
    decreases |turns|
  {
    hide TurnPacket, ItemsIn, NormalItems;
    if turns != [] && r.processingsdes {
      var n := TurnPacket(max, cname, r, turns[0]);
      TurnCarries(max, cname, r, turns[0]);
      RoundIsSent(max, cname, n.round, turns[1..]);
    }
  }

  // ---- What is read from them ----

  // The next packet, read back: its sender, its one chunk, and its blocks.
  lemma NextPacketReads(max: nat, s: Sender, cname: short, r: Round, offered: seq<ReportBlock>,
                        again: seq<ReportBlock>, due: seq<Item>)
    requires MIN_PACKET_SIZE <= max <= MAX_PACKET_LENGTH && RoundOk(r) && NormalItems(due)
    ensures var b := NextBuild(FirstPart(max, s, cname), r, offered, again, due).build;
            && BuildOk(b) && b.sender.Some?
            && var ps := Packets(ContentsOf(b));
               && |Flatten(ps)| <= max && Cut(Flatten(ps), true) == Some(ps) && AllSound(ps)
               && SenderOfFirst(ps) == Some(s)
               && ReadAll(ps) == Reading(Norms(b.blocks), [Chunk(s.ssrc, [Item(CNAME, cname)] + ItemsIn(b))], [], [])
  {
    hide Fill, NextBuild, Cut, ReadAll, AllSound, SenderOfFirst, Packets, Flatten;
    var n := NextBuild(FirstPart(max, s, cname), r, offered, again, due);
    NextBuildFollows(max, s, cname, r, offered, again, due);
    FittingReadsBack(n.build);
    SizeIsExact(n.build);
  }

  // The BYE packet, read back: the own CNAME, and one BYE with the own SSRC and at
  // most the first 255 bytes of the reason.
  lemma ByePacketReads(max: nat, s: Sender, cname: short, reason: seq<byte>)
    requires MIN_PACKET_SIZE <= max <= MAX_PACKET_LENGTH
    ensures var r := ByeResult(max, s, cname, reason);
            && r.status == Ok && BuildOk(r.build) && r.build.sender.Some?
            && var ps := Packets(ContentsOf(r.build));
               && |Flatten(ps)| <= 560 && Cut(Flatten(ps), true) == Some(ps) && AllSound(ps)
               && SenderOfFirst(ps) == Some(s)
               && exists said: seq<byte> :: said <= reason && |said| == Least(255, |reason|) && ReadAll(ps) ==
                    Reading([], [Chunk(s.ssrc, [Item(CNAME, cname)])], [], [Bye([s.ssrc], said)])
  {
    hide Cut, ReadAll, AllSound, SenderOfFirst, Packets, Flatten;
    ByeAlwaysFits(max, s, cname, reason);
    var r := ByeResult(max, s, cname, reason);
    FittingReadsBack(r.build);
    SizeIsExact(r.build);
    assert CutTo255(reason) <= reason;
  }

  function Least(a: int, b: int): int {
    if a < b then a else b
  }
}
