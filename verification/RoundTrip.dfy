// A whole compound packet: its packets, their exact sizes, and the round trip
// through the parser.
module RoundTrip {
  import opened Types
  import opened RtcpPackets
  import opened SdesPacket
  import opened RtcpEncoding
  import CompoundPacket

  // What a build has collected.
  datatype Contents = Contents(
    sender: Sender,
    blocks: seq<ReportBlock>,
    chunks: seq<Chunk>,
    apps: seq<App>,
    byes: seq<Bye>)

  predicate ChunksGood(cs: seq<Chunk>) {
    forall i :: 0 <= i < |cs| ==> ChunkOk(cs[i])
  }

  predicate AppsGood(apps: seq<App>) {
    forall i :: 0 <= i < |apps| ==> AppOk(apps[i])
  }

  predicate ByesGood(byes: seq<Bye>) {
    forall i :: 0 <= i < |byes| ==> ByeOk(byes[i])
  }

  predicate ContentsOk(c: Contents) {
    ChunksGood(c.chunks) && AppsGood(c.apps) && ByesGood(c.byes)
  }

  function AppPackets(apps: seq<App>): seq<seq<byte>>
    requires AppsGood(apps)
  {
    if apps == [] then [] else [AppBytes(apps[0])] + AppPackets(apps[1..])
  }

  function ByePackets(byes: seq<Bye>): seq<seq<byte>>
    requires ByesGood(byes)
  {
    if byes == [] then [] else [ByeBytes(byes[0])] + ByePackets(byes[1..])
  }

  function Packets(c: Contents): seq<seq<byte>>
    requires ContentsOk(c)
  {
    ReportPackets(c.sender, c.blocks) + SdesPackets(c.chunks) + AppPackets(c.apps) + ByePackets(c.byes)
  }

  // ---- Reading a compound packet back ----

  datatype Reading = Reading(blocks: seq<ReportBlock>, chunks: seq<Chunk>, apps: seq<App>, byes: seq<Bye>)

  function Join(a: Reading, b: Reading): Reading {
    Reading(a.blocks + b.blocks, a.chunks + b.chunks, a.apps + b.apps, a.byes + b.byes)
  }

  // What the accessors of one packet of known format give.
  function ReadPacket(p: seq<byte>): Reading {
    if |p| < HEADER_SIZE then Reading([], [], [], [])
    else if (PacketType(p) == SR || PacketType(p) == RR) && KnownReport(p) then Reading(BlocksOf(p), [], [], [])
    else if PacketType(p) == SDES && KnownSdes(p) then Reading([], ChunksOf(p), [], [])
    else if PacketType(p) == APP && KnownApp(p) then Reading([], [], [AppOf(p)], [])
    else if PacketType(p) == BYE && KnownBye(p) then Reading([], [], [], [ByeOf(p)])
    else Reading([], [], [], [])
  }

  function ReadAll(ps: seq<seq<byte>>): Reading {
    if ps == [] then Reading([], [], [], []) else Join(ReadPacket(ps[0]), ReadAll(ps[1..]))
  }

  // Each packet is honest but for its length field, which is right only up to
  // 2^16 words, and of known format.
  ghost predicate Sound(p: seq<byte>) {
    && |p| >= HEADER_SIZE && CompoundPacket.Known(p)
    && (PacketOk(p, false, false) <==> |p| <= MAX_PACKET_LENGTH)
  }

  ghost predicate AllSound(ps: seq<seq<byte>>) {
    forall i :: 0 <= i < |ps| ==> Sound(ps[i])
  }

  lemma {:induction false} ReadAllAppend(a: seq<seq<byte>>, b: seq<seq<byte>>)
    ensures ReadAll(a + b) == Join(ReadAll(a), ReadAll(b))
  {
    if a == [] {
      assert a + b == b;
    } else {
      assert (a + b)[0] == a[0] && (a + b)[1..] == a[1..] + b;
      ReadAllAppend(a[1..], b);
      JoinAssoc(ReadPacket(a[0]), ReadAll(a[1..]), ReadAll(b));
    }
  }

  lemma JoinAssoc(a: Reading, b: Reading, c: Reading)
    ensures Join(Join(a, b), c) == Join(a, Join(b, c))
  {
    assert (a.blocks + b.blocks) + c.blocks == a.blocks + (b.blocks + c.blocks);
    assert (a.chunks + b.chunks) + c.chunks == a.chunks + (b.chunks + c.chunks);
    assert (a.apps + b.apps) + c.apps == a.apps + (b.apps + c.apps);
    assert (a.byes + b.byes) + c.byes == a.byes + (b.byes + c.byes);
  }

  lemma ReportSound(s: Sender, bs: seq<ReportBlock>)
    requires |bs| <= MAX_COUNT
    ensures Sound(ReportPacket(s, bs)) && ReadPacket(ReportPacket(s, bs)) == Reading(Norms(bs), [], [], [])
  {
    ReportKnown(s, bs);
    ReportReads(s, bs);
  }

  lemma JoinBlocks(a: seq<ReportBlock>, b: seq<ReportBlock>, all: seq<ReportBlock>)
    requires all == a + b
    ensures Join(Reading(Norms(a), [], [], []), Reading(Norms(b), [], [], [])) == Reading(Norms(all), [], [], [])
  {
    assert Norms(all) == Norms(a) + Norms(b);
  }

  lemma {:induction false} ReportsRead(s: Sender, bs: seq<ReportBlock>)
    ensures AllSound(ReportPackets(s, bs)) && ReadAll(ReportPackets(s, bs)) == Reading(Norms(bs), [], [], [])
    decreases |bs|
  {
    hide ReportPacket, ReadPacket, Sound, Norms, Join;
    if |bs| <= MAX_COUNT {
      ReportSound(s, bs);
      ReadOne(ReportPacket(s, bs));
    } else {
      var head, tail := bs[..MAX_COUNT], bs[MAX_COUNT..];
      ReportSound(s, head);
      ReportsRead(Later(s), tail);
      ReadCons(ReportPacket(s, head), ReportPackets(Later(s), tail));
      JoinBlocks(head, tail, bs);
    }
  }

  lemma FirstSenderReads(s: Sender, bs: seq<ReportBlock>)
    ensures SenderOfFirst(ReportPackets(s, bs)) == Some(s)
  {
    ReportReads(s, if |bs| <= MAX_COUNT then bs else bs[..MAX_COUNT]);
  }

  // The sender that the first packet names.
  function SenderOfFirst(ps: seq<seq<byte>>): Option<Sender> {
    if ps != [] && KnownReport(ps[0]) then Some(SenderOf(ps[0])) else None
  }

  lemma ReadOne(p: seq<byte>)
    ensures ReadAll([p]) == ReadPacket(p)
  {
    assert [p][1..] == [];
    JoinNothing(ReadPacket(p));
  }

  lemma JoinNothing(a: Reading)
    ensures Join(a, Reading([], [], [], [])) == a && Join(Reading([], [], [], []), a) == a
  {
  }

  lemma ReadCons(p: seq<byte>, rest: seq<seq<byte>>)
    ensures ReadAll([p] + rest) == Join(ReadPacket(p), ReadAll(rest))
    ensures Sound(p) && AllSound(rest) ==> AllSound([p] + rest)
  {
    assert ([p] + rest)[1..] == rest;
  }

  lemma SdesSound(cs: seq<Chunk>)
    requires |cs| <= MAX_COUNT && ChunksGood(cs)
    ensures Sound(SdesBytes(cs)) && ReadPacket(SdesBytes(cs)) == Reading([], cs, [], [])
  {
    SdesHeader(cs);
    SdesReads(cs);
  }

  lemma JoinChunks(a: seq<Chunk>, b: seq<Chunk>, all: seq<Chunk>)
    requires all == a + b
    ensures Join(Reading([], a, [], []), Reading([], b, [], [])) == Reading([], all, [], [])
  {
  }

  lemma {:induction false} SdesRead(cs: seq<Chunk>)
    requires ChunksGood(cs)
    ensures AllSound(SdesPackets(cs)) && ReadAll(SdesPackets(cs)) == Reading([], cs, [], [])
    decreases |cs|
  {
    if cs == [] {
    } else if |cs| <= MAX_COUNT {
      SdesSound(cs);
      ReadOne(SdesBytes(cs));
    } else {
      var head, tail := cs[..MAX_COUNT], cs[MAX_COUNT..];
      SdesSound(head);
      SdesRead(tail);
      ReadCons(SdesBytes(head), SdesPackets(tail));
      JoinChunks(head, tail, cs);
    }
  }

  lemma {:induction false} AppsRead(apps: seq<App>)
    requires AppsGood(apps)
    ensures AllSound(AppPackets(apps)) && ReadAll(AppPackets(apps)) == Reading([], [], apps, [])
  {
    if apps != [] {
      AppHeader(apps[0]);
      AppReads(apps[0]);
      AppsRead(apps[1..]);
      ReadCons(AppBytes(apps[0]), AppPackets(apps[1..]));
      assert [apps[0]] + apps[1..] == apps;
    }
  }

  lemma {:induction false} ByesRead(byes: seq<Bye>)
    requires ByesGood(byes)
    ensures AllSound(ByePackets(byes)) && ReadAll(ByePackets(byes)) == Reading([], [], [], byes)
  {
    if byes != [] {
      ByeHeader(byes[0]);
      ByeReads(byes[0]);
      ByesRead(byes[1..]);
      ReadCons(ByeBytes(byes[0]), ByePackets(byes[1..]));
      assert [byes[0]] + byes[1..] == byes;
    }
  }

  lemma ReadFour(r: seq<seq<byte>>, s: seq<seq<byte>>, a: seq<seq<byte>>, b: seq<seq<byte>>)
    ensures ReadAll(r + s + a + b) == Join(Join(Join(ReadAll(r), ReadAll(s)), ReadAll(a)), ReadAll(b))
  {
    ReadAllAppend(r, s);
    ReadAllAppend(r + s, a);
    ReadAllAppend(r + s + a, b);
  }

  lemma JoinFour(bs: seq<ReportBlock>, cs: seq<Chunk>, apps: seq<App>, byes: seq<Bye>)
    ensures Join(Join(Join(Reading(bs, [], [], []), Reading([], cs, [], [])), Reading([], [], apps, [])),
            Reading([], [], [], byes))
            == Reading(bs, cs, apps, byes)
  {
  }

  lemma SoundAppend(a: seq<seq<byte>>, b: seq<seq<byte>>)
    requires AllSound(a) && AllSound(b)
    ensures AllSound(a + b)
  {
  }

  // All packets of a build are of known format, and together give back, in
  // order, everything that was added; the loss counts come back modulo 2^24.
  lemma PacketsReadBack(c: Contents)
    requires ContentsOk(c)
    ensures AllSound(Packets(c)) && ReadAll(Packets(c)) == Reading(Norms(c.blocks), c.chunks, c.apps, c.byes)
  {
    var r, s, a, b := ReportPackets(c.sender, c.blocks), SdesPackets(c.chunks), AppPackets(c.apps), ByePackets(c.byes);
    ReportsRead(c.sender, c.blocks);
    SdesRead(c.chunks);
    AppsRead(c.apps);
    ByesRead(c.byes);
    SoundAppend(r, s);
    SoundAppend(r + s, a);
    SoundAppend(r + s + a, b);
    ReadFour(r, s, a, b);
    JoinFour(Norms(c.blocks), c.chunks, c.apps, c.byes);
  }

  // The parser cuts the finished packet into exactly the builder's own packets
  // if and only if none of them is longer than 2^16 words.
  lemma BuiltPacketParses(c: Contents)
    requires ContentsOk(c)
    ensures Cut(Flatten(Packets(c)), true) == Some(Packets(c)) <==>
              forall i :: 0 <= i < |Packets(c)| ==> |Packets(c)[i]| <= MAX_PACKET_LENGTH
  {
    var ps := Packets(c);
    PacketsReadBack(c);
    FirstIsReport(c);
    if forall i :: 0 <= i < |ps| ==> |ps[i]| <= MAX_PACKET_LENGTH {
      forall i | 0 <= i < |ps| ensures PacketOk(ps[i], i == 0, i == |ps| - 1) {
        assert Sound(ps[i]);
      }
      FlattenCuts(ps, true);
    }
    if Cut(Flatten(ps), true) == Some(ps) {
      CutTiles(Flatten(ps), true);
      forall i | 0 <= i < |ps| ensures |ps[i]| <= MAX_PACKET_LENGTH {
        assert Sound(ps[i]) && PacketOk(ps[i], i == 0, i == |ps| - 1);
      }
    }
  }

  lemma {:induction false} PartOfWhole(packets: seq<seq<byte>>, i: nat)
    requires i < |packets|
    ensures |packets[i]| <= |Flatten(packets)|
  {
    if i > 0 {
      PartOfWhole(packets[1..], i - 1);
    }
  }

  // Round trip: a finished packet of at most 262144 bytes parses, and reading
  // its packets gives back the sender and everything that was added.
  lemma CompoundRoundTrip(c: Contents)
    requires ContentsOk(c) && |Flatten(Packets(c))| <= MAX_PACKET_LENGTH
    ensures Cut(Flatten(Packets(c)), true) == Some(Packets(c))
    ensures SenderOfFirst(Packets(c)) == Some(c.sender)
    ensures ReadAll(Packets(c)) == Reading(Norms(c.blocks), c.chunks, c.apps, c.byes)
    ensures forall i :: 0 <= i < |Packets(c)| ==> |Packets(c)[i]| >= HEADER_SIZE && CompoundPacket.Known(Packets(c)[i])
  {
    PacketsReadBack(c);
    forall i | 0 <= i < |Packets(c)| ensures |Packets(c)[i]| <= MAX_PACKET_LENGTH {
      PartOfWhole(Packets(c), i);
    }
    BuiltPacketParses(c);
    FirstSenderReads(c.sender, c.blocks);
    FirstIsReport(c);
    forall i | 0 <= i < |Packets(c)| ensures |Packets(c)[i]| >= HEADER_SIZE && CompoundPacket.Known(Packets(c)[i]) {
      assert Sound(Packets(c)[i]);
    }
  }

  lemma FirstIsReport(c: Contents)
    requires ContentsOk(c)
    ensures Packets(c) != [] && |Packets(c)[0]| >= HEADER_SIZE
    ensures PacketType(Packets(c)[0]) == SR || PacketType(Packets(c)[0]) == RR
    ensures ReportPackets(c.sender, c.blocks) != [] && Packets(c)[0] == ReportPackets(c.sender, c.blocks)[0]
  {
    var bs := if |c.blocks| <= MAX_COUNT then c.blocks else c.blocks[..MAX_COUNT];
    ReportKnown(c.sender, bs);
    assert Packets(c)[0] == ReportPackets(c.sender, c.blocks)[0] == ReportPacket(c.sender, bs);
  }
}
