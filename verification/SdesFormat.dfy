// SDES packets as a grammar: which bytes are a packet of known format, and which
// chunks and items it then has.
module SdesFormat {
  import opened Types
  import Wire
  import opened RtcpPackets
  import opened SdesPacket
  import opened WireFormats

  // ---- Items ----

  lemma {:induction false} StandingItems(b: seq<byte>, o: nat, items: seq<Item>)
    requires ItemsStand(b, o, items)
    ensures o <= |b| && ItemsEnd(b, o) == Some(o + ItemsLength(items) + 1) && ItemsAt(b, o) == items
    decreases |items|
  {
    if items != [] {
      var x, next := items[0], o + 2 + |items[0].data|;
      StandingItems(b, next, items[1..]);
      assert x == Item(b[o], b[o + 2..next]);
      Wire.HeadTail(items);
    }
  }

  lemma {:induction false} ParsedItems(b: seq<byte>, o: nat)
    requires o <= |b| && ItemsEnd(b, o).Some?
    ensures ItemsStand(b, o, ItemsAt(b, o)) && ItemsEnd(b, o).value == o + ItemsLength(ItemsAt(b, o)) + 1
    decreases |b| - o
  {
    if b[o] != 0 {
      var next: nat := o + 2 + b[o + 1];
      ParsedItems(b, next);
      NextItem(b, o);
      FirstItem(b, o, next);
    }
  }

  lemma FirstItem(b: seq<byte>, o: nat, next: nat)
    requires o + 2 <= |b| && ItemsEnd(b, o).Some? && b[o] != 0 && next == o + 2 + b[o + 1]
    ensures next <= |b| && ItemsAt(b, o) != [] && ItemsAt(b, o)[0] == Item(b[o], b[o + 2..next])
  {
  }

  // ---- Chunks ----

  // A chunk ends at a multiple of four from where it starts.
  lemma ChunkEndIs(b: seq<byte>, o: nat, c: Chunk)
    requires o + 8 <= |b| && ItemsStand(b, o + 4, c.items)
    ensures ChunkEnd(b, o) == if o + ChunkLength(c) <= |b| then Some(o + ChunkLength(c)) else None
    ensures ItemsEnd(b, o + 4).Some? && ItemsAt(b, o + 4) == c.items
  {
    StandingItems(b, o + 4, c.items);
    RoundUpIs(ItemsLength(c.items));
  }

  lemma RoundUpIs(n: nat)
    ensures RoundUp(4 + n + 1) == 4 + (n + 4) / 4 * 4
  {
  }

  lemma {:induction false} StandingChunks(b: seq<byte>, o: nat, cs: seq<Chunk>)
    requires ChunksStand(b, o, cs)
    ensures o <= |b| && ChunksOk(b, o, |cs|) && ChunksAt(b, o, |cs|) == cs
    decreases |cs|
  {
    hide ItemsStand, ChunkEnd, ChunkLength, ItemsAt, ItemsEnd;
    if cs != [] {
      var c := cs[0];
      StandingChunks(b, o + ChunkLength(c), cs[1..]);
      ChunkTakesEight(c);
      ChunkEndIs(b, o, c);
      FieldsAreBigEndian(b, o);
      assert c == Chunk(Wire.Get32(b, o), ItemsAt(b, o + 4));
      Wire.HeadTail(cs);
    }
  }

  lemma ChunkTakesEight(c: Chunk)
    ensures ChunkLength(c) >= 8
  {
  }

  lemma {:induction false} ParsedChunks(b: seq<byte>, o: nat, n: nat)
    requires o <= |b| && ChunksOk(b, o, n)
    ensures ChunksStand(b, o, ChunksAt(b, o, n))
    decreases n
  {
    hide ItemsStand, ChunkEnd, ChunkLength, ItemsAt, ItemsEnd;
    if n > 0 {
      var c := Chunk(Wire.Get32(b, o), ItemsAt(b, o + 4));
      ParsedItems(b, o + 4);
      ChunkEndIs(b, o, c);
      FieldsAreBigEndian(b, o);
      var next := ChunkEnd(b, o).value;
      ParsedChunks(b, next, n - 1);
      assert ChunksAt(b, o, n) == [c] + ChunksAt(b, next, n - 1);
      assert ([c] + ChunksAt(b, next, n - 1))[1..] == ChunksAt(b, next, n - 1);
    }
  }

  // ---- Packets ----

  // A packet is an SDES packet of known format with these chunks if and only if, its
  // padding taken off, it consists of the header and of just these chunks, as many
  // as the header counts.
  lemma SdesIff(p: seq<byte>, cs: seq<Chunk>)
    requires |p| >= 4
    ensures KnownSdes(p) && ChunksOf(p) == cs <==>
              4 <= Net(p) <= |p| && |cs| == p[0] % 32 && ChunksStand(p[..Net(p)], 4, cs)
  {
    hide ChunksStand, ChunksOk, ChunksAt, Unpadded;
    NetIs(p);
    NetAtMost(p);
    if KnownSdes(p) && ChunksOf(p) == cs {
      ParsedChunks(Body(p), 4, Count(p));
    }
    if 4 <= Net(p) <= |p| && |cs| == p[0] % 32 && ChunksStand(p[..Net(p)], 4, cs) {
      StandingChunks(p[..Net(p)], 4, cs);
    }
  }

  lemma NetAtMost(p: seq<byte>)
    requires |p| >= 4
    ensures Net(p) <= |p|
  {
  }
}
