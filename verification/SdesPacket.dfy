// SDES packets: the validating constructor of rtcpsdespacket.cpp and the chunk
// and item iterators of rtcpsdespacket.h (section 6.5 of RFC 3550).
module SdesPacket {
  import opened Types
  import opened Wire
  import opened RtcpPackets

  const ITEM_HEADER_SIZE := 2
  const PRIV := 8

  datatype Item = Item(id: byte, data: seq<byte>)

  datatype Chunk = Chunk(ssrc: uint32, items: seq<Item>)

  // ---- The format ----

  // Where the item list at o ends, just after its zero byte; None if it does
  // not end inside the packet.
  function ItemsEnd(b: seq<byte>, o: nat): (r: Option<nat>)
    requires o <= |b|
    ensures r.Some? ==> o < r.value <= |b|
    decreases |b| - o
  {
    if o == |b| then None
    else if b[o] == 0 then Some(o + 1)
    else if |b| - o < ITEM_HEADER_SIZE || |b| - o - ITEM_HEADER_SIZE < b[o + 1] then None
    else ItemsEnd(b, o + ITEM_HEADER_SIZE + b[o + 1])
  }

  function ItemsAt(b: seq<byte>, o: nat): seq<Item>
    requires o <= |b| && ItemsEnd(b, o).Some?
    decreases |b| - o
  {
    if b[o] == 0 then []
    else
      var next := o + ITEM_HEADER_SIZE + b[o + 1];
      [Item(b[o], b[o + ITEM_HEADER_SIZE..next])] + ItemsAt(b, next)
  }

  lemma NextItem(b: seq<byte>, o: nat)
    requires o <= |b| && ItemsEnd(b, o).Some? && b[o] != 0
    ensures var n := o + ITEM_HEADER_SIZE + b[o + 1];
            && n < |b| && ItemsEnd(b, n).Some? && ItemsAt(b, o) != [] && ItemsAt(b, n) == ItemsAt(b, o)[1..]
            && (ItemsAt(b, n) == [] <==> b[n] == 0)
  {
  }

  function RoundUp(n: nat): (r: nat)
    ensures n <= r < n + 4
  {
    if n % 4 == 0 then n else n + 4 - n % 4
  }

  // Where the chunk at o ends; its size is a multiple of four.
  function ChunkEnd(b: seq<byte>, o: nat): (r: Option<nat>)
    requires o <= |b|
    ensures r.Some? ==> o + 8 <= r.value <= |b| && ItemsEnd(b, o + 4).Some?
  {
    if |b| - o < 8 || ItemsEnd(b, o + 4).None? then None
    else
      var end := o + RoundUp(ItemsEnd(b, o + 4).value - o);
      if end > |b| then None else Some(end)
  }

  // Exactly n chunks lie between offset o and the end.
  predicate ChunksOk(b: seq<byte>, o: nat, n: nat)
    requires o <= |b|
    decreases n
  {
    if n == 0 then o == |b|
    else ChunkEnd(b, o).Some? && ChunksOk(b, ChunkEnd(b, o).value, n - 1)
  }

  function ChunksAt(b: seq<byte>, o: nat, n: nat): (r: seq<Chunk>)
    requires o <= |b| && ChunksOk(b, o, n)
    ensures |r| == n
    decreases n
  {
    if n == 0 then []
    else [Chunk(Get32(b, o), ItemsAt(b, o + 4))] + ChunksAt(b, ChunkEnd(b, o).value, n - 1)
  }

  // The packet without its padding.
  function Body(p: seq<byte>): seq<byte>
    requires |p| >= HEADER_SIZE && Unpadded(p).Some?
  {
    p[..Unpadded(p).value]
  }

  predicate KnownSdes(p: seq<byte>) {
    |p| >= HEADER_SIZE && Unpadded(p).Some? && |Body(p)| >= HEADER_SIZE && ChunksOk(Body(p), HEADER_SIZE, Count(p))
  }

  function ChunksOf(p: seq<byte>): seq<Chunk>
    requires KnownSdes(p)
  {
    ChunksAt(Body(p), HEADER_SIZE, Count(p))
  }

  // The prefix and the value of a PRIV item; both are empty when the prefix
  // length does not fit.
  function PrivPrefix(item: Item): seq<byte> {
    if item.id != PRIV || item.data == [] || item.data[0] > |item.data| - 1 then [] else item.data[1..1 + item.data[0]]
  }

  function PrivValue(item: Item): seq<byte> {
    if item.id != PRIV || item.data == [] || item.data[0] > |item.data| - 1 then [] else item.data[1 + item.data[0]..]
  }

  // ---- The validating walk ----

  // The end of the item list: step over the zero byte and up to the next
  // multiple of four.
  method WalkPadding(chunkoffset: nat, len: nat) returns (ok: bool, offset: nat, left: nat)
    requires len >= 1
    ensures ok == (RoundUp(chunkoffset + 1) - chunkoffset <= len)
    ensures ok ==> offset == RoundUp(chunkoffset + 1) && left == len - (offset - chunkoffset)
  {
    left := len - 1;
    offset := chunkoffset + 1;
    var r := offset % 4;
    if r != 0 {
      var addoffset := 4 - r;
      if addoffset > left {
        return false, offset, left;
      }
      left := left - addoffset;
      offset := offset + addoffset;
    }
    ok := true;
  }

  // The inner loop: walk over the items of the chunk and the zero bytes after
  // them. left counts the bytes that remain.
  method WalkItems(b: seq<byte>, chunk: nat, len: nat) returns (ok: bool, chunkoffset: nat, left: nat)
    requires chunk + 8 <= |b| && len == |b| - chunk - 4
    ensures ok == ChunkEnd(b, chunk).Some?
    ensures ok ==> chunk + chunkoffset == ChunkEnd(b, chunk).value && left == |b| - chunk - chunkoffset
  {
    left := len;
    chunkoffset := 4;
    while true
      invariant chunkoffset >= 4 && chunk + chunkoffset <= |b| && left == |b| - chunk - chunkoffset
      invariant ItemsEnd(b, chunk + 4) == ItemsEnd(b, chunk + chunkoffset)
      decreases left
    {
      if left < 1 {
        return false, chunkoffset, left;
      }
      if b[chunk + chunkoffset] == 0 {
        ok, chunkoffset, left := WalkPadding(chunkoffset, left);
        return;
      }
      if left < ITEM_HEADER_SIZE {
        return false, chunkoffset, left;
      }
      var itemlen: nat := b[chunk + chunkoffset + 1];
      left := left - ITEM_HEADER_SIZE;
      chunkoffset := chunkoffset + ITEM_HEADER_SIZE;
      if itemlen > left {
        return false, chunkoffset, left;
      }
      left := left - itemlen;
      chunkoffset := chunkoffset + itemlen;
    }
  }

  // The outer loop: exactly count chunks up to the end.
  method WalkChunks(b: seq<byte>, count: nat) returns (ok: bool)
    requires |b| >= HEADER_SIZE && count > 0
    ensures ok == ChunksOk(b, HEADER_SIZE, count)
  {
    var ssrccount := count;
    var len: nat := |b| - HEADER_SIZE;
    var chunk: nat := HEADER_SIZE;
    while ssrccount > 0 && len > 0
      invariant chunk <= |b| && len == |b| - chunk
      invariant ChunksOk(b, HEADER_SIZE, count) == ChunksOk(b, chunk, ssrccount)
      decreases ssrccount
    {
      if len < 8 {
        return false;
      }
      var found, chunkoffset, left := WalkItems(b, chunk, len - 4);
      if !found {
        return false;
      }
      len := left;
      ssrccount := ssrccount - 1;
      chunk := chunk + chunkoffset;
    }
    if len > 0 {
      return false;
    }
    if ssrccount > 0 {
      return false;
    }
    ok := true;
  }

  // The constructor's checks.
  method Walk(p: seq<byte>) returns (knownformat: bool)
    requires |p| >= HEADER_SIZE
    ensures knownformat == KnownSdes(p)
  {
    var len: nat := |p|;
    if p[0] / 32 % 2 == 1 {
      var padcount := p[|p| - 1];
      if padcount % 4 != 0 {
        return false;
      }
      if padcount >= len {
        return false;
      }
      len := len - padcount;
    }
    assert Unpadded(p) == Some(len);
    if p[0] % 32 == 0 {
      return len == HEADER_SIZE;
    }
    if len < HEADER_SIZE {
      return false;
    }
    knownformat := WalkChunks(p[..len], p[0] % 32);
  }

  // ---- The packet object ----

  class RTCPSDESPacket {
    const data: seq<byte>
    const knownformat: bool
    var currentchunk: nat    // the offset of the current chunk, or 0 for none
    var curchunknum: nat
    var itemoffset: nat      // the offset of the current item in its chunk

    ghost const body: seq<byte>  // the packet without its padding
    ghost const count: nat

    ghost predicate OnChunk()
      reads this
    {
      && HEADER_SIZE <= currentchunk <= |body| && 1 <= curchunknum <= count
      && ChunksOk(body, currentchunk, count - curchunknum + 1)
    }

    ghost predicate OnItem()
      reads this
    {
      currentchunk + itemoffset <= |body| && ItemsEnd(body, currentchunk + itemoffset).Some?
    }

    ghost predicate Valid()
      reads this
    {
      && HEADER_SIZE <= |data| && |body| <= |data| && body == data[..|body|] && count == data[0] % 32
      && (knownformat ==> HEADER_SIZE <= |body| && ChunksOk(body, HEADER_SIZE, count))
      && (knownformat && currentchunk != 0 ==> OnChunk() && OnItem())
    }

    // All the chunks of a packet of known format.
    ghost function AllChunks(): seq<Chunk>
      requires Valid() && knownformat
      reads this
    {
      ChunksAt(body, HEADER_SIZE, count)
    }

    // The chunks from the current one on, and its items from the current one on.
    ghost function ChunksLeft(): seq<Chunk>
      requires OnChunk()
      reads this
    {
      ChunksAt(body, currentchunk, count - curchunknum + 1)
    }

    ghost function ItemsLeft(): seq<Item>
      requires OnItem()
      reads this
    {
      ItemsAt(body, currentchunk + itemoffset)
    }

    constructor (packet: seq<byte>)
      requires |packet| >= HEADER_SIZE
      ensures Valid() && data == packet && currentchunk == 0 && knownformat == KnownSdes(packet)
      ensures knownformat ==> AllChunks() == ChunksOf(packet)
    {
      data := packet;
      currentchunk, itemoffset, curchunknum := 0, 0, 0;
      var known := Walk(packet);
      knownformat := known;
      body := if known then Body(packet) else [];
      count := Count(packet);
    }

    // Every read of the packet by the iterators and the accessors goes through
    // these three: its place is inside the unpadded packet.
    function ByteAt(i: nat): byte
      requires i < |body| <= |data|
    {
      data[i]
    }

    function WordAt(i: nat): uint32
      requires i + 4 <= |body| <= |data|
    {
      Get32(data, i)
    }

    function BytesAt(i: nat, j: nat): seq<byte>
      requires i <= j <= |body| <= |data|
    {
      data[i..j]
    }

    function GetChunkCount(): nat
      requires Valid()
      reads this
    {
      if !knownformat then 0 else ByteAt(0) % 32
    }

    method GotoFirstChunk() returns (found: bool)
      requires Valid()
      modifies this
      ensures Valid() && found == (knownformat && AllChunks() != [])
      ensures found ==> currentchunk != 0 && ChunksLeft() == AllChunks() && ItemsLeft() == AllChunks()[0].items
    {
      if GetChunkCount() == 0 {
        currentchunk := 0;
        return false;
      }
      currentchunk := HEADER_SIZE;
      curchunknum := 1;
      itemoffset := 4;
      return true;
    }

    // The search for the end of the current chunk.
    method SkipItems() returns (offset: nat)
      requires Valid() && knownformat && currentchunk != 0
      ensures currentchunk + offset < |body| && ItemsEnd(body, currentchunk + 4) == Some(currentchunk + offset + 1)
    {
      offset := 4;
      while ByteAt(currentchunk + offset) != 0
        invariant 4 <= offset && currentchunk + offset < |body|
        invariant ItemsEnd(body, currentchunk + 4).Some?
        invariant ItemsEnd(body, currentchunk + offset) == ItemsEnd(body, currentchunk + 4)
        decreases |body| - offset
      {
        offset := offset + ITEM_HEADER_SIZE + ByteAt(currentchunk + offset + 1);
      }
    }

    method GotoNextChunk() returns (found: bool)
      requires Valid()
      modifies this
      ensures Valid() && found == (knownformat && currentchunk != 0 && old(curchunknum < count))
      ensures found ==>
                && old(currentchunk != 0) && ChunksLeft() == old(ChunksLeft())[1..]
                && ChunksLeft() != [] && ItemsLeft() == ChunksLeft()[0].items
                && ChunkEnd(body, currentchunk).Some?
      ensures !found ==> currentchunk == old(currentchunk) && curchunknum == old(curchunknum)
    {
      if !knownformat {
        return false;
      }
      if currentchunk == 0 {
        return false;
      }
      if curchunknum == GetChunkCount() {
        return false;
      }
      var offset := SkipItems();
      offset := offset + 1;
      if offset % 4 != 0 {
        offset := offset + 4 - offset % 4;
      }
      EnterNextChunk(offset);
      return true;
    }

    method EnterNextChunk(offset: nat)
      requires Valid() && knownformat && currentchunk != 0 && curchunknum < count
      requires ChunkEnd(body, currentchunk) == Some(currentchunk + offset)
      modifies this
      ensures Valid() && currentchunk != 0 && ChunksLeft() == old(ChunksLeft())[1..]
      ensures ChunksLeft() != [] && ItemsLeft() == ChunksLeft()[0].items
    {
      currentchunk := currentchunk + offset;
      curchunknum := curchunknum + 1;
      itemoffset := 4;
    }

    function GetChunkSSRC(): uint32
      requires Valid()
      reads this
    {
      if !knownformat || currentchunk == 0 then 0 else WordAt(currentchunk)
    }

    method GotoFirstItem() returns (found: bool)
      requires Valid()
      modifies this`itemoffset
      ensures Valid()
      ensures knownformat && currentchunk != 0 ==> ItemsLeft() == ChunksLeft()[0].items && found == (ItemsLeft() != [])
    {
      if !knownformat {
        return false;
      }
      if currentchunk == 0 {
        return false;
      }
      itemoffset := 4;
      if ByteAt(currentchunk + itemoffset) == 0 {
        return false;
      }
      return true;
    }

    method GotoNextItem() returns (found: bool)
      requires Valid()
      modifies this`itemoffset
      ensures Valid()
      ensures found ==>
                && knownformat && currentchunk != 0 && old(ItemsLeft()) != []
                && ItemsLeft() == old(ItemsLeft())[1..] && ItemsLeft() != []
      ensures !found && knownformat && currentchunk != 0 ==> itemoffset == old(itemoffset) && |old(ItemsLeft())| <= 1
    {
      if !knownformat {
        return false;
      }
      if currentchunk == 0 {
        return false;
      }
      if ByteAt(currentchunk + itemoffset) == 0 {
        return false;
      }
      NextItem(body, currentchunk + itemoffset);
      var offset := itemoffset;
      offset := offset + ITEM_HEADER_SIZE;
      offset := offset + ByteAt(currentchunk + itemoffset + 1);
      if ByteAt(currentchunk + offset) == 0 {
        return false;
      }
      itemoffset := offset;
      return true;
    }

    // ---- The current item ----

    function GetItemId(): byte
      requires Valid()
      reads this
    {
      if !knownformat || currentchunk == 0 then 0 else ByteAt(currentchunk + itemoffset)
    }

    function GetItemLength(): nat
      requires Valid()
      reads this
    {
      if !knownformat || currentchunk == 0 || ByteAt(currentchunk + itemoffset) == 0 then 0
      else ByteAt(currentchunk + itemoffset + 1)
    }

    function GetItemData(): seq<byte>
      requires Valid()
      reads this
    {
      if !knownformat || currentchunk == 0 || ByteAt(currentchunk + itemoffset) == 0 then []
      else
        var d := currentchunk + itemoffset + ITEM_HEADER_SIZE;
        BytesAt(d, d + ByteAt(currentchunk + itemoffset + 1))
    }

    function GetPRIVPrefixLength(): nat
      requires Valid()
      reads this
    {
      if !knownformat || currentchunk == 0 then 0
      else
        var hdr := currentchunk + itemoffset;
        if ByteAt(hdr) != PRIV then 0
        else if ByteAt(hdr + 1) == 0 then 0
        else
          var prefixlength := ByteAt(hdr + ITEM_HEADER_SIZE);
          if prefixlength > ByteAt(hdr + 1) - 1 then 0 else prefixlength
    }

    function GetPRIVPrefixData(): seq<byte>
      requires Valid()
      reads this
    {
      if !knownformat || currentchunk == 0 then []
      else
        var hdr := currentchunk + itemoffset;
        if ByteAt(hdr) != PRIV then []
        else if ByteAt(hdr + 1) == 0 then []
        else
          var prefixlength := ByteAt(hdr + ITEM_HEADER_SIZE);
          if prefixlength > ByteAt(hdr + 1) - 1 then []
          else BytesAt(hdr + ITEM_HEADER_SIZE + 1, hdr + ITEM_HEADER_SIZE + 1 + prefixlength)
    }

    function GetPRIVValueLength(): nat
      requires Valid()
      reads this
    {
      if !knownformat || currentchunk == 0 then 0
      else
        var hdr := currentchunk + itemoffset;
        if ByteAt(hdr) != PRIV then 0
        else if ByteAt(hdr + 1) == 0 then 0
        else
          var prefixlength := ByteAt(hdr + ITEM_HEADER_SIZE);
          if prefixlength > ByteAt(hdr + 1) - 1 then 0 else ByteAt(hdr + 1) - prefixlength - 1
    }

    function GetPRIVValueData(): seq<byte>
      requires Valid()
      reads this
    {
      if !knownformat || currentchunk == 0 then []
      else
        var hdr := currentchunk + itemoffset;
        if ByteAt(hdr) != PRIV then []
        else if ByteAt(hdr + 1) == 0 then []
        else
          var prefixlength := ByteAt(hdr + ITEM_HEADER_SIZE);
          if prefixlength > ByteAt(hdr + 1) - 1 then []
          else BytesAt(hdr + ITEM_HEADER_SIZE + 1 + prefixlength, hdr + ITEM_HEADER_SIZE + ByteAt(hdr + 1))
    }

    // The accessors describe the current item, and it ends inside the unpadded
    // packet.
    lemma ItemAccessors()
      requires Valid() && knownformat && currentchunk != 0 && ItemsLeft() != []
      ensures ItemsLeft()[0] == Item(GetItemId(), GetItemData()) && GetItemLength() == |GetItemData()|
      ensures currentchunk + itemoffset + ITEM_HEADER_SIZE + GetItemLength() < |body|
    {
      var item := ItemsLeft()[0];
      var d := currentchunk + itemoffset + ITEM_HEADER_SIZE;
      assert item.data == data[d..d + |item.data|];
    }

    lemma PrivAccessors()
      requires Valid() && knownformat && currentchunk != 0 && ItemsLeft() != []
      ensures GetPRIVPrefixData() == PrivPrefix(ItemsLeft()[0]) && GetPRIVPrefixLength() == |GetPRIVPrefixData()|
      ensures GetPRIVValueData() == PrivValue(ItemsLeft()[0]) && GetPRIVValueLength() == |GetPRIVValueData()|
      ensures GetItemId() == PRIV && PrivPrefix(ItemsLeft()[0]) + PrivValue(ItemsLeft()[0]) != [] ==>
                1 + GetPRIVPrefixLength() + GetPRIVValueLength() == GetItemLength()
    {
      ItemAccessors();
      PrivData(ItemsLeft()[0]);
    }

    ghost predicate PrefixFits()
      requires Valid() && knownformat && currentchunk != 0
      reads this
    {
      var hdr := currentchunk + itemoffset;
      ByteAt(hdr) == PRIV && ByteAt(hdr + 1) > 0 && ByteAt(hdr + ITEM_HEADER_SIZE) <= ByteAt(hdr + 1) - 1
    }

    lemma PrivData(item: Item)
      requires Valid() && knownformat && currentchunk != 0
      requires item == Item(GetItemId(), GetItemData()) && item.id != 0
      ensures GetPRIVPrefixData() == PrivPrefix(item) && GetPRIVPrefixLength() == |GetPRIVPrefixData()|
      ensures GetPRIVValueData() == PrivValue(item) && GetPRIVValueLength() == |GetPRIVValueData()|
      ensures item.id == PRIV && PrivPrefix(item) + PrivValue(item) != [] ==>
                1 + GetPRIVPrefixLength() + GetPRIVValueLength() == GetItemLength()
    {
      if PrefixFits() {
        PrivPresent(item);
      } else {
        PrivAbsent(item);
      }
    }

    lemma PrivPresent(item: Item)
      requires Valid() && knownformat && currentchunk != 0 && PrefixFits()
      requires item == Item(GetItemId(), GetItemData())
      ensures GetPRIVPrefixData() == PrivPrefix(item) && GetPRIVPrefixLength() == |GetPRIVPrefixData()|
      ensures GetPRIVValueData() == PrivValue(item) && GetPRIVValueLength() == |GetPRIVValueData()|
      ensures 1 + GetPRIVPrefixLength() + GetPRIVValueLength() == GetItemLength()
    {
      var d := currentchunk + itemoffset + ITEM_HEADER_SIZE;
      PrivSlices(data, d, d + ByteAt(d - 1), item);
    }

    lemma PrivAbsent(item: Item)
      requires Valid() && knownformat && currentchunk != 0 && !PrefixFits()
      requires item == Item(GetItemId(), GetItemData()) && item.id != 0
      ensures PrivPrefix(item) == PrivValue(item) == GetPRIVPrefixData() == GetPRIVValueData() == []
      ensures GetPRIVPrefixLength() == GetPRIVValueLength() == 0
    {
    }

    static lemma PrivSlices(s: seq<byte>, d: nat, e: nat, item: Item)
      requires d < e <= |s| && item.id == PRIV && item.data == s[d..e] && s[d] <= e - d - 1
      ensures PrivPrefix(item) == s[d + 1..d + 1 + s[d]] && PrivValue(item) == s[d + 1 + s[d]..e]
    {
      var p: nat := s[d];
      assert item.data[0] == p;
      SliceOfSlice(s, d, e, 1, 1 + p);
      SliceOfSlice(s, d, e, 1 + p, e - d);
      assert item.data[1 + p..] == item.data[1 + p..e - d];
    }

    static lemma SliceOfSlice(s: seq<byte>, d: nat, e: nat, i: nat, j: nat)
      requires d <= e <= |s| && i <= j <= e - d
      ensures s[d..e][i..j] == s[d + i..d + j]
    {
      var t := s[d..e];
      assert forall k :: 0 <= k < j - i ==> t[i..j][k] == t[i + k] == s[d + (i + k)];
    }

    // ---- The loops of ProcessRTCPCompoundPacket ----

    // The items of the current chunk.
    method ReadItems() returns (items: seq<Item>)
      requires Valid() && knownformat && currentchunk != 0
      modifies this`itemoffset
      ensures Valid() && items == ChunksLeft()[0].items
    {
      items := [];
      var more := GotoFirstItem();
      while more
        invariant Valid() && items + ItemsLeft() == ChunksLeft()[0].items && more == (ItemsLeft() != [])
        decreases |ItemsLeft()|, more
      {
        ItemAccessors();
        ghost var left := ItemsLeft();
        items := items + [Item(GetItemId(), GetItemData())];
        more := GotoNextItem();
        if !more {
          assert left == [left[0]];
          break;
        }
      }
    }

    method ReadChunk() returns (chunk: Chunk)
      requires Valid() && knownformat && currentchunk != 0
      modifies this`itemoffset
      ensures Valid() && chunk == ChunksLeft()[0]
    {
      hide ItemsAt, ItemsEnd;
      var ssrc := GetChunkSSRC();
      var items := ReadItems();
      chunk := Chunk(ssrc, items);
    }

    // Before each turn of the loop over the chunks: left are the chunks from the
    // current one on, or there are none.
    ghost predicate Reading(chunks: seq<Chunk>, left: seq<Chunk>, more: bool)
      reads this
    {
      && Valid() && knownformat && chunks + left == AllChunks() && more == (left != [])
      && (more ==> currentchunk != 0 && left == ChunksLeft())
    }

    method ReadNextChunk(chunks: seq<Chunk>, ghost left: seq<Chunk>) returns (read: seq<Chunk>, more: bool)
      requires left != [] && Reading(chunks, left, true)
      modifies this
      ensures Reading(read, left[1..], more)
    {
      var chunk := ReadChunk();
      read := chunks + [chunk];
      assert read + left[1..] == chunks + left;
      more := GotoNextChunk();
    }

    // The walk with the iterators enumerates exactly the chunks and items that
    // the constructor validated.
    method ReadChunks() returns (chunks: seq<Chunk>)
      requires Valid() && knownformat
      modifies this
      ensures Valid() && chunks == AllChunks()
    {
      chunks := [];
      ghost var left := AllChunks();
      var more := GotoFirstChunk();
      while more
        invariant Reading(chunks, left, more)
        decreases |left|
      {
        chunks, more := ReadNextChunk(chunks, left);
        left := left[1..];
      }
    }
  }
}
