// What a run of RTP packets leaves in the queue of a source, and in which order
// the packets are handed out.
module ReorderRuns {
  import opened Types
  import opened SourceState
  import opened Reception

  // A packet of which the sender knows the true 32-bit index; its header carries
  // the low 16 bits.
  datatype Incoming = Incoming(index: uint32, packet: Packet, now: real)
  {
    predicate Honest() {
      packet.extseqnr == index % 0x1_0000
    }

    // The packet with its true index: nothing else is changed.
    function Numbered(): Packet {
      Packet(packet.ssrc, index, packet.csrcs, packet.payload)
    }
  }

  // The source after some packets that the callback leaves to the queue.
  function Receive(src: Source, arrivals: seq<Incoming>): Source
    decreases arrivals
  {
    if arrivals == [] then src
    else Receive(ProcessRtp(src, arrivals[0].packet, arrivals[0].now, false).src, arrivals[1..])
  }

  function Indexed(arrivals: seq<Incoming>): (r: seq<(uint32, real)>)
    ensures |r| == |arrivals|
  {
    seq(|arrivals|, i requires 0 <= i < |arrivals| => (arrivals[i].index, arrivals[i].now))
  }

  // The first arrival for each index not seen before, numbered.
  function FirstOfEach(seen: set<uint32>, arrivals: seq<Incoming>): seq<Packet>
    decreases arrivals
  {
    if arrivals == [] then []
    else if arrivals[0].index in seen then FirstOfEach(seen, arrivals[1..])
    else [arrivals[0].Numbered()] + FirstOfEach(seen + {arrivals[0].index}, arrivals[1..])
  }

  function NumbersOf(q: seq<Packet>): set<uint32> {
    set p | p in q :: p.extseqnr
  }

  // A source that is valid and has received packets.
  ghost predicate Receiving(src: Source) {
    src.validated && src.stats.sentdata && CyclesOk(src.stats) && Increasing(src.packetlist)
  }

  lemma QueuedIsNumber(q: seq<Packet>, n: uint32)
    ensures Queued(q, n) <==> n in NumbersOf(q)
  {
    if n in NumbersOf(q) {
      var p :| p in q && p.extseqnr == n;
      var i :| 0 <= i < |q| && q[i] == p;
      assert q[i].extseqnr == n;
    }
  }

  lemma MembersAfter(q: seq<Packet>, p: Packet, r: seq<Packet>)
    requires multiset(r) == multiset(q) + multiset{p}
    ensures NumbersOf(r) == NumbersOf(q) + {p.extseqnr}
  {
    assert forall x :: x in r <==> x in multiset(r);
    assert forall x :: x in q <==> x in multiset(q);
    assert forall x :: x in r <==> x in q || x == p;
  }

  lemma NumbersAfter(q: seq<Packet>, p: Packet)
    requires Increasing(q)
    ensures NumbersOf(Insert(q, p)) == NumbersOf(q) + {p.extseqnr}
  {
    hide Insert, Queued, Increasing, NumbersOf;
    InsertContents(q, p);
    QueuedIsNumber(q, p.extseqnr);
    if !Queued(q, p.extseqnr) {
      MembersAfter(q, p, Insert(q, p));
    }
  }

  // A packet of a valid source that has received others.
  lemma ReceivedIs(src: Source, p: Packet, now: real)
    requires src.validated && src.stats.sentdata
    ensures var r, o := ProcessRtp(src, p, now, false).src, Extend(src.stats, Wrap16(p.extseqnr), now, src.ownssrc);
            && r.validated && r.stats == o.stats && r.stats.sentdata && r.ownssrc == src.ownssrc
            && r.packetlist == Insert(src.packetlist, p.(extseqnr := o.extseqnr))
  {
    hide Insert, Queued, Cycles;
  }

  lemma HonestNumber(a: Incoming)
    requires a.Honest()
    ensures Wrap16(a.packet.extseqnr) == Wrap16(a.index) && a.Numbered() == a.packet.(extseqnr := a.index)
  {
  }

  // One packet in the window: the queue gets it under its true index, once.
  lemma ReceiveOne(src: Source, a: Incoming)
    requires Receiving(src) && a.Honest()
    requires InWindow(src.stats.exthighseqnr, a.index) || Overflows(src.stats.exthighseqnr, a.index)
    ensures var r := ProcessRtp(src, a.packet, a.now, false).src;
            && Receiving(r) && r.packetlist == Insert(src.packetlist, a.Numbered())
            && r.stats.exthighseqnr == Advance(src.stats.exthighseqnr, a.index)
  {
    hide Insert, InWindow, Overflows, Advance, Queued, ProcessRtp, Increasing, Extend, Cycles, CyclesOk, Wrap16;
    HonestNumber(a);
    ExtendExact(src.stats, a.index, a.now, src.ownssrc);
    ReceivedIs(src, a.packet, a.now);
    InsertIncreasing(src.packetlist, a.Numbered());
  }

  lemma KeptIs(src: Source, p: Packet, now: real)
    requires src.validated && src.stats.sentdata
    ensures var number := Extend(src.stats, Wrap16(p.extseqnr), now, src.ownssrc).extseqnr;
            ProcessRtp(src, p, now, false).stored == !Queued(src.packetlist, number)
    ensures ProcessRtp(src, p, now, true).stored && ProcessRtp(src, p, now, true).src.packetlist == src.packetlist
  {
    hide Insert, Queued, Received, Cycles;
  }

  // The packet is kept if and only if there is none with its index, or the callback
  // takes it, and then it is not queued.
  lemma KeptIff(src: Source, a: Incoming)
    requires Receiving(src) && a.Honest()
    requires InWindow(src.stats.exthighseqnr, a.index) || Overflows(src.stats.exthighseqnr, a.index)
    ensures ProcessRtp(src, a.packet, a.now, false).stored <==> a.index !in NumbersOf(src.packetlist)
    ensures var r := ProcessRtp(src, a.packet, a.now, true); r.stored && r.src.packetlist == src.packetlist
  {
    hide Insert, InWindow, Overflows, Advance, Queued, ProcessRtp, Increasing, Extend, Cycles, CyclesOk, Wrap16;
    HonestNumber(a);
    ExtendExact(src.stats, a.index, a.now, src.ownssrc);
    KeptIs(src, a.packet, a.now);
    QueuedIsNumber(src.packetlist, a.index);
  }

  lemma IndexedTail(arrivals: seq<Incoming>)
    requires arrivals != []
    ensures Indexed(arrivals)[0] == (arrivals[0].index, arrivals[0].now)
    ensures Indexed(arrivals)[1..] == Indexed(arrivals[1..])
  {
  }

  // Over any packets in the window: the queue keeps what it had, and gets exactly
  // the packets that arrived, the first of each index, under their true indices
  // and otherwise as they came.
  lemma {:induction false} QueueHoldsArrivals(src: Source, arrivals: seq<Incoming>)
    requires Receiving(src) && forall i :: 0 <= i < |arrivals| ==> arrivals[i].Honest()
    requires AllInWindow(src.stats.exthighseqnr, Indexed(arrivals))
    ensures var r := Receive(src, arrivals);
            && Receiving(r)
            && multiset(r.packetlist) ==
               multiset(src.packetlist) + multiset(FirstOfEach(NumbersOf(src.packetlist), arrivals))
    decreases arrivals
  {
    if arrivals != [] {
      hide Receiving, ProcessRtp, InWindow, Overflows, Insert;
      var a := arrivals[0];
      IndexedTail(arrivals);
      ReceiveOne(src, a);
      var r := ProcessRtp(src, a.packet, a.now, false).src;
      QueueHoldsArrivals(r, arrivals[1..]);
      FirstStep(src, a, arrivals[1..]);
    }
  }

  lemma FirstStep(src: Source, a: Incoming, rest: seq<Incoming>)
    requires Receiving(src)
    ensures var q, r := src.packetlist, Insert(src.packetlist, a.Numbered());
            multiset(r) + multiset(FirstOfEach(NumbersOf(r), rest)) ==
            multiset(q) + multiset(FirstOfEach(NumbersOf(q), [a] + rest))
  {
    var q, p := src.packetlist, a.Numbered();
    InsertContents(q, p);
    NumbersAfter(q, p);
    QueuedIsNumber(q, p.extseqnr);
    assert ([a] + rest)[1..] == rest;
    if p.extseqnr in NumbersOf(q) {
      assert NumbersOf(q) + {p.extseqnr} == NumbersOf(q);
    }
  }

  // ---- Handing out ----

  // The packets that n calls of GetNextPacket give.
  function HandedOut(src: Source, n: nat): seq<Packet>
    decreases n
  {
    if n == 0 then []
    else
      var r := NextPacket(src);
      (if r.packet.Some? then [r.packet.value] else []) + HandedOut(r.src, n - 1)
  }

  lemma HandOne(src: Source)
    requires src.validated
    ensures var q, r := src.packetlist, NextPacket(src);
            && r.src.validated
            && if q == [] then r.packet.None? && r.src.packetlist == []
               else r.packet == Some(q[0]) && r.src.packetlist == q[1..] && [q[0]] + q[1..] == q
  {
  }

  lemma {:induction false} HandsOutQueue(src: Source, n: nat)
    requires src.validated && n >= |src.packetlist|
    ensures HandedOut(src, n) == src.packetlist
    decreases n
  {
    hide NextPacket;
    if n > 0 {
      HandOne(src);
      HandsOutQueue(NextPacket(src).src, n - 1);
    }
  }

  // The application gets every packet once, in the order of the true indices, with
  // the content it arrived with.
  lemma PacketsComeInOrder(src: Source, arrivals: seq<Incoming>, n: nat)
    requires Receiving(src) && src.packetlist == []
    requires forall i :: 0 <= i < |arrivals| ==> arrivals[i].Honest()
    requires AllInWindow(src.stats.exthighseqnr, Indexed(arrivals)) && n >= |arrivals|
    ensures var out := HandedOut(Receive(src, arrivals), n);
            && multiset(out) == multiset(FirstOfEach({}, arrivals))
            && forall i, j :: 0 <= i < j < |out| ==> out[i].extseqnr < out[j].extseqnr
  {
    QueueHoldsArrivals(src, arrivals);
    assert NumbersOf([]) == {};
    var r := Receive(src, arrivals);
    FirstOfEachLength({}, arrivals);
    assert |r.packetlist| == |multiset(r.packetlist)| == |FirstOfEach({}, arrivals)|;
    HandsOutQueue(r, n);
  }

  lemma {:induction false} FirstOfEachLength(seen: set<uint32>, arrivals: seq<Incoming>)
    ensures |FirstOfEach(seen, arrivals)| <= |arrivals|
    decreases arrivals
  {
    if arrivals != [] {
      if arrivals[0].index in seen {
        FirstOfEachLength(seen, arrivals[1..]);
      } else {
        FirstOfEachLength(seen + {arrivals[0].index}, arrivals[1..]);
      }
    }
  }

  // The packet after number 0xFFFF comes after it, although its header says 0.
  lemma WrapKeepsOrder(src: Source, last: Packet, next: Packet, now: real)
    requires Receiving(src) && src.packetlist == [last]
    requires src.stats.exthighseqnr == last.extseqnr == 0xFFFF && next.extseqnr == 0
    ensures Receive(src, [Incoming(0x1_0000, next, now)]).packetlist == [last, next.(extseqnr := 0x1_0000)]
  {
    var a := Incoming(0x1_0000, next, now);
    ReceiveOne(src, a);
    assert Receive(src, [a]) == ProcessRtp(src, next, now, false).src;
  }

  // ---- Before validation ----

  // The number under which a packet is queued while nothing has been accepted: that
  // of its header, but 0 is lifted by one cycle when it is the first accepted.
  lemma FirstPacketsAreQueued(src: Source, p: Packet, now: real)
    requires !src.validated && !src.stats.sentdata && src.stats.numcycles == 0 && p.extseqnr < 0x1_0000
    requires Increasing(src.packetlist) && |src.packetlist| <= 32
    ensures var r := ProcessRtp(src, p, now, false);
            var number := if r.src.validated && p.extseqnr == 0 then 0x1_0000 else p.extseqnr;
            var before := if |src.packetlist| == 32 && !r.src.validated then src.packetlist[1..] else src.packetlist;
            && (r.src.validated || src.probationtype.ProbationStore? ==>
                  r.src.packetlist == Insert(before, p.(extseqnr := number)))
            && (!r.src.validated && !src.probationtype.ProbationStore? ==>
                  r.src.packetlist == src.packetlist && !r.stored)
  {
    hide Insert, Queued;
  }

  // ---- Counting ----

  lemma ArrivalCounts(src: Source, a: Incoming)
    requires src.validated && src.stats.sentdata
    ensures var r := ProcessRtp(src, a.packet, a.now, false).src;
            && r.validated && r.stats.sentdata && r.ownssrc == src.ownssrc && (!src.ownssrc ==> r.issender)
            && r.stats.packetsreceived == (src.stats.packetsreceived + 1) % 0x1_0000_0000
            && r.stats.numnewpackets == (src.stats.numnewpackets + 1) % 0x1_0000_0000
            && (src.issender ==> r.issender)
  {
    hide Insert, Queued;
  }

  // Every accepted packet is counted, and makes its source a sender.
  lemma {:induction false} ArrivalsAreCounted(src: Source, arrivals: seq<Incoming>)
    requires src.validated && src.stats.sentdata
    ensures var r := Receive(src, arrivals);
            && r.stats.packetsreceived == (src.stats.packetsreceived + |arrivals|) % 0x1_0000_0000
            && r.stats.numnewpackets == (src.stats.numnewpackets + |arrivals|) % 0x1_0000_0000
            && (src.issender || (arrivals != [] && !src.ownssrc) ==> r.issender)
    decreases arrivals
  {
    hide ProcessRtp;
    if arrivals != [] {
      ArrivalCounts(src, arrivals[0]);
      ArrivalsAreCounted(ProcessRtp(src, arrivals[0].packet, arrivals[0].now, false).src, arrivals[1..]);
      CountOn(src.stats.packetsreceived, |arrivals| - 1);
      CountOn(src.stats.numnewpackets, |arrivals| - 1);
    }
  }

  lemma CountOn(a: nat, n: nat)
    ensures ((a + 1) % 0x1_0000_0000 + n) % 0x1_0000_0000 == (a + 1 + n) % 0x1_0000_0000
  {
  }
}
