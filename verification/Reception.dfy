// Whole-run properties of one source's reception state: sequence number
// extension, probation and the reorder queue (RFC 3550 section A.1).
module Reception {
  import opened Types
  import opened SourceState

  // ---- Sequence number extension ----

  ghost predicate CyclesOk(st: Stats) {
    st.numcycles == st.exthighseqnr - st.exthighseqnr % 0x1_0000
  }

  // One more cycle overflows: from the last block of 2^16, back to the first.
  predicate Overflows(highest: int, index: int) {
    highest >= 0xFFFF_0000 && 0 <= index < 0x1_0000 && highest % 0x1_0000 - index > 32768
  }

  // The true packet indices that the 16-bit number identifies, given the
  // highest index so far: anything later in the same block of 2^16, up to 32767
  // ahead in the next block, or up to 32768 back in the same block.
  predicate InWindow(highest: int, index: int) {
    if index / 0x1_0000 == highest / 0x1_0000 then highest - index <= 32768
    else index / 0x1_0000 == highest / 0x1_0000 + 1 && index - highest <= 32767
  }

  function Max(a: int, b: int): int {
    if a < b then b else a
  }

  // Extension in terms of the block number b and the position m in the block.
  lemma ExtendParts(st: Stats, b: nat, m: uint16, seq16: uint16, now: real, own: bool)
    requires b < 0x1_0000 && st.exthighseqnr == b * 0x1_0000 + m && st.numcycles == b * 0x1_0000
    ensures var o := Extend(st, seq16, now, own);
            var b' := if m - seq16 > 32768 then (b + 1) % 0x1_0000 else b;
            && o.extseqnr == b' * 0x1_0000 + seq16 && o.stats.numcycles == b' * 0x1_0000
            && o.stats.exthighseqnr == if seq16 >= m || b' != b then o.extseqnr else st.exthighseqnr
  {
    assert st.exthighseqnr % 0x1_0000 == m;
    if m - seq16 > 32768 && b == 0xFFFF {
      assert Cycles(st, seq16) == 0;
    } else if m - seq16 > 32768 {
      assert Cycles(st, seq16) == (b + 1) * 0x1_0000;
    }
  }

  // The highest number after a packet that is given its index.
  function Advance(highest: int, index: int): int {
    if Overflows(highest, index) then index else Max(highest, index)
  }

  // Every 32-bit index is given to its packet if and only if it is in the window,
  // or the first block follows the last one.
  lemma ExtendExact(st: Stats, index: uint32, now: real, own: bool)
    requires CyclesOk(st)
    ensures var o := Extend(st, Wrap16(index), now, own);
            && (o.extseqnr == index <==> InWindow(st.exthighseqnr, index) || Overflows(st.exthighseqnr, index))
            && (o.extseqnr == index ==> o.stats.exthighseqnr == Advance(st.exthighseqnr, index) && CyclesOk(o.stats))
  {
    hide Extend, Cycles;
    var b, m := st.exthighseqnr / 0x1_0000, st.exthighseqnr % 0x1_0000;
    ExtendParts(st, b, m, Wrap16(index), now, own);
  }

  // numcycles is always the upper half of exthighseqnr, even through a 32-bit
  // overflow, and exthighseqnr decreases only in one: no window needed.
  lemma ExtendMonotone(st: Stats, seq16: uint16, now: real, own: bool)
    requires CyclesOk(st)
    ensures var o := Extend(st, seq16, now, own);
            && CyclesOk(o.stats)
            && (o.stats.exthighseqnr < st.exthighseqnr <==> Overflows(st.exthighseqnr, seq16))
            && o.extseqnr % 0x1_0000 == seq16
  {
    hide Extend, Cycles;
    ExtendParts(st, st.exthighseqnr / 0x1_0000, st.exthighseqnr % 0x1_0000, seq16, now, own);
  }

  // The extended numbers assigned to a run of arrivals.
  function Assigned(st: Stats, arrivals: seq<(uint32, real)>, own: bool): seq<uint32>
    decreases arrivals
  {
    if arrivals == [] then []
    else
      var o := Extend(st, Wrap16(arrivals[0].0), arrivals[0].1, own);
      [o.extseqnr] + Assigned(o.stats, arrivals[1..], own)
  }

  function Final(st: Stats, arrivals: seq<(uint32, real)>, own: bool): Stats
    decreases arrivals
  {
    if arrivals == [] then st
    else Final(Extend(st, Wrap16(arrivals[0].0), arrivals[0].1, own).stats, arrivals[1..], own)
  }

  function Indices(arrivals: seq<(uint32, real)>): seq<uint32> {
    seq(|arrivals|, i requires 0 <= i < |arrivals| => arrivals[i].0)
  }

  predicate AllInWindow(highest: int, arrivals: seq<(uint32, real)>)
    decreases arrivals
  {
    arrivals == [] ||
    ((InWindow(highest, arrivals[0].0) || Overflows(highest, arrivals[0].0)) &&
     AllInWindow(Advance(highest, arrivals[0].0), arrivals[1..]))
  }

  function Highest(highest: int, arrivals: seq<(uint32, real)>): int
    decreases arrivals
  {
    if arrivals == [] then highest else Highest(Advance(highest, arrivals[0].0), arrivals[1..])
  }

  // Every packet of a run is given its true index exactly when every arrival
  // is in the window of the highest index before it; the highest extended
  // number is then the running maximum, which starts again at an overflow.
  lemma {:induction false} ExtensionTracksTrueIndex(st: Stats, arrivals: seq<(uint32, real)>, own: bool)
    requires CyclesOk(st)
    ensures Assigned(st, arrivals, own) == Indices(arrivals) <==> AllInWindow(st.exthighseqnr, arrivals)
    ensures AllInWindow(st.exthighseqnr, arrivals) ==>
              Final(st, arrivals, own).exthighseqnr == Highest(st.exthighseqnr, arrivals)
    decreases arrivals
  {
    if arrivals == [] {
    } else {
      var o := Extend(st, Wrap16(arrivals[0].0), arrivals[0].1, own);
      ExtendExact(st, arrivals[0].0, arrivals[0].1, own);
      var a, b := Assigned(st, arrivals, own), Indices(arrivals);
      assert a[0] == o.extseqnr && b[0] == arrivals[0].0;
      if o.extseqnr == arrivals[0].0 {
        ExtensionTracksTrueIndex(o.stats, arrivals[1..], own);
        assert Indices(arrivals) == [arrivals[0].0] + Indices(arrivals[1..]);
        assert a[1..] == Assigned(o.stats, arrivals[1..], own) && b[1..] == Indices(arrivals[1..]);
      }
    }
  }

  // A packet that arrives late across a block boundary is taken as new: index
  // 0xFFFF after 0x1_0000 is numbered 0x1_FFFF.
  lemma LateAcrossBoundary()
    ensures var st := INITIAL_STATS.(sentdata := true, numcycles := 0x1_0000, exthighseqnr := 0x1_0000);
            CyclesOk(st) && Extend(st, 0xFFFF, 0.0, false).extseqnr == 0x1_FFFF
  {
    assert !InWindow(0x1_0000, 0xFFFF);
  }

  // ---- Probation ----

  // The first accepted packet of a run that starts with nothing received.
  function FirstAccepted(st: Stats, arrivals: seq<(uint16, real)>, own: bool): nat
    decreases arrivals
  {
    if arrivals == [] then 0
    else
      var o := ProcessStats(st, arrivals[0].0, arrivals[0].1, own, true);
      if o.accept then 0 else 1 + FirstAccepted(o.stats, arrivals[1..], own)
  }

  predicate Follows(a: uint16, b: uint16) {
    b == Wrap16(a + 1)
  }

  // Packet k completes three successive arrivals with consecutive numbers.
  predicate CompletesTriple(arrivals: seq<(uint16, real)>, k: nat) {
    2 <= k < |arrivals| && Follows(arrivals[k - 2].0, arrivals[k - 1].0) && Follows(arrivals[k - 1].0, arrivals[k].0)
  }

  // The probation state after n arrivals none of which was accepted.
  ghost predicate OnProbation(st: Stats, arrivals: seq<(uint16, real)>, n: nat)
    requires n <= |arrivals|
  {
    && !st.sentdata
    && (if n == 0 then st.probation == 0
        else st.prevseqnr == arrivals[n - 1].0
             && st.probation == if n >= 2 && Follows(arrivals[n - 2].0, arrivals[n - 1].0) then 1 else 2)
  }

  lemma {:induction false} ProbationRun(st: Stats, arrivals: seq<(uint16, real)>, n: nat, own: bool)
    requires n <= |arrivals| && OnProbation(st, arrivals, n)
    ensures var k := n + FirstAccepted(st, arrivals[n..], own);
            && n <= k <= |arrivals|
            && (k < |arrivals| ==> CompletesTriple(arrivals, k))
            && forall j :: n <= j < k ==> !CompletesTriple(arrivals, j)
    decreases |arrivals| - n
  {
    if n < |arrivals| {
      var o := ProcessStats(st, arrivals[n].0, arrivals[n].1, own, true);
      assert arrivals[n..][1..] == arrivals[n + 1..];
      if !o.accept {
        ProbationRun(o.stats, arrivals, n + 1, own);
      }
    }
  }

  lemma ProbationEndsAtFirstTriple(arrivals: seq<(uint16, real)>, own: bool)
    ensures var k := FirstAccepted(INITIAL_STATS, arrivals, own);
            && k <= |arrivals|
            && (k < |arrivals| ==> CompletesTriple(arrivals, k))
            && forall j :: 0 <= j < k ==> !CompletesTriple(arrivals, j)
  {
    assert arrivals[0..] == arrivals;
    ProbationRun(INITIAL_STATS, arrivals, 0, own);
  }

  // An RTP packet for a source, its time, and whether the application took it in
  // the callback.
  datatype Arrival = Arrival(packet: Packet, now: real, handled: bool)

  // The first packet of a run that leaves the source validated.
  function FirstValidated(src: Source, arrivals: seq<Arrival>): nat
    decreases arrivals
  {
    if arrivals == [] then 0
    else
      var r := ProcessRtp(src, arrivals[0].packet, arrivals[0].now, arrivals[0].handled);
      if r.src.validated then 0 else 1 + FirstValidated(r.src, arrivals[1..])
  }

  function Numbers(arrivals: seq<Arrival>): (r: seq<(uint16, real)>)
    ensures |r| == |arrivals|
    ensures forall i :: 0 <= i < |r| ==> r[i] == (Wrap16(arrivals[i].packet.extseqnr), arrivals[i].now)
  {
    seq(|arrivals|, i requires 0 <= i < |arrivals| => (Wrap16(arrivals[i].packet.extseqnr), arrivals[i].now))
  }

  lemma {:induction false} ValidatedWhenAccepted(src: Source, arrivals: seq<Arrival>)
    requires !src.validated && !src.probationtype.NoProbation?
    ensures FirstValidated(src, arrivals) == FirstAccepted(src.stats, Numbers(arrivals), src.ownssrc)
    decreases arrivals
  {
    if arrivals != [] {
      var r := ProcessRtp(src, arrivals[0].packet, arrivals[0].now, arrivals[0].handled);
      assert Numbers(arrivals)[1..] == Numbers(arrivals[1..]);
      if !r.src.validated {
        ValidatedWhenAccepted(r.src, arrivals[1..]);
      }
    }
  }

  // A source that has received nothing is validated by its RTP packets at the
  // first completed triple of their numbers; without probation, at once.
  lemma SourceValidatedAtFirstTriple(src: Source, arrivals: seq<Arrival>)
    requires !src.validated && src.stats == INITIAL_STATS
    ensures var k := FirstValidated(src, arrivals);
            if src.probationtype.NoProbation? then k == 0
            else
              && k <= |arrivals|
              && (k < |arrivals| ==> CompletesTriple(Numbers(arrivals), k))
              && forall j :: 0 <= j < k ==> !CompletesTriple(Numbers(arrivals), j)
  {
    if !src.probationtype.NoProbation? {
      ValidatedWhenAccepted(src, arrivals);
      ProbationEndsAtFirstTriple(Numbers(arrivals), src.ownssrc);
    }
  }

  // At the first acceptance the counters start one below the accepted number.
  lemma FirstAcceptanceSetsBase(st: Stats, seq16: uint16, now: real, own: bool, applyprobation: bool)
    requires !st.sentdata && st.numcycles == 0
    ensures var o := ProcessStats(st, seq16, now, own, applyprobation);
            o.accept ==> && o.stats.baseseqnr + 1 == o.stats.exthighseqnr == o.extseqnr
                         && o.extseqnr % 0x1_0000 == seq16 && CyclesOk(o.stats) && o.stats.sentdata
  {
  }

  // ---- Reorder queue ----

  ghost predicate Increasing(q: seq<Packet>) {
    forall i, j :: 0 <= i < j < |q| ==> q[i].extseqnr < q[j].extseqnr
  }

  lemma {:induction false} InsertIncreasing(q: seq<Packet>, p: Packet)
    requires Increasing(q)
    ensures Increasing(Insert(q, p))
  {
    if q != [] && q[|q| - 1].extseqnr > p.extseqnr {
      InsertIncreasing(q[..|q| - 1], p);
      InsertBounded(q[..|q| - 1], p, q[|q| - 1].extseqnr);
    }
  }

  lemma {:induction false} InsertBounded(q: seq<Packet>, p: Packet, bound: uint32)
    requires p.extseqnr < bound && forall i :: 0 <= i < |q| ==> q[i].extseqnr < bound
    ensures forall i :: 0 <= i < |Insert(q, p)| ==> Insert(q, p)[i].extseqnr < bound
  {
    if q != [] && q[|q| - 1].extseqnr > p.extseqnr {
      InsertBounded(q[..|q| - 1], p, bound);
    }
  }

  lemma QueuedFront(q: seq<Packet>, ext: uint32)
    requires q != []
    ensures Queued(q, ext) <==> Queued(q[..|q| - 1], ext) || q[|q| - 1].extseqnr == ext
  {
    var front := q[..|q| - 1];
    if Queued(q, ext) {
      var i :| 0 <= i < |q| && q[i].extseqnr == ext;
      assert i < |front| ==> front[i].extseqnr == ext;
    }
    if Queued(front, ext) {
      var i :| 0 <= i < |front| && front[i].extseqnr == ext;
      assert q[i].extseqnr == ext;
    }
  }

  // Where the packet goes when everything after position k - 1 is larger.
  lemma {:induction false} InsertBefore(q: seq<Packet>, p: Packet, k: nat)
    requires k <= |q| && forall j :: k <= j < |q| ==> q[j].extseqnr > p.extseqnr
    ensures Insert(q, p) == Insert(q[..k], p) + q[k..]
    ensures Queued(q, p.extseqnr) == Queued(q[..k], p.extseqnr)
    decreases |q|
  {
    if k == |q| {
      assert q[..k] == q;
    } else {
      var front := q[..|q| - 1];
      InsertBefore(front, p, k);
      QueuedFront(q, p.extseqnr);
      assert front[..k] == q[..k] && front[k..] + [q[|q| - 1]] == q[k..];
    }
  }

  // An equal number leaves the queue as it was; any other adds just the packet.
  lemma {:induction false} InsertContents(q: seq<Packet>, p: Packet)
    requires Increasing(q)
    ensures if Queued(q, p.extseqnr) then Insert(q, p) == q
            else multiset(Insert(q, p)) == multiset(q) + multiset{p}
  {
    if q != [] {
      var front, last := q[..|q| - 1], q[|q| - 1];
      assert q == front + [last];
      QueuedFront(q, p.extseqnr);
      if last.extseqnr > p.extseqnr {
        InsertContents(front, p);
      }
    }
  }

  // What holds of every source in every reachable state.
  ghost predicate QueueOk(src: Source) {
    Increasing(src.packetlist) && (!src.validated ==> |src.packetlist| <= MAX_PROBATION_PACKETS)
  }

  ghost predicate StatsOk(st: Stats) {
    if st.sentdata then CyclesOk(st) else st.numcycles == 0
  }

  ghost predicate ReceptionOk(src: Source) {
    QueueOk(src) && StatsOk(src.stats)
  }

  lemma {:induction false} InsertLength(q: seq<Packet>, p: Packet)
    ensures |q| <= |Insert(q, p)| <= |q| + 1
  {
    if q != [] {
      InsertLength(q[..|q| - 1], p);
    }
  }

  lemma ProcessStatsKeeps(st: Stats, seq16: uint16, now: real, own: bool, applyprobation: bool)
    requires StatsOk(st)
    ensures StatsOk(ProcessStats(st, seq16, now, own, applyprobation).stats)
  {
    if st.sentdata {
      ExtendMonotone(st, seq16, now, own);
    } else {
      FirstAcceptanceSetsBase(st, seq16, now, own, applyprobation);
    }
  }

  lemma ProcessRtpKeeps(src: Source, p: Packet, now: real, handled: bool)
    requires ReceptionOk(src)
    ensures ReceptionOk(ProcessRtp(src, p, now, handled).src)
  {
    ProcessStatsKeeps(src.stats, Wrap16(p.extseqnr), now, src.ownssrc,
                      !src.validated && !src.probationtype.NoProbation?);
    ProcessRtpKeepsQueue(src, p, now, handled);
  }

  lemma EnqueueKeeps(src: Source, p: Packet)
    requires QueueOk(src)
    ensures QueueOk(Enqueue(src, p).src)
  {
    var q := Capped(src.packetlist, src.validated);
    InsertIncreasing(q, p);
    InsertLength(q, p);
  }

  lemma ProcessRtpKeepsQueue(src: Source, p: Packet, now: real, handled: bool)
    requires QueueOk(src)
    ensures QueueOk(ProcessRtp(src, p, now, handled).src)
  {
    hide ProcessStats, Insert;
    var o := ProcessStats(src.stats, Wrap16(p.extseqnr), now, src.ownssrc,
                          !src.validated && !src.probationtype.NoProbation?);
    var validated := src.validated || o.accept;
    var s2 := src.(stats := o.stats, validated := validated, issender := src.issender || (validated && !src.ownssrc));
    EnqueueKeeps(s2, p.(extseqnr := o.extseqnr));
  }

  // GetNextPacket gives nothing before validation and the smallest queued
  // packet after.
  lemma NextPacketIsSmallest(src: Source)
    requires QueueOk(src)
    ensures var r := NextPacket(src);
            && QueueOk(r.src)
            && (r.packet.None? <==> !src.validated || src.packetlist == [])
            && (r.packet.Some? ==>
                  && src.packetlist == [r.packet.value] + r.src.packetlist
                  && forall i :: 0 <= i < |r.src.packetlist| ==> r.packet.value.extseqnr < r.src.packetlist[i].extseqnr)
  {
  }
}
