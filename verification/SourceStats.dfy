// RTPSourceStats of rtpsourcedata.cpp: the reception statistics of one source,
// updated in place by every RTP packet.
module SourceStats {
  import opened Types
  import opened SourceState

  class SourceStats {
    var sentdata: bool
    var packetsreceived: uint32
    var numcycles: uint32
    var baseseqnr: uint32
    var exthighseqnr: uint32
    var numnewpackets: uint32
    var savedextseqnr: uint32
    var prevseqnr: uint16
    var probation: nat
    var lastmsgtime: real
    var lastrtptime: real
    var lastnotetime: real

    function State(): Stats
      reads this
    {
      Stats(sentdata, packetsreceived, numcycles, baseseqnr, exthighseqnr, numnewpackets, savedextseqnr,
            prevseqnr, probation, lastmsgtime, lastrtptime, lastnotetime)
    }

    constructor ()
      ensures State() == INITIAL_STATS
    {
      sentdata, packetsreceived, numcycles, baseseqnr, exthighseqnr := false, 0, 0, 0, 0;
      numnewpackets, savedextseqnr, prevseqnr, probation := 0, 0, 0, 0;
      lastmsgtime, lastrtptime, lastnotetime := 0.0, 0.0, 0.0;
    }

    // The accepting tail shared by both ways a first packet is accepted.
    method AcceptPacket(seqnr: uint16, receivetime: real, ownpacket: bool) returns (extseqnr: uint32)
      modifies this
      ensures var o := AcceptFirst(old(State()), seqnr, receivetime, ownpacket);
              extseqnr == o.extseqnr && State() == o.stats
    {
      sentdata := true;
      packetsreceived := Wrap32(packetsreceived + 1);
      numnewpackets := Wrap32(numnewpackets + 1);
      if seqnr == 0 {
        baseseqnr := 0x0000_FFFF;
        numcycles := 0x0001_0000;
      } else {
        baseseqnr := seqnr - 1;
      }
      exthighseqnr := baseseqnr + 1;
      savedextseqnr := baseseqnr;
      extseqnr := exthighseqnr;
      SetPacketTimes(receivetime, ownpacket);
    }

    // RTPSourceStats::ProcessPacket
    method ProcessPacket(seqnr: uint16, receivetime: real, ownpacket: bool, applyprobation: bool)
      returns (extseqnr: uint32, accept: bool, onprobation: bool)
      modifies this
      ensures var o := ProcessStats(old(State()), seqnr, receivetime, ownpacket, applyprobation);
              && extseqnr == o.extseqnr && accept == o.accept && onprobation == o.onprobation
              && State() == o.stats
    {
      extseqnr, onprobation := seqnr, false;
      if !sentdata {
        if applyprobation {
          var acceptpack := false;
          if probation != 0 {
            var pseq := Wrap16(prevseqnr + 1);
            if pseq == seqnr {
              prevseqnr := seqnr;
              probation := probation - 1;
              if probation == 0 {
                acceptpack := true;
              } else {
                onprobation := true;
              }
            } else {
              probation := PROBATION_COUNT;
              prevseqnr := seqnr;
              onprobation := true;
            }
          } else {
            probation := PROBATION_COUNT;
            prevseqnr := seqnr;
            onprobation := true;
          }
          if acceptpack {
            accept := true;
            extseqnr := AcceptPacket(seqnr, receivetime, ownpacket);
          } else {
            accept := false;
            lastmsgtime := receivetime;
          }
        } else {
          accept := true;
          extseqnr := AcceptPacket(seqnr, receivetime, ownpacket);
        }
      } else {
        accept := true;
        extseqnr := ExtendNumber(seqnr, receivetime, ownpacket);
      }
    }

    method ExtendNumber(seqnr: uint16, receivetime: real, ownpacket: bool) returns (extseqnr: uint32)
      modifies this
      ensures var o := Extend(old(State()), seqnr, receivetime, ownpacket);
              extseqnr == o.extseqnr && State() == o.stats
    {
      ghost var cycles := Cycles(State(), seqnr);
      packetsreceived := Wrap32(packetsreceived + 1);
      numnewpackets := Wrap32(numnewpackets + 1);
      var maxseq16 := Wrap16(exthighseqnr);
      if seqnr >= maxseq16 {
        extseqnr := Wrap32(numcycles + seqnr);
        exthighseqnr := extseqnr;
      } else {
        var dif1, dif2 := Wrap16(seqnr - maxseq16), Wrap16(maxseq16 - seqnr);
        if dif1 < dif2 {
          numcycles := Wrap32(numcycles + 0x1_0000);
          assert numcycles == cycles != old(numcycles);
          extseqnr := Wrap32(numcycles + seqnr);
          exthighseqnr := extseqnr;
        } else {
          extseqnr := Wrap32(numcycles + seqnr);
        }
      }
      assert numcycles == cycles && extseqnr == Wrap32(cycles + seqnr);
      SetPacketTimes(receivetime, ownpacket);
    }

    method SetPacketTimes(receivetime: real, ownpacket: bool)
      modifies this`lastmsgtime, this`lastrtptime
      ensures lastmsgtime == receivetime && lastrtptime == if ownpacket then old(lastrtptime) else receivetime
    {
      lastmsgtime := receivetime;
      if !ownpacket {
        lastrtptime := receivetime;
      }
    }

    method SetLastMessageTime(t: real)
      modifies this`lastmsgtime
      ensures State() == old(State()).(lastmsgtime := t)
    {
      lastmsgtime := t;
    }

    method SetLastRTPPacketTime(t: real)
      modifies this`lastrtptime
      ensures State() == old(State()).(lastrtptime := t)
    {
      lastrtptime := t;
    }

    method SetLastNoteTime(t: real)
      modifies this`lastnotetime
      ensures State() == old(State()).(lastnotetime := t)
    {
      lastnotetime := t;
    }
  }
}
