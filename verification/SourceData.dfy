// RTPSourceData and RTPInternalSourceData: one entry of the source table as the
// object the library keeps and updates in place.
module SourceData {
  import opened Types
  import opened SourceState
  import opened SourceStats
  import opened Reception

  class SourceData {
    const ssrc: uint32
    const probationtype: ProbationType
    const stats: SourceStats
    var ownssrc: bool
    var iscsrc: bool
    var validated: bool
    var receivedbye: bool
    var issender: bool
    var byetime: real
    var isrtpaddrset: bool
    var rtpaddr: Option<Address>
    var isrtcpaddrset: bool
    var rtcpaddr: Option<Address>
    var sdesinf: SdesInfo
    var packetlist: seq<Packet>

    function State(): Source
      reads this, stats
    {
      Source(ssrc, probationtype, ownssrc, iscsrc, validated, receivedbye, issender, byetime,
             isrtpaddrset, rtpaddr, isrtcpaddrset, rtcpaddr, sdesinf, stats.State(), packetlist)
    }

    constructor (id: uint32, probtype: ProbationType)
      ensures State() == NewSource(id, probtype) && fresh(stats)
    {
      ssrc, probationtype := id, probtype;
      stats := new SourceStats();
      ownssrc, iscsrc, validated, receivedbye, issender, byetime := false, false, false, false, false, 0.0;
      isrtpaddrset, rtpaddr, isrtcpaddrset, rtcpaddr := false, None, false, None;
      sdesinf, packetlist := NO_SDES, [];
    }

    // The read-only getters.

    predicate IsActive()
      reads this
    {
      if !validated then false else !receivedbye
    }

    predicate HasNote()
      reads this
    {
      sdesinf.note != []
    }

    function LastMessageTime(): real
      reads stats
    {
      stats.lastmsgtime
    }

    function LastRTPPacketTime(): real
      reads stats
    {
      stats.lastrtptime
    }

    function LastSDESNoteTime(): real
      reads stats
    {
      stats.lastnotetime
    }

    // The position search of ProcessRTPPacket, from the back of the queue.
    method QueuePacket(rtppack: Packet) returns (stored: bool)
      requires Increasing(packetlist)
      modifies this`packetlist
      ensures packetlist == Insert(old(packetlist), rtppack)
      ensures stored == !Queued(old(packetlist), rtppack.extseqnr)
    {
      stored := false;
      if packetlist == [] {
        packetlist := [rtppack];
        return true;
      }
      var newseqnr := rtppack.extseqnr;
      ghost var q := packetlist;
      var it := |packetlist| - 1;
      var done := false;
      while !done
        invariant 0 <= it < |q|
        invariant !done ==> packetlist == q && !stored && forall j :: it < j < |q| ==> q[j].extseqnr > newseqnr
        invariant done ==> packetlist == Insert(q, rtppack) && stored == !Queued(q, newseqnr)
        decreases it, !done
      {
        var seqnr := packetlist[it].extseqnr;
        InsertBefore(q, rtppack, it + 1);
        assert q[..it + 1][..it] == q[..it];
        if seqnr > newseqnr {
          if it != 0 {
            it := it - 1;
          } else {
            stored := true;
            done := true;
            packetlist := [rtppack] + packetlist;
            InsertBefore(q, rtppack, 0);
          }
        } else if seqnr < newseqnr {
          packetlist := packetlist[..it + 1] + [rtppack] + packetlist[it + 1..];
          done := true;
          stored := true;
        } else {
          done := true;
          assert q[..it + 1][it].extseqnr == newseqnr;
          assert q[..it + 1] + q[it + 1..] == q;
        }
      }
    }

    method StorePacket(rtppack: Packet) returns (stored: bool)
      requires Increasing(packetlist)
      modifies this`packetlist
      ensures State() == Enqueue(old(State()), rtppack).src
      ensures stored == !Queued(Capped(old(packetlist), validated), rtppack.extseqnr)
    {
      if !validated {
        if |packetlist| == MAX_PROBATION_PACKETS {
          packetlist := packetlist[1..];
        }
      }
      stored := QueuePacket(rtppack);
    }

    // The validation switch: whether the packet is kept at all.
    method Validate(accept: bool, onprobation: bool) returns (keep: bool)
      modifies this`validated
      ensures keep == (accept || (probationtype == ProbationStore && onprobation))
      ensures validated == (old(validated) || accept)
    {
      match probationtype {
        case ProbationStore =>
          if !(onprobation || accept) {
            return false;
          }
          if accept {
            validated := true;
          }
        case _ =>
          if !accept {
            return false;
          }
          validated := true;
      }
      keep := true;
    }

    method ProcessRTPPacket(rtppack: Packet, receivetime: real, handled: bool) returns (stored: bool)
      requires Increasing(packetlist)
      modifies this`validated, this`issender, this`packetlist, stats
      ensures var r := ProcessRtp(old(State()), rtppack, receivetime, handled);
              State() == r.src && stored == r.stored
    {
      hide ProcessStats, Insert, Capped, Queued;
      var applyprobation := if validated then false else if probationtype == NoProbation then false else true;
      var extseqnr, accept, onprobation :=
        stats.ProcessPacket(Wrap16(rtppack.extseqnr), receivetime, ownssrc, applyprobation);
      var keep := Validate(accept, onprobation);
      if !keep {
        return false;
      }
      if validated && !ownssrc {
        issender := true;
      }
      if handled {
        return true;
      }
      stored := StorePacket(rtppack.(extseqnr := extseqnr));
    }

    method GetNextPacket() returns (p: Option<Packet>)
      modifies this`packetlist
      ensures State() == NextPacket(old(State())).src && p == NextPacket(old(State())).packet
    {
      if !validated || packetlist == [] {
        return None;
      }
      p := Some(packetlist[0]);
      packetlist := packetlist[1..];
    }

    method ProcessSDESItem(sdesid: int, data: seq<byte>, receivetime: real) returns (cnamecollis: bool)
      modifies this`sdesinf, this`validated, stats
      ensures var r := ProcessSdes(old(State()), sdesid, data, receivetime);
              State() == r.src && cnamecollis == r.cnamecollision
    {
      hide SdesInfo.Set, SdesInfo.Get, Keeps;
      stats.SetLastMessageTime(receivetime);
      cnamecollis := SetItem(sdesid, data);
      if sdesid == SDES_NOTE {
        stats.SetLastNoteTime(receivetime);
      }
    }

    method SetItem(sdesid: int, data: seq<byte>) returns (cnamecollis: bool)
      modifies this`sdesinf, this`validated
      ensures cnamecollis == (sdesid == SDES_CNAME && Keeps(old(sdesinf), sdesid) && old(sdesinf).Get(sdesid) != data)
      ensures if SDES_CNAME <= sdesid <= SDES_NOTE && !Keeps(old(sdesinf), sdesid) then
                sdesinf == old(sdesinf).Set(sdesid, data) && validated == (old(validated) || sdesid == SDES_CNAME)
              else
                sdesinf == old(sdesinf) && validated == old(validated)
    {
      cnamecollis := false;
      match sdesid {
        case 1 =>
          if sdesinf.cname == [] {
            sdesinf := sdesinf.(cname := data);
            validated := true;
          } else if sdesinf.cname != data {
            cnamecollis := true;
          }
        case 2 =>
          if sdesinf.name == [] {
            sdesinf := sdesinf.(name := data);
          }
        case 3 =>
          if sdesinf.email == [] {
            sdesinf := sdesinf.(email := data);
          }
        case 4 =>
          sdesinf := sdesinf.(phone := data);
        case 5 =>
          sdesinf := sdesinf.(location := data);
        case 6 =>
          if sdesinf.tool == [] {
            sdesinf := sdesinf.(tool := data);
          }
        case 7 =>
          sdesinf := sdesinf.(note := data);
        case _ =>
      }
    }

    method ProcessBYEPacket(receivetime: real)
      modifies this`byetime, this`receivedbye, stats
      ensures State() == ProcessBye(old(State()), receivetime)
    {
      byetime := receivetime;
      receivedbye := true;
      stats.SetLastMessageTime(receivetime);
    }

    method UpdateMessageTime(receivetime: real)
      modifies stats
      ensures State() == old(State()).WithMessageTime(receivetime)
    {
      stats.SetLastMessageTime(receivetime);
    }

    method SetDataAddress(a: Option<Address>, isrtp: bool)
      modifies this`rtpaddr, this`isrtpaddrset, this`rtcpaddr, this`isrtcpaddrset
      ensures State() == SetAddress(old(State()), a, isrtp)
    {
      if isrtp {
        rtpaddr := a;
        isrtpaddrset := true;
      } else {
        rtcpaddr := a;
        isrtcpaddrset := true;
      }
    }

    method SetOwnSSRC()
      modifies this`ownssrc, this`validated
      ensures State() == SetOwn(old(State()))
    {
      ownssrc := true;
      validated := true;
    }

    method SetCSRC()
      modifies this`iscsrc, this`validated
      ensures State() == SetCsrc(old(State()))
    {
      validated := true;
      iscsrc := true;
    }

    method SentRTPPacket(currenttime: real)
      modifies this`issender, stats
      ensures State() == SentRtp(old(State()), currenttime)
    {
      if !ownssrc {
        return;
      }
      issender := true;
      stats.SetLastRTPPacketTime(currenttime);
      stats.SetLastMessageTime(currenttime);
    }

    method ClearSenderFlag()
      modifies this`issender
      ensures State() == old(State()).(issender := false)
    {
      issender := false;
    }

    method ClearNote()
      modifies this`sdesinf
      ensures State() == old(State()).(sdes := old(State()).sdes.(note := []))
    {
      sdesinf := sdesinf.(note := []);
    }
  }
}
