// Which packets of a TCP stream are taken for RTP and which for RTCP: what the
// second byte decides about the packets that the two parsers accept.
module PacketRouting {
  import opened Types
  import RtpPacket
  import RtcpPackets
  import opened TcpFraming

  // What a peer sends: a packet of the RTP builder, or a compound packet.
  datatype Outgoing = Rtp(content: RtpPacket.Content) | Rtcp(compound: seq<byte>)
  {
    predicate Ok() {
      match this
      case Rtp(c) => RtpPacket.ExtensionOk(c.extension) && RtpPacket.BuildStatus(c, 0) == RtpPacket.Ok
      case Rtcp(p) => RtcpPackets.Cut(p, true).Some? && |p| > 4
    }

    function Bytes(): seq<byte>
      requires Ok()
    {
      match this
      case Rtp(c) => RtpPacket.Encode(c)
      case Rtcp(p) => p
    }
  }

  // A compound packet is routed to the RTCP parser if and only if it is more than
  // a single header.
  lemma CompoundIsRtcp(p: seq<byte>)
    requires RtcpPackets.Cut(p, true).Some?
    ensures LooksLikeRtp(p) <==> |p| == 4
  {
  }

  // An RTP packet is routed to the RTP parser unless its marker bit and payload
  // type together are one of the five RTCP packet types.
  lemma EncodedIsRtp(c: RtpPacket.Content)
    requires |c.csrcs| <= 15 && c.payloadtype < 128 && RtpPacket.ExtensionOk(c.extension)
    ensures LooksLikeRtp(RtpPacket.Encode(c)) <==> !(c.marker && 72 <= c.payloadtype <= 76)
  {
    RtpPacket.EncodeFields(c);
    var s := RtpPacket.Encode(c);
    assert s[1] == (if c.marker then 128 else 0) + c.payloadtype;
  }

  // Of the packets that the RTP builder makes, those with the marker bit and
  // payload type 74, 75 or 76 are taken for RTCP.
  lemma BuiltIsRtp(c: RtpPacket.Content, maxsize: nat)
    requires RtpPacket.ExtensionOk(c.extension) && RtpPacket.BuildStatus(c, maxsize) == RtpPacket.Ok
    ensures LooksLikeRtp(RtpPacket.Encode(c)) <==> !(c.marker && 74 <= c.payloadtype <= 76)
  {
    EncodedIsRtp(c);
  }

  // One that is: the RTP parser would accept it, but does not get it.
  lemma MisroutedPacket()
    ensures var c := RtpPacket.Content(74, true, 0, 0, 0, [], None, []);
            && RtpPacket.BuildStatus(c, 0) == RtpPacket.Ok
            && RtpPacket.Accepted(RtpPacket.Encode(c)) && !LooksLikeRtp(RtpPacket.Encode(c))
  {
    var c := RtpPacket.Content(74, true, 0, 0, 0, [], None, []);
    RtpPacket.BuiltPacketReadsBack(c, 0);
    EncodedIsRtp(c);
  }

  predicate Misrouted(p: Outgoing) {
    p.Rtp? && p.content.marker && 74 <= p.content.payloadtype <= 76
  }

  // However the stream is cut, every packet arrives whole and in order, the
  // compound packets as RTCP, and the RTP packets as RTP but for those three types.
  lemma StreamIsRouted(packets: seq<Outgoing>, payloads: seq<seq<byte>>, chunks: seq<seq<byte>>)
    requires |payloads| == |packets|
    requires forall i :: 0 <= i < |packets| ==>
                           packets[i].Ok() && payloads[i] == packets[i].Bytes() && |payloads[i]| <= MAX_PACKET_SIZE
    requires Concat(chunks) == Framed(payloads)
    ensures var r := After([], Concat(chunks));
            && |r| == |packets|
            && forall i :: 0 <= i < |packets| ==>
                 r[i].data == payloads[i] && r[i].isrtp == (packets[i].Rtp? && !Misrouted(packets[i]))
  {
    FramedStreamIsDelivered(payloads, chunks);
    CutsDoNotMatter(chunks);
    forall i | 0 <= i < |packets|
      ensures LooksLikeRtp(payloads[i]) == (packets[i].Rtp? && !Misrouted(packets[i]))
    {
      match packets[i]
      case Rtp(c) => BuiltIsRtp(c, 0);
      case Rtcp(p) => CompoundIsRtcp(p);
    }
  }
}
