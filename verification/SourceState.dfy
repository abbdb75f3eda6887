// The value of one source-table entry and the transitions that incoming
// packets cause in it (rtpsourcedata.cpp, rtpinternalsourcedata.cpp).
module SourceState {
  import opened Types

  const PROBATION_COUNT := 2
  const MAX_PROBATION_PACKETS := 32
  const SDES_CNAME := 1
  const SDES_NAME := 2
  const SDES_EMAIL := 3
  const SDES_PHONE := 4
  const SDES_LOCATION := 5
  const SDES_TOOL := 6
  const SDES_NOTE := 7

  datatype ProbationType = NoProbation | ProbationDiscard | ProbationStore

  // An incoming RTP packet. extseqnr holds the 16-bit header value until the
  // source statistics have extended it.
  datatype Packet = Packet(ssrc: uint32, extseqnr: uint32, csrcs: seq<uint32>, payload: seq<byte>)

  datatype Stats = Stats(
    sentdata: bool,
    packetsreceived: uint32,
    numcycles: uint32,
    baseseqnr: uint32,
    exthighseqnr: uint32,
    numnewpackets: uint32,
    savedextseqnr: uint32,
    prevseqnr: uint16,
    probation: nat,
    lastmsgtime: real,
    lastrtptime: real,
    lastnotetime: real)

  const INITIAL_STATS := Stats(false, 0, 0, 0, 0, 0, 0, 0, 0, 0.0, 0.0, 0.0)

  datatype Outcome = Outcome(stats: Stats, extseqnr: uint32, accept: bool, onprobation: bool)

  function Received(st: Stats, now: real, own: bool): Stats {
    st.(packetsreceived := Wrap32(st.packetsreceived + 1), numnewpackets := Wrap32(st.numnewpackets + 1),
        lastmsgtime := now, lastrtptime := if own then st.lastrtptime else now)
  }

  // The first accepted packet fixes the base; number 0 is lifted by one cycle
  // so that the base does not become negative.
  function AcceptFirst(st: Stats, seq16: uint16, now: real, own: bool): Outcome {
    var base := if seq16 == 0 then 0xFFFF else seq16 - 1;
    var st' := Received(st, now, own).(sentdata := true, baseseqnr := base, exthighseqnr := base + 1,
                                       savedextseqnr := base,
                                       numcycles := if seq16 == 0 then 0x1_0000 else st.numcycles);
    Outcome(st', base + 1, true, false)
  }

  function Probe(st: Stats, seq16: uint16, now: real, own: bool): Outcome {
    if st.probation != 0 && seq16 == Wrap16(st.prevseqnr + 1) then
      var st' := st.(prevseqnr := seq16, probation := st.probation - 1);
      if st'.probation == 0 then AcceptFirst(st', seq16, now, own)
      else Outcome(st'.(lastmsgtime := now), seq16, false, true)
    else
      Outcome(st.(prevseqnr := seq16, probation := PROBATION_COUNT, lastmsgtime := now), seq16, false, true)
  }

  // The cycle count after a packet with this header number: it advances when
  // the number is below the current 16-bit maximum by more than half the range.
  function Cycles(st: Stats, seq16: uint16): uint32 {
    var maxseq16 := st.exthighseqnr % 0x1_0000;
    if seq16 < maxseq16 && Wrap16(seq16 - maxseq16) < maxseq16 - seq16
    then Wrap32(st.numcycles + 0x1_0000)
    else st.numcycles
  }

  function Extend(st: Stats, seq16: uint16, now: real, own: bool): Outcome {
    var cycles := Cycles(st, seq16);
    var ext := Wrap32(cycles + seq16);
    var newest := seq16 >= st.exthighseqnr % 0x1_0000 || cycles != st.numcycles;
    var st' := Received(st, now, own).(numcycles := cycles, exthighseqnr := if newest then ext else st.exthighseqnr);
    Outcome(st', ext, true, false)
  }

  function ProcessStats(st: Stats, seq16: uint16, now: real, own: bool, applyprobation: bool): Outcome {
    if st.sentdata then Extend(st, seq16, now, own)
    else if applyprobation then Probe(st, seq16, now, own)
    else AcceptFirst(st, seq16, now, own)
  }

  // The non-private SDES items; an item that is not set is empty.
  datatype SdesInfo = SdesInfo(
    cname: seq<byte>, name: seq<byte>, email: seq<byte>, phone: seq<byte>,
    location: seq<byte>, tool: seq<byte>, note: seq<byte>)
  {
    function Get(id: int): seq<byte> {
      match id
      case 1 => cname
      case 2 => name
      case 3 => email
      case 4 => phone
      case 5 => location
      case 6 => tool
      case 7 => note
      case _ => []
    }

    function Set(id: int, data: seq<byte>): SdesInfo {
      match id
      case 1 => this.(cname := data)
      case 2 => this.(name := data)
      case 3 => this.(email := data)
      case 4 => this.(phone := data)
      case 5 => this.(location := data)
      case 6 => this.(tool := data)
      case 7 => this.(note := data)
      case _ => this
    }
  }

  const NO_SDES := SdesInfo([], [], [], [], [], [], [])

  datatype Source = Source(
    ssrc: uint32,
    probationtype: ProbationType,
    ownssrc: bool,
    iscsrc: bool,
    validated: bool,
    receivedbye: bool,
    issender: bool,
    byetime: real,
    isrtpaddrset: bool,
    rtpaddr: Option<Address>,
    isrtcpaddrset: bool,
    rtcpaddr: Option<Address>,
    sdes: SdesInfo,
    stats: Stats,
    packetlist: seq<Packet>)
  {
    predicate Active() {
      validated && !receivedbye
    }

    predicate HasData() {
      validated && packetlist != []
    }

    function WithMessageTime(t: real): Source {
      this.(stats := stats.(lastmsgtime := t))
    }
  }

  function NewSource(ssrc: uint32, probationtype: ProbationType): Source {
    Source(ssrc, probationtype, false, false, false, false, false, 0.0, false, None, false, None, NO_SDES,
           INITIAL_STATS, [])
  }

  // Insertion into the reorder queue, searched from the back; a packet whose
  // number is already queued is dropped.
  function Insert(q: seq<Packet>, p: Packet): seq<Packet> {
    if q == [] then [p]
    else
      var last := q[|q| - 1];
      if last.extseqnr > p.extseqnr then Insert(q[..|q| - 1], p) + [last]
      else if last.extseqnr < p.extseqnr then q + [p]
      else q
  }

  predicate Queued(q: seq<Packet>, ext: uint32) {
    exists i :: 0 <= i < |q| && q[i].extseqnr == ext
  }

  // A source on probation keeps at most 32 packets, dropping the lowest.
  function Capped(q: seq<Packet>, validated: bool): seq<Packet> {
    if !validated && |q| == MAX_PROBATION_PACKETS then q[1..] else q
  }

  datatype RtpResult = RtpResult(src: Source, stored: bool)

  function Enqueue(src: Source, p: Packet): RtpResult {
    var q := Capped(src.packetlist, src.validated);
    RtpResult(src.(packetlist := Insert(q, p)), !Queued(q, p.extseqnr))
  }

  function ProcessRtp(src: Source, p: Packet, now: real, handled: bool): RtpResult {
    var applyprobation := !src.validated && !src.probationtype.NoProbation?;
    var o := ProcessStats(src.stats, Wrap16(p.extseqnr), now, src.ownssrc, applyprobation);
    var s1 := src.(stats := o.stats);
    if !o.accept && !(src.probationtype.ProbationStore? && o.onprobation) then RtpResult(s1, false)
    else
      var validated := src.validated || o.accept;
      var s2 := s1.(validated := validated, issender := src.issender || (validated && !src.ownssrc));
      if handled then RtpResult(s2, true) else Enqueue(s2, p.(extseqnr := o.extseqnr))
  }

  datatype PacketResult = PacketResult(src: Source, packet: Option<Packet>)

  function NextPacket(src: Source): PacketResult {
    if !src.HasData() then PacketResult(src, None)
    else PacketResult(src.(packetlist := src.packetlist[1..]), Some(src.packetlist[0]))
  }

  datatype SdesResult = SdesResult(src: Source, cnamecollision: bool)

  // The times after an item.
  function ItemTimes(st: Stats, id: int, now: real): Stats {
    if id == SDES_NOTE then st.(lastmsgtime := now, lastnotetime := now) else st.(lastmsgtime := now)
  }

  function WithItems(src: Source, st: Stats, info: SdesInfo, validated: bool): Source {
    src.(stats := st, sdes := info, validated := validated)
  }

  // CNAME, NAME, EMAIL and TOOL keep their first non-empty value.
  predicate Keeps(info: SdesInfo, id: int) {
    (id == SDES_CNAME || id == SDES_NAME || id == SDES_EMAIL || id == SDES_TOOL) && info.Get(id) != []
  }

  // Setting the CNAME validates the source.
  function ProcessSdes(src: Source, id: int, data: seq<byte>, now: real): SdesResult {
    var st := ItemTimes(src.stats, id, now);
    if !(SDES_CNAME <= id <= SDES_NOTE) then SdesResult(WithItems(src, st, src.sdes, src.validated), false)
    else if Keeps(src.sdes, id) then
      SdesResult(WithItems(src, st, src.sdes, src.validated), id == SDES_CNAME && src.sdes.Get(id) != data)
    else
      SdesResult(WithItems(src, st, src.sdes.Set(id, data), src.validated || id == SDES_CNAME), false)
  }

  function ProcessBye(src: Source, now: real): Source {
    src.WithMessageTime(now).(byetime := now, receivedbye := true)
  }

  function SetOwn(src: Source): Source {
    src.(ownssrc := true, validated := true)
  }

  function SetCsrc(src: Source): Source {
    src.(iscsrc := true, validated := true)
  }

  function SentRtp(src: Source, now: real): Source {
    if !src.ownssrc then src
    else src.(issender := true, stats := src.stats.(lastrtptime := now, lastmsgtime := now))
  }

  function SetAddress(src: Source, sender: Option<Address>, isrtp: bool): Source {
    if isrtp then src.(rtpaddr := sender, isrtpaddrset := true)
    else src.(rtcpaddr := sender, isrtcpaddrset := true)
  }

  datatype CollisionResult = CollisionResult(src: Source, collision: bool)

  // A source is bound to the address it was first heard from; its RTP and RTCP
  // addresses must be on one host.
  function CheckCollision(src: Source, sender: Option<Address>, isrtp: bool): CollisionResult {
    var isset := if isrtp then src.isrtpaddrset else src.isrtcpaddrset;
    var addr := if isrtp then src.rtpaddr else src.rtcpaddr;
    var otherset := if isrtp then src.isrtcpaddrset else src.isrtpaddrset;
    var otheraddr := if isrtp then src.rtcpaddr else src.rtpaddr;
    var collision :=
      if isset then
        if addr.None? then sender.Some? else !SameAddress(addr.value, sender)
      else
        otherset && if otheraddr.None? then sender.Some? else !SameHost(otheraddr.value, sender);
    CollisionResult(if collision || isset then src else SetAddress(src, sender, isrtp), collision)
  }
}
