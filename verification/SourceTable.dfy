// The value of the source table of rtpsources.cpp and its operations: entries
// in insertion order, the own entry, and three cached counters.
module SourceTable {
  import opened Types
  import opened SourceState

  datatype Table = Table(
    entries: seq<Source>,
    own: Option<uint32>,
    total: int,
    senders: int,
    active: int,
    probationtype: ProbationType)

  function Empty(probationtype: ProbationType): Table {
    Table([], None, 0, 0, 0, probationtype)
  }

  // The position of an SSRC, or the number of entries when it is absent.
  function Find(s: seq<Source>, ssrc: uint32): (i: nat)
    ensures i <= |s|
    ensures i < |s| ==> s[i].ssrc == ssrc
  {
    if s == [] || s[0].ssrc == ssrc then 0 else 1 + Find(s[1..], ssrc)
  }

  predicate GotEntry(t: Table, ssrc: uint32) {
    Find(t.entries, ssrc) < |t.entries|
  }

  function B2I(b: bool): int {
    if b then 1 else 0
  }

  function Update(t: Table, i: nat, src: Source): Table
    requires i < |t.entries|
  {
    t.(entries := t.entries[i := src])
  }

  lemma UpdateTwice(t: Table, i: nat, a: Source, b: Source)
    requires i < |t.entries|
    ensures Update(Update(t, i, a), i, b) == Update(t, i, b)
  {
  }

  // Replace entry i and count its transition the way the code does: a source is
  // counted when it becomes a sender or active, uncounted when it stops being
  // active.
  function UpdateCounted(t: Table, i: nat, src: Source): Table
    requires i < |t.entries|
  {
    var prev := t.entries[i];
    Update(t, i, src).(senders := t.senders + B2I(!prev.issender && src.issender),
                       active := t.active + B2I(!prev.Active() && src.Active()) - B2I(prev.Active() && !src.Active()))
  }

  // ObtainSourceDataInstance: create an entry for an unknown SSRC.
  function Obtain(t: Table, ssrc: uint32): (r: Table)
    ensures GotEntry(t, ssrc) ==> r == t
  {
    if GotEntry(t, ssrc) then t
    else t.(entries := t.entries + [NewSource(ssrc, t.probationtype)], total := t.total + 1)
  }

  lemma {:induction false} FindAppend(s: seq<Source>, x: Source)
    requires Find(s, x.ssrc) == |s|
    ensures Find(s + [x], x.ssrc) == |s|
  {
    if s != [] {
      FindAppend(s[1..], x);
      assert (s + [x])[1..] == s[1..] + [x];
    } else {
      assert s + [x] == [x];
    }
  }

  lemma ObtainFinds(t: Table, ssrc: uint32)
    ensures var r := Obtain(t, ssrc);
            Find(r.entries, ssrc) == Find(t.entries, ssrc) < |r.entries|
  {
    if !GotEntry(t, ssrc) {
      FindAppend(t.entries, NewSource(ssrc, t.probationtype));
    }
  }

  function OwnEntry(src: Source): Source {
    SetAddress(SetAddress(SetOwn(src), None, true), None, false)
  }

  function CreateOwn(t: Table, ssrc: uint32): Table {
    if t.own.Some? || GotEntry(t, ssrc) then t
    else
      var r := Obtain(t, ssrc);
      var i := |t.entries|;
      Update(r, i, OwnEntry(r.entries[i])).(own := Some(ssrc), active := r.active + 1)
  }

  lemma CreateOwnIs(t: Table, ssrc: uint32)
    requires t.own.None? && !GotEntry(t, ssrc)
    ensures var r, i := Obtain(t, ssrc), Find(Obtain(t, ssrc).entries, ssrc);
            && i < |r.entries| && r.active == t.active && r.entries[i].ssrc == ssrc
            && CreateOwn(t, ssrc) == Update(r, i, OwnEntry(r.entries[i])).(own := Some(ssrc), active := t.active + 1)
  {
    ObtainFinds(t, ssrc);
  }

  function DeleteOwn(t: Table): Table {
    if t.own.None? || !GotEntry(t, t.own.value) then t
    else
      var i := Find(t.entries, t.own.value);
      var src := t.entries[i];
      t.(entries := RemoveAt(t.entries, i), own := None, total := t.total - 1,
         senders := t.senders - B2I(src.issender), active := t.active - B2I(src.Active()))
  }

  function SentRtpPacket(t: Table, now: real): Table {
    if t.own.None? || !GotEntry(t, t.own.value) then t
    else
      var i := Find(t.entries, t.own.value);
      UpdateCounted(t, i, SentRtp(t.entries[i], now))
  }

  datatype Lookup = Lookup(table: Table, pos: nat, collision: bool)

  // The entry for an SSRC and the address check made before it is used. A new
  // entry takes the sender's address; an existing one may collide with it.
  function Admit(t: Table, ssrc: uint32, sender: Option<Address>, isrtp: bool): (a: Lookup)
    ensures a.pos == Find(t.entries, ssrc) < |a.table.entries|
  {
    ObtainFinds(t, ssrc);
    var r := Obtain(t, ssrc);
    var i := Find(r.entries, ssrc);
    if GotEntry(t, ssrc) then
      var c := CheckCollision(r.entries[i], sender, isrtp);
      Lookup(Update(r, i, c.src), i, c.collision)
    else
      Lookup(Update(r, i, SetAddress(r.entries[i], sender, isrtp)), i, false)
  }

  // One contributing source of an accepted RTP packet. Marking an entry that
  // already existed is not counted in active.
  function MarkNewCsrc(t: Table, i: nat): Table
    requires i < |t.entries|
  {
    var src := SetCsrc(t.entries[i]);
    Update(t, i, src).(active := t.active + B2I(src.Active()))
  }

  function MarkKnownCsrc(t: Table, i: nat, sender: Option<Address>): Table
    requires i < |t.entries|
  {
    var c := CheckCollision(t.entries[i], sender, true);
    Update(t, i, if c.collision then c.src else SetCsrc(c.src))
  }

  function ProcessCsrc(t: Table, csrc: uint32, sender: Option<Address>): Table {
    ObtainFinds(t, csrc);
    var r := Obtain(t, csrc);
    var i := Find(r.entries, csrc);
    if GotEntry(t, csrc) then MarkKnownCsrc(r, i, sender) else MarkNewCsrc(r, i)
  }

  function ProcessCsrcs(t: Table, csrcs: seq<uint32>, sender: Option<Address>): Table
    decreases csrcs
  {
    if csrcs == [] then t else ProcessCsrcs(ProcessCsrc(t, csrcs[0], sender), csrcs[1..], sender)
  }

  // A collision with the own entry: OnSSRCCollision with an own source.
  function OwnCollision(t: Table, ssrc: uint32, sender: Option<Address>, isrtp: bool): bool {
    var a := Admit(t, ssrc, sender, isrtp);
    a.collision && a.table.entries[a.pos].ownssrc
  }

  function CsrcsCollision(t: Table, csrcs: seq<uint32>, sender: Option<Address>): bool
    decreases csrcs
  {
    csrcs != [] &&
    (OwnCollision(t, csrcs[0], sender, true) ||
     CsrcsCollision(ProcessCsrc(t, csrcs[0], sender), csrcs[1..], sender))
  }

  function RtpCollision(t: Table, p: Packet, now: real, sender: Option<Address>, handled: bool): bool {
    var a := Admit(t, p.ssrc, sender, true);
    if a.collision then a.table.entries[a.pos].ownssrc
    else
      var src := ProcessRtp(a.table.entries[a.pos], p, now, handled).src;
      src.validated && CsrcsCollision(UpdateCounted(a.table, a.pos, src), p.csrcs, sender)
  }

  function ProcessRtpPacket(t: Table, p: Packet, now: real, sender: Option<Address>, handled: bool): Table {
    var a := Admit(t, p.ssrc, sender, true);
    if a.collision then a.table
    else
      var src := ProcessRtp(a.table.entries[a.pos], p, now, handled).src;
      var r := UpdateCounted(a.table, a.pos, src);
      if src.validated then ProcessCsrcs(r, p.csrcs, sender) else r
  }

  // Whether the packet is kept, by the queue or by whoever handled it.
  function RtpStored(t: Table, p: Packet, now: real, sender: Option<Address>, handled: bool): bool {
    var a := Admit(t, p.ssrc, sender, true);
    !a.collision && ProcessRtp(a.table.entries[a.pos], p, now, handled).stored
  }

  // Sender reports, report blocks, private items and empty chunks only refresh
  // the time at which the source was last heard.
  function RefreshSource(t: Table, ssrc: uint32, now: real, sender: Option<Address>): Table {
    var a := Admit(t, ssrc, sender, false);
    if a.collision then a.table
    else Update(a.table, a.pos, a.table.entries[a.pos].WithMessageTime(now))
  }

  function ProcessSdesItem(t: Table, ssrc: uint32, id: int, data: seq<byte>, now: real,
                           sender: Option<Address>): Table {
    if !(SDES_CNAME <= id <= SDES_NOTE) then t
    else
      var a := Admit(t, ssrc, sender, false);
      if a.collision then a.table
      else UpdateCounted(a.table, a.pos, ProcessSdes(a.table.entries[a.pos], id, data, now).src)
  }

  // Whether a CNAME differs from the one its source already has.
  function CnameCollision(t: Table, ssrc: uint32, id: int, data: seq<byte>, now: real, sender: Option<Address>): bool {
    var a := Admit(t, ssrc, sender, false);
    SDES_CNAME <= id <= SDES_NOTE && !a.collision &&
    ProcessSdes(a.table.entries[a.pos], id, data, now).cnamecollision
  }

  // A BYE for the own SSRC is ignored.
  function ProcessByeFor(t: Table, ssrc: uint32, now: real, sender: Option<Address>): Table {
    var a := Admit(t, ssrc, sender, false);
    if a.collision || t.own == Some(ssrc) then a.table
    else UpdateCounted(a.table, a.pos, ProcessBye(a.table.entries[a.pos], now))
  }

  // Hand the next queued packet of a source to the application.
  function TakePacket(t: Table, ssrc: uint32): Table {
    if !GotEntry(t, ssrc) then t
    else
      var i := Find(t.entries, ssrc);
      Update(t, i, NextPacket(t.entries[i]).src)
  }

  // ---- Timeout sweeps ----

  function Count(s: seq<Source>, p: Source -> bool): nat {
    if s == [] then 0 else Count(s[..|s| - 1], p) + if p(s[|s| - 1]) then 1 else 0
  }

  function IsSender(): Source -> bool {
    (s: Source) => s.issender
  }

  function IsActive(): Source -> bool {
    (s: Source) => s.Active()
  }

  // Every sweep drops some entries, rewrites the others, and recounts.
  datatype Sweep =
    | SenderSweep(check: real)
    | ByeSweep(check: real)
    | MemberSweep(check: real)
    | NoteSweep(check: real)
    | MultipleSweep(senderCheck: real, byeCheck: real, memberCheck: real, noteCheck: real)
  {
    predicate Drops(s: Source, own: Option<uint32>) {
      own != Some(s.ssrc) &&
      match this
      case ByeSweep(check) => s.receivedbye && check > s.byetime
      case MemberSweep(check) => s.stats.lastmsgtime < check
      case MultipleSweep(_, bye, member, _) => (s.receivedbye && bye > s.byetime) || s.stats.lastmsgtime < member
      case _ => false
    }

    function Effect(own: Option<uint32>): Source -> Option<Source> {
      (s: Source) => if Drops(s, own) then None else Some(Rewrite(s))
    }

    function Rewrite(s: Source): Source {
      match this
      case SenderSweep(check) => ExpireSender(s, check)
      case NoteSweep(check) => ExpireNote(s, check)
      case MultipleSweep(sender, _, _, note) => ExpireSender(ExpireNote(s, note), sender)
      case _ => s
    }
  }

  function ExpireSender(s: Source, check: real): Source {
    if s.issender && s.stats.lastrtptime < check then s.(issender := false) else s
  }

  function ExpireNote(s: Source, check: real): Source {
    if s.sdes.note != [] && check > s.stats.lastnotetime then s.(sdes := s.sdes.(note := [])) else s
  }

  function FilterMap(s: seq<Source>, f: Source -> Option<Source>): seq<Source> {
    if s == [] then []
    else
      var r := f(s[|s| - 1]);
      FilterMap(s[..|s| - 1], f) + if r.Some? then [r.value] else []
  }

  datatype Counts = Counts(total: int, senders: int, active: int)

  function CountsOf(s: seq<Source>): Counts {
    Counts(|s|, Count(s, IsSender()), Count(s, IsActive()))
  }

  function Recounted(t: Table, entries: seq<Source>): Table {
    var c := CountsOf(entries);
    t.(entries := entries, total := c.total, senders := c.senders, active := c.active)
  }

  function RunSweep(t: Table, sw: Sweep): Table {
    Recounted(t, FilterMap(t.entries, sw.Effect(t.own)))
  }

  // ---- Runs ----

  datatype Event =
    | Create(ssrc: uint32)
    | Delete
    | Sent(now: real)
    | Rtp(packet: Packet, now: real, sender: Option<Address>, handled: bool)
    | Refresh(ssrc: uint32, now: real, sender: Option<Address>)
    | Sdes(ssrc: uint32, id: int, data: seq<byte>, now: real, sender: Option<Address>)
    | Bye(ssrc: uint32, now: real, sender: Option<Address>)
    | Take(ssrc: uint32)
    | Timeout(sweep: Sweep)
    | Clear

  function Step(t: Table, e: Event): Table {
    match e
    case Create(ssrc) => CreateOwn(t, ssrc)
    case Delete => DeleteOwn(t)
    case Sent(now) => SentRtpPacket(t, now)
    case Rtp(p, now, sender, handled) => ProcessRtpPacket(t, p, now, sender, handled)
    case Refresh(ssrc, now, sender) => RefreshSource(t, ssrc, now, sender)
    case Sdes(ssrc, id, data, now, sender) => ProcessSdesItem(t, ssrc, id, data, now, sender)
    case Bye(ssrc, now, sender) => ProcessByeFor(t, ssrc, now, sender)
    case Take(ssrc) => TakePacket(t, ssrc)
    case Timeout(sw) => RunSweep(t, sw)
    case Clear => Empty(t.probationtype)
  }

  // Whether handling an event finds a collision with the own entry.
  function Collides(t: Table, e: Event): bool {
    match e
    case Rtp(p, now, sender, handled) => RtpCollision(t, p, now, sender, handled)
    case Refresh(ssrc, _, sender) => OwnCollision(t, ssrc, sender, false)
    case Sdes(ssrc, id, _, _, sender) => SDES_CNAME <= id <= SDES_NOTE && OwnCollision(t, ssrc, sender, false)
    case Bye(ssrc, _, sender) => OwnCollision(t, ssrc, sender, false)
    case _ => false
  }

  function Run(t: Table, events: seq<Event>): Table {
    if events == [] then t else Step(Run(t, events[..|events| - 1]), events[|events| - 1])
  }

  // Whether any of some events does.
  function RunCollides(t: Table, events: seq<Event>): bool {
    events != [] &&
    var front := events[..|events| - 1];
    (RunCollides(t, front) || Collides(Run(t, front), events[|events| - 1]))
  }
}
