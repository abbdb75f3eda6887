// What the entries of the source table tell about the events so far: when a source
// was last heard from, what it has said, and from which address it may be heard.
module SourceHistory {
  import opened Types
  import opened SourceState
  import opened SourceTable
  import opened SourceCounters

  // ---- The entry of one SSRC ----

  function Entry(t: Table, ssrc: uint32): Option<Source> {
    if GotEntry(t, ssrc) then Some(t.entries[Find(t.entries, ssrc)]) else None
  }

  // The entry, or the one that would be created.
  function Was(t: Table, ssrc: uint32): Source {
    if GotEntry(t, ssrc) then t.entries[Find(t.entries, ssrc)] else NewSource(ssrc, t.probationtype)
  }

  lemma EntryAt(t: Table, i: nat)
    requires UniqueSsrcs(t.entries) && i < |t.entries|
    ensures Entry(t, t.entries[i].ssrc) == Some(t.entries[i])
  {
    FindIs(t.entries, i);
  }

  lemma NoEntry(t: Table, ssrc: uint32)
    requires forall i :: 0 <= i < |t.entries| ==> t.entries[i].ssrc != ssrc
    ensures Entry(t, ssrc) == None
  {
  }

  lemma UpdateEntry(t: Table, i: nat, x: Source, s: uint32)
    requires UniqueSsrcs(t.entries) && i < |t.entries| && x.ssrc == t.entries[i].ssrc
    ensures Entry(Update(t, i, x), s) == if s == x.ssrc then Some(x) else Entry(t, s)
  {
    var r := Update(t, i, x);
    assert UniqueSsrcs(r.entries);
    if s == x.ssrc {
      EntryAt(r, i);
    } else if GotEntry(t, s) {
      EntryAt(r, Find(t.entries, s));
    } else {
      FindMissing(t.entries, s);
      NoEntry(r, s);
    }
  }

  lemma ObtainEntry(t: Table, c: uint32, s: uint32)
    requires UniqueSsrcs(t.entries)
    ensures UniqueSsrcs(Obtain(t, c).entries)
    ensures Entry(Obtain(t, c), s) == if s == c then Some(Was(t, c)) else Entry(t, s)
  {
    if !GotEntry(t, c) {
      var r := Obtain(t, c);
      FindMissing(t.entries, c);
      if s == c {
        EntryAt(r, |t.entries|);
      } else if GotEntry(t, s) {
        EntryAt(r, Find(t.entries, s));
      } else {
        FindMissing(t.entries, s);
        NoEntry(r, s);
      }
    }
  }

  // ---- What does not count as being heard ----

  // The address of a channel, once it is set, stays.
  predicate Bound(x: Source, isrtp: bool) {
    if isrtp then x.isrtpaddrset else x.isrtcpaddrset
  }

  function BoundTo(x: Source, isrtp: bool): Option<Address> {
    if isrtp then x.rtpaddr else x.rtcpaddr
  }

  predicate SameBinding(a: Source, b: Source, isrtp: bool) {
    Bound(a, isrtp) ==> Bound(b, isrtp) && BoundTo(b, isrtp) == BoundTo(a, isrtp)
  }

  // From a to b the source has said nothing.
  predicate Quiet(a: Source, b: Source) {
    && b.ssrc == a.ssrc && b.ownssrc == a.ownssrc && b.stats == a.stats
    && b.byetime == a.byetime && b.receivedbye == a.receivedbye && b.issender == a.issender && b.sdes == a.sdes
    && (a.validated ==> b.validated) && SameBinding(a, b, true) && SameBinding(a, b, false)
  }

  lemma QuietThen(a: Source, b: Source, c: Source)
    requires Quiet(a, b) && Quiet(b, c)
    ensures Quiet(a, c)
  {
  }

  lemma CheckIsQuiet(x: Source, sender: Option<Address>, isrtp: bool)
    ensures var c := CheckCollision(x, sender, isrtp);
            && Quiet(x, c.src) && c.src.validated == x.validated
            && (!c.collision ==> Bound(c.src, isrtp) && BoundTo(c.src, isrtp) == sender)
  {
  }

  lemma FirstAddressIsQuiet(ssrc: uint32, probationtype: ProbationType, sender: Option<Address>, isrtp: bool)
    ensures var x := NewSource(ssrc, probationtype);
            var y := SetAddress(x, sender, isrtp);
            Quiet(x, y) && y.validated == x.validated && Bound(y, isrtp) && BoundTo(y, isrtp) == sender
  {
  }

  lemma CsrcIsQuiet(x: Source)
    ensures Quiet(x, SetCsrc(x)) && SetCsrc(x).validated
  {
  }

  // From t to r the source with this SSRC has said nothing, and it has not gone.
  predicate QuietStep(t: Table, r: Table, s: uint32) {
    Quiet(Was(t, s), Was(r, s)) && (GotEntry(t, s) ==> GotEntry(r, s))
  }

  lemma SameIsQuiet(t: Table, r: Table, s: uint32)
    requires Entry(r, s) == Entry(t, s) && r.probationtype == t.probationtype
    ensures QuietStep(t, r, s) && Was(r, s) == Was(t, s)
  {
  }

  // ---- The entry that an event is about ----

  // The source after the address check.
  function Checked(t: Table, ssrc: uint32, sender: Option<Address>, isrtp: bool): Source {
    var a := Admit(t, ssrc, sender, isrtp);
    a.table.entries[a.pos]
  }

  predicate Passes(t: Table, ssrc: uint32, sender: Option<Address>, isrtp: bool) {
    !Admit(t, ssrc, sender, isrtp).collision
  }

  lemma CheckedIs(t: Table, c: uint32, sender: Option<Address>, isrtp: bool)
    ensures var x, y := Was(t, c), Checked(t, c, sender, isrtp);
            && Quiet(x, y) && y.ssrc == c && y.validated == x.validated
            && (Passes(t, c, sender, isrtp) ==> Bound(y, isrtp) && BoundTo(y, isrtp) == sender)
            && (Passes(t, c, sender, isrtp) <==> !GotEntry(t, c) || !CheckCollision(x, sender, isrtp).collision)
  {
    ObtainFinds(t, c);
    if GotEntry(t, c) {
      CheckIsQuiet(Was(t, c), sender, isrtp);
    } else {
      FirstAddressIsQuiet(c, t.probationtype, sender, isrtp);
    }
  }

  lemma AdmitEntry(t: Table, c: uint32, sender: Option<Address>, isrtp: bool, s: uint32)
    requires UniqueSsrcs(t.entries)
    ensures var a := Admit(t, c, sender, isrtp);
            && UniqueSsrcs(a.table.entries) && a.table.probationtype == t.probationtype && a.table.own == t.own
            && Entry(a.table, s) == if s == c then Some(Checked(t, c, sender, isrtp)) else Entry(t, s)
  {
    hide CheckCollision, SetAddress, Quiet;
    ObtainEntry(t, c, s);
    ObtainFinds(t, c);
    CheckedIs(t, c, sender, isrtp);
    var a, r := Admit(t, c, sender, isrtp), Obtain(t, c);
    CheckedSsrc(t, c, sender, isrtp);
    UpdateEntry(r, a.pos, a.table.entries[a.pos], s);
  }

  lemma CheckedSsrc(t: Table, c: uint32, sender: Option<Address>, isrtp: bool)
    ensures var a := Admit(t, c, sender, isrtp);
            && a.pos < |Obtain(t, c).entries| && a.table == Update(Obtain(t, c), a.pos, a.table.entries[a.pos])
            && a.table.entries[a.pos].ssrc == Obtain(t, c).entries[a.pos].ssrc == c
  {
    ObtainFinds(t, c);
  }

  // An update of the entry that an event is about.
  lemma EventEntry(t: Table, c: uint32, sender: Option<Address>, isrtp: bool, y: Source, r: Table, s: uint32)
    requires UniqueSsrcs(t.entries) && y.ssrc == c
    requires var a := Admit(t, c, sender, isrtp);
             r.entries == Update(a.table, a.pos, y).entries && r.probationtype == t.probationtype
    ensures UniqueSsrcs(r.entries) && Entry(r, s) == if s == c then Some(y) else Entry(t, s)
  {
    hide Admit;
    var a := Admit(t, c, sender, isrtp);
    AdmitEntry(t, c, sender, isrtp, s);
    CheckedSsrc(t, c, sender, isrtp);
    UpdateEntry(a.table, a.pos, y, s);
    assert Entry(r, s) == Entry(Update(a.table, a.pos, y), s);
  }

  lemma CsrcEntry(t: Table, c: uint32, sender: Option<Address>, s: uint32)
    requires UniqueSsrcs(t.entries)
    ensures var r := ProcessCsrc(t, c, sender);
            && UniqueSsrcs(r.entries) && r.probationtype == t.probationtype && r.own == t.own && QuietStep(t, r, s)
            && (s != c ==> Entry(r, s) == Entry(t, s))
            && (s == c && !GotEntry(t, c) ==> GotEntry(r, c) && Was(r, c).validated)
  {
    hide Quiet, CheckCollision, SetCsrc;
    ObtainEntry(t, c, s);
    ObtainFinds(t, c);
    var r := Obtain(t, c);
    var i := Find(r.entries, c);
    var y := CsrcMarked(t, c, sender);
    assert ProcessCsrc(t, c, sender).entries == Update(r, i, y).entries;
    CsrcMarkedIs(t, c, sender);
    UpdateEntry(r, i, y, s);
    assert Entry(ProcessCsrc(t, c, sender), s) == Entry(Update(r, i, y), s);
    QuietSelf(Was(t, s));
  }

  lemma QuietSelf(x: Source)
    ensures Quiet(x, x)
  {
  }

  function CsrcMarked(t: Table, c: uint32, sender: Option<Address>): Source {
    var x := Was(t, c);
    if !GotEntry(t, c) then SetCsrc(x)
    else
      var r := CheckCollision(x, sender, true);
      if r.collision then r.src else SetCsrc(r.src)
  }

  lemma CsrcMarkedIs(t: Table, c: uint32, sender: Option<Address>)
    ensures var y := CsrcMarked(t, c, sender);
            Quiet(Was(t, c), y) && y.ssrc == Was(t, c).ssrc == c && (!GotEntry(t, c) ==> y.validated)
  {
    hide Quiet, CheckCollision;
    var x := Was(t, c);
    var r := CheckCollision(x, sender, true);
    CheckIsQuiet(x, sender, true);
    CsrcIsQuiet(x);
    CsrcIsQuiet(r.src);
    QuietThen(x, r.src, SetCsrc(r.src));
    QuietSsrc(x, CsrcMarked(t, c, sender));
  }

  lemma QuietSsrc(a: Source, b: Source)
    requires Quiet(a, b)
    ensures b.ssrc == a.ssrc
  {
  }

  lemma {:induction false} CsrcsEntry(t: Table, csrcs: seq<uint32>, sender: Option<Address>, s: uint32)
    requires UniqueSsrcs(t.entries)
    ensures var r := ProcessCsrcs(t, csrcs, sender);
            && UniqueSsrcs(r.entries) && r.probationtype == t.probationtype && r.own == t.own && QuietStep(t, r, s)
            && (s !in csrcs ==> Entry(r, s) == Entry(t, s))
    decreases csrcs
  {
    hide Quiet, ProcessCsrc;
    if csrcs == [] {
      QuietSelf(Was(t, s));
    } else {
      var u := ProcessCsrc(t, csrcs[0], sender);
      CsrcEntry(t, csrcs[0], sender, s);
      CsrcsEntry(u, csrcs[1..], sender, s);
      QuietThen(Was(t, s), Was(u, s), Was(ProcessCsrcs(t, csrcs, sender), s));
    }
  }

  // ---- What an event says about a source ----

  // Anything at all, an RTP packet of a valid source, a BYE, or a NOTE item.
  datatype Kind = Message | Data | Goodbye | Note

  // The time that an entry has for the last of each kind.
  function Time(x: Source, k: Kind): real {
    match k
    case Message => x.stats.lastmsgtime
    case Data => x.stats.lastrtptime
    case Goodbye => x.byetime
    case Note => x.stats.lastnotetime
  }

  function TimeOf(e: Event): real {
    match e
    case Rtp(_, now, _, _) => now
    case Refresh(_, now, _) => now
    case Sdes(_, _, _, now, _) => now
    case Bye(_, now, _) => now
    case _ => 0.0
  }

  // The event comes from this source and passes the address check.
  predicate From(t: Table, e: Event, s: uint32) {
    match e
    case Rtp(p, _, sender, _) => p.ssrc == s && Passes(t, s, sender, true)
    case Refresh(ssrc, _, sender) => ssrc == s && Passes(t, s, sender, false)
    case Sdes(ssrc, id, _, _, sender) => ssrc == s && SDES_CNAME <= id <= SDES_NOTE && Passes(t, s, sender, false)
    case Bye(ssrc, _, sender) => ssrc == s && Passes(t, s, sender, false)
    case _ => false
  }

  // The event is of the kind, and comes from this source. An RTP packet counts as
  // data when the source is valid after it.
  predicate Carries(t: Table, e: Event, s: uint32, k: Kind) {
    From(t, e, s) &&
    match k
    case Message => true
    case Data => e.Rtp? && Was(Step(t, e), s).validated
    case Goodbye => e.Bye?
    case Note => e.Sdes? && e.id == SDES_NOTE
  }

  // The item with this number after the event.
  function ItemAfter(t: Table, e: Event, s: uint32, id: int, before: seq<byte>): seq<byte> {
    if e.Sdes? && e.id == id && From(t, e, s) then
      if (id == SDES_CNAME || id == SDES_NAME || id == SDES_EMAIL || id == SDES_TOOL) && before != [] then before
      else e.data
    else before
  }

  // The channel over which the event came is bound to its sender.
  predicate Addressed(x: Source, e: Event)
    requires e.Rtp? || e.Refresh? || e.Sdes? || e.Bye?
  {
    Bound(x, e.Rtp?) && BoundTo(x, e.Rtp?) == e.sender
  }

  // What the event does to the entry of a source that stays: nothing else changes
  // its times, its flags, its items or its addresses.
  ghost predicate Tells(t: Table, e: Event, s: uint32, x: Source, y: Source) {
    && (forall k: Kind :: Time(y, k) == if Carries(t, e, s, k) then TimeOf(e) else Time(x, k))
    && y.receivedbye == (x.receivedbye || Carries(t, e, s, Goodbye))
    && y.issender == (x.issender || Carries(t, e, s, Data))
    && (x.validated ==> y.validated)
    && (forall id :: 1 <= id <= 7 ==> y.sdes.Get(id) == ItemAfter(t, e, s, id, x.sdes.Get(id)))
    && SameBinding(x, y, true) && SameBinding(x, y, false)
    && (From(t, e, s) ==> Addressed(y, e))
  }

  lemma QuietTells(t: Table, e: Event, s: uint32, x: Source, y: Source)
    requires Quiet(x, y) && !From(t, e, s)
    ensures Tells(t, e, s, x, y)
  {
    hide Passes, Step, SdesInfo.Get;
  }

  lemma StatsTimes(st: Stats, seq16: uint16, now: real, applyprobation: bool)
    ensures var o := ProcessStats(st, seq16, now, false, applyprobation);
            && o.stats.lastmsgtime == now && o.stats.lastnotetime == st.lastnotetime
            && o.stats.lastrtptime == (if o.accept then now else st.lastrtptime)
            && (!applyprobation ==> o.accept)
  {
  }

  lemma RtpChanges(c: Source, p: Packet, now: real, handled: bool, src: Source)
    requires src == ProcessRtp(c, p, now, handled).src && !c.ownssrc
    ensures src.ssrc == c.ssrc && src.ownssrc == c.ownssrc && src.sdes == c.sdes && src.byetime == c.byetime
    ensures src.receivedbye == c.receivedbye && src.issender == (c.issender || src.validated)
    ensures src.stats.lastmsgtime == now && src.stats.lastrtptime == if src.validated then now else c.stats.lastrtptime
    ensures src.stats.lastnotetime == c.stats.lastnotetime && (c.validated ==> src.validated)
    ensures SameBinding(c, src, true) && SameBinding(c, src, false)
  {
    hide Insert, Queued, SameAddress, ProcessStats;
    StatsTimes(c.stats, Wrap16(p.extseqnr), now, !c.validated && !c.probationtype.NoProbation?);
  }

  lemma RtpTells(t: Table, e: Event, s: uint32, x: Source, c: Source, src: Source, y: Source)
    requires Quiet(x, c) && !x.ownssrc && e.Rtp? && From(t, e, s) && Addressed(c, e)
    requires src == ProcessRtp(c, e.packet, e.now, e.handled).src && Quiet(src, y) && y.validated == src.validated
    requires y == Was(Step(t, e), s)
    ensures Tells(t, e, s, x, y)
  {
    hide ProcessRtp, Passes, Step, SdesInfo.Get;
    RtpChanges(c, e.packet, e.now, e.handled, src);
  }

  lemma NotOwn(t: Table, s: uint32)
    requires Inv(t) && t.own != Some(s)
    ensures !Was(t, s).ownssrc
  {
    if GotEntry(t, s) {
      assert EntryOk(t.entries[Find(t.entries, s)], t.own);
    }
  }

  // The entry of a source between the packet itself and its contributing sources.
  lemma RtpAbout(t: Table, e: Event, s: uint32, u: Table, src: Source)
    requires UniqueSsrcs(t.entries) && t.own != Some(s) && !Was(t, s).ownssrc
    requires e.Rtp? && e.packet.ssrc == s && Passes(t, s, e.sender, true)
    requires src == ProcessRtp(Checked(t, s, e.sender, true), e.packet, e.now, e.handled).src
    requires UniqueSsrcs(u.entries) && Entry(u, s) == Some(src)
    requires Step(t, e) == if src.validated then ProcessCsrcs(u, e.packet.csrcs, e.sender) else u
    ensures Tells(t, e, s, Was(t, s), Was(Step(t, e), s))
  {
    hide ProcessRtp, Passes, Tells, Checked, Step, ProcessCsrcs;
    CheckedIs(t, s, e.sender, true);
    if src.validated {
      CsrcsEntry(u, e.packet.csrcs, e.sender, s);
    } else {
      QuietSelf(src);
    }
    RtpTells(t, e, s, Was(t, s), Checked(t, s, e.sender, true), src, Was(Step(t, e), s));
  }

  lemma RtpStep(t: Table, e: Event, s: uint32)
    requires Inv(t) && e.Rtp? && t.own != Some(s)
    ensures Tells(t, e, s, Was(t, s), Was(Step(t, e), s)) && Step(t, e).own == t.own
    ensures UniqueSsrcs(Step(t, e).entries) && (GotEntry(t, s) ==> GotEntry(Step(t, e), s))
  {
    hide ProcessRtp, Tells, Admit, ProcessCsrcs, CountersOk, EntryOk;
    var p, c := e.packet, e.packet.ssrc;
    var a := Admit(t, c, e.sender, true);
    NotOwn(t, s);
    AdmitEntry(t, c, e.sender, true, s);
    CheckedIs(t, c, e.sender, true);
    if a.collision {
      QuietSelf(Was(t, s));
      QuietTells(t, e, s, Was(t, s), Was(a.table, s));
    } else {
      var src := ProcessRtp(Checked(t, c, e.sender, true), p, e.now, e.handled).src;
      var u := UpdateCounted(a.table, a.pos, src);
      RtpSsrc(Checked(t, c, e.sender, true), p, e.now, e.handled);
      EventEntry(t, c, e.sender, true, src, u, s);
      CsrcsEntry(u, p.csrcs, e.sender, s);
      if c == s {
        RtpAbout(t, e, s, u, src);
      } else {
        QuietSelf(Was(t, s));
        QuietTells(t, e, s, Was(t, s), Was(Step(t, e), s));
      }
    }
  }

  lemma RtpSsrc(c: Source, p: Packet, now: real, handled: bool)
    ensures ProcessRtp(c, p, now, handled).src.ssrc == c.ssrc
  {
  }

  // An event that rewrites the one entry it is about, or collides.
  lemma RewriteStep(t: Table, e: Event, s: uint32, c: uint32, sender: Option<Address>, y: Source)
    requires Inv(t) && t.own != Some(s) && (e.Refresh? || e.Sdes? || e.Bye?) && y.ssrc == c
    requires var a := Admit(t, c, sender, false);
             Step(t, e) == if a.collision then a.table else
               a.table.(entries := Update(a.table, a.pos, y).entries, active := Step(t, e).active,
                        senders := Step(t, e).senders)
    requires From(t, e, s) <==> c == s && Passes(t, c, sender, false)
    requires From(t, e, s) ==> Tells(t, e, s, Was(t, s), y)
    ensures Tells(t, e, s, Was(t, s), Was(Step(t, e), s)) && Step(t, e).own == t.own
    ensures UniqueSsrcs(Step(t, e).entries) && (GotEntry(t, s) ==> GotEntry(Step(t, e), s))
  {
    hide Tells, Admit, From, CountersOk, EntryOk, Step;
    var a := Admit(t, c, sender, false);
    AdmitEntry(t, c, sender, false, s);
    CheckedIs(t, c, sender, false);
    if a.collision {
      QuietSelf(Was(t, s));
      QuietTells(t, e, s, Was(t, s), Was(a.table, s));
    } else {
      EventEntry(t, c, sender, false, y, Step(t, e), s);
      if c != s {
        QuietSelf(Was(t, s));
        QuietTells(t, e, s, Was(t, s), Was(Step(t, e), s));
      }
    }
  }

  lemma RefreshTells(t: Table, e: Event, s: uint32, c: Source)
    requires e.Refresh? && From(t, e, s) && Quiet(Was(t, s), c) && Addressed(c, e)
    ensures Tells(t, e, s, Was(t, s), c.WithMessageTime(e.now))
  {
    hide Passes, Step, SdesInfo.Get, SameAddress;
  }

  lemma ByeTells(t: Table, e: Event, s: uint32, c: Source)
    requires e.Bye? && From(t, e, s) && Quiet(Was(t, s), c) && Addressed(c, e)
    ensures Tells(t, e, s, Was(t, s), ProcessBye(c, e.now))
  {
    hide Passes, Step, SdesInfo.Get, SameAddress;
  }

  // Setting an item changes that item only.
  lemma SetGet(info: SdesInfo, id: int, data: seq<byte>, other: int)
    requires 1 <= id <= 7 && 1 <= other <= 7
    ensures info.Set(id, data).Get(other) == if other == id then data else info.Get(other)
  {
  }

  lemma SdesTimes(c: Source, e: Event, y: Source)
    requires e.Sdes? && 1 <= e.id <= 7 && y == ProcessSdes(c, e.id, e.data, e.now).src
    ensures y.ssrc == c.ssrc && y.stats.lastmsgtime == e.now && y.stats.lastrtptime == c.stats.lastrtptime
    ensures y.stats.lastnotetime == (if e.id == 7 then e.now else c.stats.lastnotetime) && y.byetime == c.byetime
    ensures y.receivedbye == c.receivedbye && y.issender == c.issender && (c.validated ==> y.validated)
    ensures SameBinding(c, y, true) && SameBinding(c, y, false)
    ensures y.sdes == if Keeps(c.sdes, e.id) then c.sdes else c.sdes.Set(e.id, e.data)
    ensures !Keeps(c.sdes, e.id) && e.id == 1 ==> y.validated
  {
    hide ProcessSdes, Keeps, SdesInfo.Set, SdesInfo.Get, SameAddress;
    SdesIs(c, e.id, e.data, e.now);
  }

  lemma SdesIs(c: Source, id: int, data: seq<byte>, now: real)
    requires 1 <= id <= 7
    ensures ProcessSdes(c, id, data, now).src ==
            WithItems(c, ItemTimes(c.stats, id, now), if Keeps(c.sdes, id) then c.sdes else c.sdes.Set(id, data),
                c.validated || (!Keeps(c.sdes, id) && id == 1))
  {
    hide WithItems, ItemTimes, Keeps, SdesInfo.Set, SdesInfo.Get;
  }

  lemma SdesTells(t: Table, e: Event, s: uint32, c: Source, y: Source)
    requires e.Sdes? && From(t, e, s) && Quiet(Was(t, s), c) && Addressed(c, e)
    requires y == ProcessSdes(c, e.id, e.data, e.now).src
    ensures Tells(t, e, s, Was(t, s), y)
  {
    hide Passes, Step, SdesInfo.Get, SdesInfo.Set, ProcessSdes, SameAddress;
    SdesTimes(c, e, y);
    forall id | 1 <= id <= 7 ensures y.sdes.Get(id) == ItemAfter(t, e, s, id, c.sdes.Get(id)) {
      SetGet(c.sdes, e.id, e.data, id);
    }
  }

  lemma SilentStep(t: Table, e: Event, s: uint32)
    requires Entry(Step(t, e), s) == Entry(t, s) && Step(t, e).probationtype == t.probationtype && !From(t, e, s)
    ensures Tells(t, e, s, Was(t, s), Was(Step(t, e), s)) && (GotEntry(t, s) ==> GotEntry(Step(t, e), s))
  {
    hide Tells, From, Step;
    QuietSelf(Was(t, s));
    QuietTells(t, e, s, Was(t, s), Was(Step(t, e), s));
  }

  // ---- The other events ----

  lemma CreateStep(t: Table, c: uint32, s: uint32)
    requires Inv(t) && CreateOwn(t, c).own != Some(s)
    ensures Entry(CreateOwn(t, c), s) == Entry(t, s) && CreateOwn(t, c).probationtype == t.probationtype
  {
    hide OwnEntry, CountersOk, EntryOk;
    if t.own.None? && !GotEntry(t, c) {
      ObtainEntry(t, c, s);
      ObtainFinds(t, c);
      var r, i := Obtain(t, c), |t.entries|;
      OwnSsrc(r.entries[i]);
      UpdateEntry(r, i, OwnEntry(r.entries[i]), s);
      assert Entry(CreateOwn(t, c), s) == Entry(Update(r, i, OwnEntry(r.entries[i])), s);
    }
  }

  lemma OwnSsrc(x: Source)
    ensures OwnEntry(x).ssrc == x.ssrc
  {
  }

  lemma RemovedUnique(s: seq<Source>, i: nat, r: seq<Source>)
    requires UniqueSsrcs(s) && i < |s| && r == RemoveAt(s, i)
    ensures |r| == |s| - 1 && UniqueSsrcs(r) && forall k :: 0 <= k < |r| ==> r[k].ssrc != s[i].ssrc
    ensures forall k {:trigger s[k]} :: 0 <= k < |s| && k != i ==> s[k] == r[if k < i then k else k - 1]
  {
  }

  lemma RemoveEntry(t: Table, i: nat, r: Table, s: uint32)
    requires UniqueSsrcs(t.entries) && i < |t.entries| && r.entries == RemoveAt(t.entries, i)
    ensures Entry(r, s) == if s == t.entries[i].ssrc then None else Entry(t, s)
  {
    hide RemoveAt;
    RemovedUnique(t.entries, i, r.entries);
    if s == t.entries[i].ssrc {
      NoEntry(r, s);
    } else if GotEntry(t, s) {
      var k := Find(t.entries, s);
      EntryAt(r, if k < i then k else k - 1);
    } else {
      RemovedMissing(t, i, r, s);
    }
  }

  lemma RemovedMissing(t: Table, i: nat, r: Table, s: uint32)
    requires i < |t.entries| && r.entries == RemoveAt(t.entries, i) && !GotEntry(t, s)
    ensures Entry(r, s) == None
  {
    FindMissing(t.entries, s);
    NoEntry(r, s);
  }

  lemma DeleteStep(t: Table, s: uint32)
    requires Inv(t)
    ensures Entry(DeleteOwn(t), s) == if t.own == Some(s) then None else Entry(t, s)
  {
    if t.own.Some? {
      RemoveEntry(t, Find(t.entries, t.own.value), DeleteOwn(t), s);
    }
  }

  lemma SentStep(t: Table, now: real, s: uint32)
    requires Inv(t) && t.own != Some(s)
    ensures Entry(SentRtpPacket(t, now), s) == Entry(t, s)
  {
    if t.own.Some? {
      var i := Find(t.entries, t.own.value);
      var y := SentRtp(t.entries[i], now);
      UpdateEntry(t, i, y, s);
      assert Entry(SentRtpPacket(t, now), s) == Entry(Update(t, i, y), s);
    }
  }

  lemma TakeStep(t: Table, c: uint32, s: uint32)
    requires Inv(t)
    ensures QuietStep(t, TakePacket(t, c), s)
  {
    QuietSelf(Was(t, s));
    if GotEntry(t, c) {
      var i := Find(t.entries, c);
      UpdateEntry(t, i, NextPacket(t.entries[i]).src, s);
    }
  }

  // Every event but a sweep or a Clear: the entry of another source changes as the
  // event tells, and it goes only with the own entry.
  lemma StepTells(t: Table, e: Event, s: uint32)
    requires Inv(t) && !e.Timeout? && !e.Clear? && Step(t, e).own != Some(s) && t.own != Some(s)
    ensures Tells(t, e, s, Was(t, s), Was(Step(t, e), s)) && (GotEntry(t, s) ==> GotEntry(Step(t, e), s))
  {
    hide Tells, Admit, ProcessSdes, ProcessBye, Source.WithMessageTime, ProcessRtpPacket, CreateOwn, DeleteOwn,
         SentRtpPacket, TakePacket, Passes, Inv, Quiet;
    match e
    case Create(c) =>
      CreateStep(t, c, s);
      SilentStep(t, e, s);
    case Delete =>
      DeleteStep(t, s);
      DeleteKeepsType(t);
      SilentStep(t, e, s);
    case Sent(now) =>
      SentStep(t, now, s);
      SentKeepsType(t, now);
      SilentStep(t, e, s);
    case Take(c) =>
      TakeStep(t, c, s);
      QuietTells(t, e, s, Was(t, s), Was(Step(t, e), s));
    case Rtp(p, now, sender, handled) => RtpStep(t, e, s);
    case Refresh(_, _, _) => RefreshStep(t, e, s);
    case Sdes(_, _, _, _, _) => SdesStep(t, e, s);
    case Bye(_, _, _) => ByeStep(t, e, s);
  }

  lemma DeleteKeepsType(t: Table)
    ensures DeleteOwn(t).probationtype == t.probationtype
  {
  }

  lemma SentKeepsType(t: Table, now: real)
    ensures SentRtpPacket(t, now).probationtype == t.probationtype
  {
  }

  lemma RefreshStep(t: Table, e: Event, s: uint32)
    requires Inv(t) && e.Refresh? && t.own != Some(s)
    ensures Tells(t, e, s, Was(t, s), Was(Step(t, e), s)) && (GotEntry(t, s) ==> GotEntry(Step(t, e), s))
  {
    hide Tells, Admit, Inv, Passes;
    var c := Checked(t, e.ssrc, e.sender, false);
    CheckedIs(t, e.ssrc, e.sender, false);
    if From(t, e, s) {
      RefreshTells(t, e, s, c);
    }
    PassesIs(t, e.ssrc, e.sender);
    RewriteStep(t, e, s, e.ssrc, e.sender, c.WithMessageTime(e.now));
  }

  lemma PassesIs(t: Table, c: uint32, sender: Option<Address>)
    ensures Passes(t, c, sender, false) <==> !Admit(t, c, sender, false).collision
  {
  }

  lemma SdesStep(t: Table, e: Event, s: uint32)
    requires Inv(t) && e.Sdes? && t.own != Some(s)
    ensures Tells(t, e, s, Was(t, s), Was(Step(t, e), s)) && (GotEntry(t, s) ==> GotEntry(Step(t, e), s))
  {
    hide Tells, Admit, Inv, Passes, ProcessSdes;
    if 1 <= e.id <= 7 {
      var c := Checked(t, e.ssrc, e.sender, false);
      var y := ProcessSdes(c, e.id, e.data, e.now).src;
      CheckedIs(t, e.ssrc, e.sender, false);
      SdesTimes(c, e, y);
      if From(t, e, s) {
        SdesTells(t, e, s, c, y);
      }
      PassesIs(t, e.ssrc, e.sender);
      RewriteStep(t, e, s, e.ssrc, e.sender, y);
    } else {
      SilentStep(t, e, s);
    }
  }

  lemma ByeStep(t: Table, e: Event, s: uint32)
    requires Inv(t) && e.Bye? && t.own != Some(s)
    ensures Tells(t, e, s, Was(t, s), Was(Step(t, e), s)) && (GotEntry(t, s) ==> GotEntry(Step(t, e), s))
  {
    hide Tells, Admit, Passes, EntryOk, CountersOk;
    var c := Checked(t, e.ssrc, e.sender, false);
    CheckedIs(t, e.ssrc, e.sender, false);
    if t.own == Some(e.ssrc) {
      AdmitEntry(t, e.ssrc, e.sender, false, s);
      SilentStep(t, e, s);
    } else {
      if From(t, e, s) {
        ByeTells(t, e, s, c);
      }
      PassesIs(t, e.ssrc, e.sender);
      RewriteStep(t, e, s, e.ssrc, e.sender, ProcessBye(c, e.now));
    }
  }

  // ---- Sweeps ----

  // The time with which a sweep compares each kind.
  function Check(sw: Sweep, k: Kind): Option<real> {
    match sw
    case SenderSweep(check) => if k == Data then Some(check) else None
    case ByeSweep(check) => if k == Goodbye then Some(check) else None
    case MemberSweep(check) => if k == Message then Some(check) else None
    case NoteSweep(check) => if k == Note then Some(check) else None
    case MultipleSweep(sender, bye, member, note) =>
      Some(match k case Data => sender case Goodbye => bye case Message => member case Note => note)
  }

  // The sweep finds this time too old.
  predicate TooOld(sw: Sweep, k: Kind, time: real) {
    Check(sw, k).Some? && time < Check(sw, k).value
  }

  lemma {:induction false} FilterMapKept(s: seq<Source>, f: Source -> Option<Source>, i: nat) returns (j: nat)
    requires i < |s| && f(s[i]).Some?
    ensures j < |FilterMap(s, f)| && FilterMap(s, f)[j] == f(s[i]).value
  {
    if i < |s| - 1 {
      j := FilterMapKept(s[..|s| - 1], f, i);
    } else {
      j := |FilterMap(s[..|s| - 1], f)|;
    }
  }

  lemma {:induction false} FilterMapGone(s: seq<Source>, f: Source -> Option<Source>, own: Option<uint32>, ssrc: uint32)
    requires Gentle(f, own) && forall i :: 0 <= i < |s| && s[i].ssrc == ssrc ==> f(s[i]).None?
    ensures forall i :: 0 <= i < |FilterMap(s, f)| ==> FilterMap(s, f)[i].ssrc != ssrc
  {
    if s != [] {
      FilterMapGone(s[..|s| - 1], f, own, ssrc);
    }
  }

  lemma SweepEntry(t: Table, sw: Sweep, s: uint32)
    requires Inv(t)
    ensures Entry(RunSweep(t, sw), s) == if GotEntry(t, s) then sw.Effect(t.own)(Was(t, s)) else None
  {
    hide Sweep.Effect, EntryOk, CountersOk;
    var f, r := sw.Effect(t.own), RunSweep(t, sw);
    SweepIsGentle(sw, t.own);
    SweepKeeps(t, sw);
    if GotEntry(t, s) && f(Was(t, s)).Some? {
      var j := FilterMapKept(t.entries, f, Find(t.entries, s));
      EntryAt(r, j);
    } else {
      forall i | 0 <= i < |t.entries| && t.entries[i].ssrc == s ensures f(t.entries[i]).None? {
        FindIs(t.entries, i);
      }
      FilterMapGone(t.entries, f, t.own, s);
      NoEntry(r, s);
    }
  }

  // Only the sender flag and the note may have been taken away.
  ghost predicate Faded(x: Source, y: Source, nosender: bool, nonote: bool) {
    && y.ssrc == x.ssrc && y.stats == x.stats && y.byetime == x.byetime && y.receivedbye == x.receivedbye
    && y.validated == x.validated && y.issender == (x.issender && !nosender)
    && y.sdes == (if nonote then x.sdes.(note := []) else x.sdes)
    && SameBinding(x, y, true) && SameBinding(x, y, false)
  }

  lemma SenderFades(x: Source, check: real)
    ensures Faded(x, ExpireSender(x, check), x.stats.lastrtptime < check, false)
  {
    hide SameAddress;
  }

  lemma NoteFades(x: Source, check: real)
    ensures Faded(x, ExpireNote(x, check), false, x.stats.lastnotetime < check)
  {
    hide SameAddress;
    assert x.sdes.note == [] ==> x.sdes.(note := []) == x.sdes;
  }

  lemma BothFade(x: Source, y: Source, z: Source, nosender: bool, nonote: bool)
    requires Faded(x, y, false, nonote) && Faded(y, z, nosender, false)
    ensures Faded(x, z, nosender, nonote)
  {
  }

  lemma RewriteFades(x: Source, sw: Sweep)
    ensures Faded(x, sw.Rewrite(x), TooOld(sw, Data, x.stats.lastrtptime), TooOld(sw, Note, x.stats.lastnotetime))
  {
    hide ExpireSender, ExpireNote, Faded;
    match sw
    case SenderSweep(check) => SenderFades(x, check);
    case NoteSweep(check) => NoteFades(x, check);
    case ByeSweep(_) => NothingFades(x);
    case MemberSweep(_) => NothingFades(x);
    case MultipleSweep(sender, _, _, note) =>
      NoteFades(x, note);
      SenderFades(ExpireNote(x, note), sender);
      FadedStats(x, ExpireNote(x, note), false, x.stats.lastnotetime < note);
      BothFade(x, ExpireNote(x, note), sw.Rewrite(x), x.stats.lastrtptime < sender, x.stats.lastnotetime < note);
  }

  lemma NothingFades(x: Source)
    ensures Faded(x, x, false, false)
  {
  }

  lemma FadedStats(x: Source, y: Source, nosender: bool, nonote: bool)
    requires Faded(x, y, nosender, nonote)
    ensures y.stats == x.stats
  {
  }

  // What a sweep leaves of the entry of another source: nothing, if it was last
  // heard too long ago, or has said goodbye too long ago; otherwise the entry, but
  // for a sender flag and a note that are too old.
  lemma SweepTells(t: Table, sw: Sweep, s: uint32)
    requires Inv(t) && t.own != Some(s) && GotEntry(t, s)
    ensures var r, x := RunSweep(t, sw), Was(t, s);
            && (GotEntry(r, s) <==>
                  !(x.receivedbye && TooOld(sw, Goodbye, Time(x, Goodbye))) && !TooOld(sw, Message, Time(x, Message)))
            && (GotEntry(r, s) ==>
                  Faded(x, Was(r, s), TooOld(sw, Data, Time(x, Data)), TooOld(sw, Note, Time(x, Note))))
  {
    hide Faded, Sweep.Rewrite, RunSweep;
    SweepEntry(t, sw, s);
    RewriteFades(Was(t, s), sw);
  }

  // ---- Histories ----

  // When the source last did this, told from the events; None if it has not since
  // its entry was made.
  function LastTime(t: Table, events: seq<Event>, s: uint32, k: Kind): Option<real> {
    if events == [] || !GotEntry(Run(t, events), s) then None
    else
      var front, e := events[..|events| - 1], events[|events| - 1];
      if Carries(Run(t, front), e, s, k) then Some(TimeOf(e)) else LastTime(t, front, s, k)
  }

  function OrZero(time: Option<real>): real {
    if time.Some? then time.value else 0.0
  }

  // The source has sent data, and no sweep has found that too old since.
  predicate Sending(t: Table, events: seq<Event>, s: uint32) {
    events != [] && GotEntry(Run(t, events), s) &&
    var front, e := events[..|events| - 1], events[|events| - 1];
    (Carries(Run(t, front), e, s, Data) ||
     (Sending(t, front, s) && !(e.Timeout? && TooOld(e.sweep, Data, OrZero(LastTime(t, front, s, Data))))))
  }

  // The item of this number that the source has sent: the first non-empty one for
  // CNAME, NAME, EMAIL and TOOL, the last one for the others; a note no sweep has
  // found too old.
  function Item(t: Table, events: seq<Event>, s: uint32, id: int): seq<byte> {
    if events == [] || !GotEntry(Run(t, events), s) then []
    else
      var front, e := events[..|events| - 1], events[|events| - 1];
      var before := Item(t, front, s, id);
      if e.Timeout? then
        if id == SDES_NOTE && TooOld(e.sweep, Note, OrZero(LastTime(t, front, s, Note))) then [] else before
      else ItemAfter(Run(t, front), e, s, id, before)
  }

  // The entry is what the events have told.
  ghost predicate Recorded(t: Table, events: seq<Event>, s: uint32) {
    var x := Was(Run(t, events), s);
    && (forall k: Kind :: Time(x, k) == OrZero(LastTime(t, events, s, k)))
    && x.receivedbye == LastTime(t, events, s, Goodbye).Some?
    && x.issender == Sending(t, events, s)
    && forall id :: 1 <= id <= 7 ==> x.sdes.Get(id) == Item(t, events, s, id)
  }

  lemma NothingRecorded(t: Table, events: seq<Event>, s: uint32)
    requires !GotEntry(Run(t, events), s)
    ensures Recorded(t, events, s)
  {
  }

  lemma EventRecorded(t: Table, events: seq<Event>, e: Event, s: uint32)
    requires var u := Run(t, events);
             && Recorded(t, events, s) && Tells(u, e, s, Was(u, s), Was(Step(u, e), s)) && GotEntry(Step(u, e), s)
    requires !e.Timeout?
    ensures Recorded(t, events + [e], s)
  {
    hide Step, Carries, SdesInfo.Get, From, SameBinding;
    var all := events + [e];
    assert all[..|events|] == events;
    RunAppend(t, events, e);
  }

  lemma FadedTells(x: Source, y: Source, nosender: bool, nonote: bool)
    requires Faded(x, y, nosender, nonote)
    ensures (forall k: Kind :: Time(y, k) == Time(x, k)) && y.receivedbye == x.receivedbye
    ensures y.issender == (x.issender && !nosender)
    ensures forall id :: 1 <= id <= 7 ==> y.sdes.Get(id) == if id == 7 && nonote then [] else x.sdes.Get(id)
  {
  }

  lemma AfterSweep(t: Table, events: seq<Event>, sw: Sweep, s: uint32)
    requires GotEntry(Run(t, events + [Timeout(sw)]), s)
    ensures var all := events + [Timeout(sw)];
            && (forall k: Kind :: LastTime(t, all, s, k) == LastTime(t, events, s, k))
            && Sending(t, all, s) ==
               (Sending(t, events, s) && !TooOld(sw, Data, OrZero(LastTime(t, events, s, Data))))
            && forall id :: Item(t, all, s, id) ==
                 if id == 7 && TooOld(sw, Note, OrZero(LastTime(t, events, s, Note))) then []
                 else Item(t, events, s, id)
  {
    hide Step, Run;
    var all := events + [Timeout(sw)];
    assert all[..|events|] == events && all[|events|] == Timeout(sw);
  }

  lemma SweepRecorded(t: Table, events: seq<Event>, sw: Sweep, s: uint32)
    requires Recorded(t, events, s) && GotEntry(Run(t, events + [Timeout(sw)]), s)
    requires var x, y := Was(Run(t, events), s), Was(Run(t, events + [Timeout(sw)]), s);
             Faded(x, y, TooOld(sw, Data, Time(x, Data)), TooOld(sw, Note, Time(x, Note)))
    ensures Recorded(t, events + [Timeout(sw)], s)
  {
    hide Faded, Run, Time, SdesInfo.Get, LastTime, Sending, Item;
    var x, y := Was(Run(t, events), s), Was(Run(t, events + [Timeout(sw)]), s);
    FadedTells(x, y, TooOld(sw, Data, Time(x, Data)), TooOld(sw, Note, Time(x, Note)));
    AfterSweep(t, events, sw, s);
  }

  // ---- Over runs ----

  lemma StepRecorded(t: Table, events: seq<Event>, e: Event, s: uint32)
    requires Inv(Run(t, events)) && Step(Run(t, events), e).own != Some(s) && GotEntry(Step(Run(t, events), e), s)
    requires Run(t, events).own != Some(s) ==> Recorded(t, events, s)
    ensures Recorded(t, events + [e], s)
  {
    hide Recorded, Tells, Faded, Inv, Time;
    var u := Run(t, events);
    RunAppend(t, events, e);
    OwnStays(u, e, s);
    if e.Timeout? {
      SweepMakesNoEntry(u, e.sweep, s);
      SweepTells(u, e.sweep, s);
      SweepRecorded(t, events, e.sweep, s);
    } else {
      StepTells(u, e, s);
      EventRecorded(t, events, e, s);
    }
  }

  lemma SweepMakesNoEntry(t: Table, sw: Sweep, s: uint32)
    requires Inv(t) && GotEntry(RunSweep(t, sw), s)
    ensures GotEntry(t, s)
  {
    hide RunSweep, Sweep.Effect, Inv;
    SweepEntry(t, sw, s);
  }

  // The own SSRC is given up only together with its entry.
  lemma OwnStays(t: Table, e: Event, s: uint32)
    requires Inv(t) && Step(t, e).own != Some(s) && GotEntry(Step(t, e), s)
    ensures t.own != Some(s) && !e.Clear?
  {
    hide Admit, ProcessRtp, ProcessSdes, FilterMap, Inv;
    match e
    case Delete => DeleteStep(t, s);
    case Rtp(p, now, sender, handled) => RtpOwn(t, p, now, sender, handled);
    case Refresh(ssrc, _, sender) => AdmitOwn(t, ssrc, sender, false);
    case Sdes(ssrc, _, _, _, sender) => AdmitOwn(t, ssrc, sender, false);
    case Bye(ssrc, _, sender) => AdmitOwn(t, ssrc, sender, false);
    case _ =>
  }

  lemma AdmitOwn(t: Table, c: uint32, sender: Option<Address>, isrtp: bool)
    ensures Admit(t, c, sender, isrtp).table.own == t.own
  {
  }

  lemma RtpOwn(t: Table, p: Packet, now: real, sender: Option<Address>, handled: bool)
    requires Inv(t)
    ensures ProcessRtpPacket(t, p, now, sender, handled).own == t.own
  {
    hide Admit, ProcessRtp, EntryOk, CountersOk;
    AdmitOwn(t, p.ssrc, sender, true);
    var a := Admit(t, p.ssrc, sender, true);
    AdmitKeeps(t, p.ssrc, sender, true);
    if !a.collision {
      var src := ProcessRtp(a.table.entries[a.pos], p, now, handled).src;
      CsrcsOwn(UpdateCounted(a.table, a.pos, src), p.csrcs, sender);
    }
  }

  lemma {:induction false} CsrcsOwn(t: Table, csrcs: seq<uint32>, sender: Option<Address>)
    ensures ProcessCsrcs(t, csrcs, sender).own == t.own
    decreases csrcs
  {
    if csrcs != [] {
      CsrcsOwn(ProcessCsrc(t, csrcs[0], sender), csrcs[1..], sender);
    }
  }

  // In every reachable table, the entry of every other source says when the source
  // was last heard from and last did each thing, whether it has said goodbye and
  // whether it is sending, and what it has said about itself, exactly as the events
  // tell.
  lemma {:induction false} EntriesRecordEvents(probationtype: ProbationType, events: seq<Event>, s: uint32)
    requires Run(Empty(probationtype), events).own != Some(s)
    ensures Recorded(Empty(probationtype), events, s)
  {
    hide Step, Recorded, Inv;
    var t := Empty(probationtype);
    if !GotEntry(Run(t, events), s) {
      NothingRecorded(t, events, s);
    } else {
      assert events != [];
      var front, e := events[..|events| - 1], events[|events| - 1];
      assert front + [e] == events;
      CountersOverRuns(probationtype, front);
      if Run(t, front).own != Some(s) {
        EntriesRecordEvents(probationtype, front, s);
      }
      StepRecorded(t, front, e, s);
    }
  }

  // A sweep takes exactly the other sources that, as the events tell, were last
  // heard too long ago or have said goodbye too long ago.
  lemma SweepDropsStale(probationtype: ProbationType, events: seq<Event>, sw: Sweep, s: uint32)
    requires var t := Run(Empty(probationtype), events); t.own != Some(s) && GotEntry(t, s)
    ensures var t0, t := Empty(probationtype), Run(Empty(probationtype), events);
            var heard, bye := LastTime(t0, events, s, Message), LastTime(t0, events, s, Goodbye);
            GotEntry(Step(t, Timeout(sw)), s) <==>
              !TooOld(sw, Message, OrZero(heard)) && !(bye.Some? && TooOld(sw, Goodbye, bye.value))
  {
    hide Run, Inv, Faded, RunSweep, LastTime;
    CountersOverRuns(probationtype, events);
    EntriesRecordEvents(probationtype, events, s);
    SweepTells(Run(Empty(probationtype), events), sw, s);
  }

  // ---- Addresses ----

  predicate OneHost(a: Option<Address>, b: Option<Address>) {
    if a.None? then b.None? else b.Some? && a.value.host == b.value.host
  }

  // Whether an event passes the address check: its sender must be the address that
  // its channel is bound to; for a channel that is not bound yet, it must be on the
  // host of the other one.
  lemma PassesIff(t: Table, s: uint32, sender: Option<Address>, isrtp: bool)
    requires GotEntry(t, s)
    ensures var x := Was(t, s);
            Passes(t, s, sender, isrtp) <==>
              if Bound(x, isrtp) then sender == BoundTo(x, isrtp)
              else Bound(x, !isrtp) ==> OneHost(BoundTo(x, !isrtp), sender)
  {
    CheckedIs(t, s, sender, isrtp);
  }

  // The entry is there, and another source's, from t on.
  ghost predicate Stays(t: Table, events: seq<Event>, s: uint32) {
    && Run(t, events).own != Some(s)
    && forall i :: 0 <= i <= |events| ==> GotEntry(Run(t, events[..i]), s)
  }

  lemma StaysFront(t: Table, events: seq<Event>, s: uint32)
    requires Inv(t) && events != [] && Stays(t, events, s) && Inv(Run(t, events[..|events| - 1]))
    ensures Stays(t, events[..|events| - 1], s)
    ensures GotEntry(Run(t, events), s) && Run(t, events) == Step(Run(t, events[..|events| - 1]), events[|events| - 1])
    ensures Run(t, events).own != Some(s) && GotEntry(Run(t, events[..|events| - 1]), s)
  {
    hide Step, Inv;
    var front := events[..|events| - 1];
    assert events[..|events|] == events;
    assert forall i :: 0 <= i <= |front| ==> front[..i] == events[..i];
    OwnStays(Run(t, front), events[|events| - 1], s);
  }

  lemma {:induction false} RunKeepsInv(t: Table, events: seq<Event>)
    requires Inv(t)
    ensures Inv(Run(t, events))
  {
    hide Step, Inv;
    if events != [] {
      var front := events[..|events| - 1];
      RunKeepsInv(t, front);
      StepKeeps(Run(t, front), events[|events| - 1], Deficit(Run(t, front)));
    }
  }

  lemma StepBinding(t: Table, e: Event, s: uint32, isrtp: bool)
    requires Inv(t) && t.own != Some(s) && Step(t, e).own != Some(s) && GotEntry(t, s) && GotEntry(Step(t, e), s)
    ensures SameBinding(Was(t, s), Was(Step(t, e), s), isrtp)
  {
    hide Step, Inv, SameBinding, Time;
    if e.Timeout? {
      SweepIsStep(t, e.sweep);
      SweepTells(t, e.sweep, s);
    } else {
      OwnStays(t, e, s);
      StepTells(t, e, s);
    }
  }

  lemma SweepIsStep(t: Table, sw: Sweep)
    ensures Step(t, Timeout(sw)) == RunSweep(t, sw)
  {
  }

  lemma {:induction false} BindingStays(t: Table, events: seq<Event>, s: uint32, isrtp: bool)
    requires Inv(t) && Stays(t, events, s)
    ensures SameBinding(Was(t, s), Was(Run(t, events), s), isrtp)
  {
    hide Step, Inv, Stays;
    if events != [] {
      var front := events[..|events| - 1];
      RunKeepsInv(t, front);
      StaysFront(t, events, s);
      BindingStays(t, front, s, isrtp);
      StaysOwn(t, front, s);
      StepBinding(Run(t, front), events[|events| - 1], s, isrtp);
    }
  }

  lemma StaysOwn(t: Table, events: seq<Event>, s: uint32)
    requires Stays(t, events, s)
    ensures Run(t, events).own != Some(s)
  {
  }

  // Once a source has been heard over a channel, and as long as its entry stays: it
  // is heard over this channel from the same address only, and always from there;
  // and over the other channel from the same host only.
  lemma SourceKeepsAddress(t: Table, first: Event, events: seq<Event>, s: uint32, sender: Option<Address>, isrtp: bool)
    requires Inv(t) && t.own != Some(s) && From(t, first, s) && Stays(Step(t, first), events, s)
    requires Step(t, first).own != Some(s)
    ensures var u := Run(Step(t, first), events);
            if isrtp == first.Rtp? then Passes(u, s, sender, isrtp) <==> sender == first.sender
            else if Bound(Was(u, s), isrtp) then Passes(u, s, sender, isrtp) <==> sender == BoundTo(Was(u, s), isrtp)
            else Passes(u, s, sender, isrtp) <==> OneHost(first.sender, sender)
  {
    hide Step, Inv, Passes;
    var r := Step(t, first);
    StepTells(t, first, s);
    FromIsAddressed(t, first, s);
    StepKeeps(t, first, Deficit(t));
    BindingStays(r, events, s, first.Rtp?);
    StaysThere(r, events, s);
    PassesIff(Run(r, events), s, sender, isrtp);
  }

  lemma FromIsAddressed(t: Table, e: Event, s: uint32)
    requires From(t, e, s) && Tells(t, e, s, Was(t, s), Was(Step(t, e), s))
    ensures Addressed(Was(Step(t, e), s), e) && !e.Timeout? && !e.Clear?
  {
    hide Step;
  }

  lemma StaysThere(t: Table, events: seq<Event>, s: uint32)
    requires Stays(t, events, s)
    ensures GotEntry(Run(t, events), s)
  {
    assert events[..|events|] == events;
  }

  // ---- Contributing sources ----

  // Without probation a packet of a new source makes it valid.
  lemma FirstPacketValidates(c: Source, p: Packet, now: real)
    requires c == SetAddress(NewSource(p.ssrc, NoProbation), c.rtpaddr, true)
    ensures ProcessRtp(c, p, now, true).src.validated
  {
  }

  // A valid source's packet makes an entry for a contributing source.
  lemma CsrcIsAdded(t: Table, p: Packet, now: real, sender: Option<Address>, csrc: uint32)
    requires Inv(t) && t.probationtype == NoProbation && !GotEntry(t, p.ssrc) && p.csrcs == [csrc] && csrc != p.ssrc
    ensures GotEntry(Step(t, Rtp(p, now, sender, true)), csrc)
  {
    hide ProcessRtp, ProcessCsrc, CountersOk, EntryOk;
    AdmitAdds(t, p.ssrc, sender, true);
    var a := Admit(t, p.ssrc, sender, true);
    var c := a.table.entries[a.pos];
    FirstPacketValidates(c, p, now);
    var src := ProcessRtp(c, p, now, true).src;
    var u := UpdateCounted(a.table, a.pos, src);
    AdmitEntry(t, p.ssrc, sender, true, csrc);
    RtpSsrc(c, p, now, true);
    EventEntry(t, p.ssrc, sender, true, src, u, csrc);
    CsrcEntry(u, csrc, sender, csrc);
    CsrcGot(u, csrc, sender);
    assert ProcessCsrcs(u, p.csrcs, sender) == ProcessCsrcs(ProcessCsrc(u, csrc, sender), [], sender);
  }

  lemma CsrcGot(t: Table, c: uint32, sender: Option<Address>)
    requires UniqueSsrcs(t.entries)
    ensures GotEntry(ProcessCsrc(t, c, sender), c)
  {
    CsrcEntry(t, c, sender, c);
  }

  // A source that is only known as a contributing one has never been heard, so that
  // the next sweep takes it, however recent the packet is.
  lemma CsrcIsStale(t: Table, p: Packet, now: real, sender: Option<Address>, csrc: uint32, check: real)
    requires Inv(t) && t.probationtype == NoProbation && !GotEntry(t, p.ssrc) && p.csrcs == [csrc] && csrc != p.ssrc
    requires !GotEntry(t, csrc) && t.own != Some(csrc) && check > 0.0
    ensures var r := Step(t, Rtp(p, now, sender, true));
            GotEntry(r, csrc) && !GotEntry(Step(r, Timeout(MemberSweep(check))), csrc)
  {
    hide Step, Inv, Faded;
    var e := Rtp(p, now, sender, true);
    CsrcIsAdded(t, p, now, sender, csrc);
    RtpStep(t, e, csrc);
    StepKeeps(t, e, Deficit(t));
    SweepIsStep(Step(t, e), MemberSweep(check));
    SweepTells(Step(t, e), MemberSweep(check), csrc);
  }
}
