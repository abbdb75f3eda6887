// What every run of the source table keeps: one entry per SSRC, at most one own
// entry, exact total and sender counters, and an active counter that is short
// by exactly the contributing sources that were marked without being counted.
module SourceCounters {
  import opened Types
  import opened SourceState
  import opened SourceTable
  import opened Reception

  // ---- Counting ----

  lemma CountAppend(s: seq<Source>, x: Source, p: Source -> bool)
    ensures Count(s + [x], p) == Count(s, p) + B2I(p(x))
  {
    assert (s + [x])[..|s|] == s;
  }

  lemma {:induction false} CountUpdate(s: seq<Source>, i: nat, x: Source, p: Source -> bool)
    requires i < |s|
    ensures Count(s[i := x], p) == Count(s, p) - B2I(p(s[i])) + B2I(p(x))
  {
    var n := |s| - 1;
    if i < n {
      CountUpdate(s[..n], i, x, p);
      assert s[i := x][..n] == s[..n][i := x];
    } else {
      assert s[i := x][..n] == s[..n];
    }
  }

  lemma {:induction false} CountRemove(s: seq<Source>, i: nat, p: Source -> bool)
    requires i < |s|
    ensures Count(RemoveAt(s, i), p) == Count(s, p) - B2I(p(s[i]))
  {
    var n := |s| - 1;
    if i < n {
      CountRemove(s[..n], i, p);
      assert RemoveAt(s, i) == RemoveAt(s[..n], i) + [s[n]];
      CountAppend(RemoveAt(s[..n], i), s[n], p);
    } else {
      assert RemoveAt(s, i) == s[..n];
    }
  }

  // ---- The invariant ----

  ghost predicate UniqueSsrcs(s: seq<Source>) {
    forall i, j :: 0 <= i < j < |s| ==> s[i].ssrc != s[j].ssrc
  }

  // The own entry stands for the local participant, which has no address.
  predicate OwnSilent(s: Source) {
    s.ownssrc ==> s.isrtpaddrset && s.rtpaddr.None? && s.isrtcpaddrset && s.rtcpaddr.None?
  }

  ghost predicate EntryOk(s: Source, own: Option<uint32>) {
    && ReceptionOk(s) && OwnSilent(s)
    && (s.ownssrc <==> own == Some(s.ssrc))
    && (s.ownssrc ==> s.Active())
  }

  ghost predicate EntriesOk(s: seq<Source>, own: Option<uint32>) {
    && UniqueSsrcs(s)
    && (forall i :: 0 <= i < |s| ==> EntryOk(s[i], own))
    && (own.Some? ==> Find(s, own.value) < |s|)
  }

  ghost predicate CountersOk(t: Table) {
    t.total == |t.entries| && t.senders == Count(t.entries, IsSender())
  }

  ghost predicate Inv(t: Table) {
    EntriesOk(t.entries, t.own) && CountersOk(t)
  }

  // By how much the active counter falls short.
  function Deficit(t: Table): int {
    Count(t.entries, IsActive()) - t.active
  }

  lemma {:induction false} FindIs(s: seq<Source>, i: nat)
    requires UniqueSsrcs(s) && i < |s|
    ensures Find(s, s[i].ssrc) == i
  {
    if i > 0 {
      FindIs(s[1..], i - 1);
    }
  }

  lemma {:induction false} FindMissing(s: seq<Source>, ssrc: uint32)
    requires Find(s, ssrc) == |s|
    ensures forall i :: 0 <= i < |s| ==> s[i].ssrc != ssrc
  {
    if s != [] {
      FindMissing(s[1..], ssrc);
      assert forall i :: 0 < i < |s| ==> s[i] == s[1..][i - 1];
    }
  }

  lemma {:induction false} FindPresent(s: seq<Source>, i: nat)
    requires i < |s|
    ensures Find(s, s[i].ssrc) <= i
  {
    if i > 0 {
      FindPresent(s[1..], i - 1);
    }
  }

  // Rewriting one entry under the same SSRC.
  lemma UpdateKeepsEntries(s: seq<Source>, i: nat, x: Source, own: Option<uint32>)
    requires EntriesOk(s, own) && i < |s| && x.ssrc == s[i].ssrc && EntryOk(x, own)
    ensures EntriesOk(s[i := x], own)
  {
    if own.Some? {
      var k := Find(s, own.value);
      assert s[i := x][k].ssrc == own.value;
      FindPresent(s[i := x], k);
    }
  }

  lemma UpdateCountedKeeps(t: Table, i: nat, x: Source)
    requires Inv(t) && i < |t.entries| && x.ssrc == t.entries[i].ssrc && EntryOk(x, t.own)
    requires t.entries[i].issender ==> x.issender
    ensures Inv(UpdateCounted(t, i, x)) && Deficit(UpdateCounted(t, i, x)) == Deficit(t)
  {
    UpdateKeepsEntries(t.entries, i, x, t.own);
    CountUpdate(t.entries, i, x, IsSender());
    CountUpdate(t.entries, i, x, IsActive());
  }

  // An update that touches neither flag moves no counter.
  lemma UpdateKeeps(t: Table, i: nat, x: Source)
    requires Inv(t) && i < |t.entries| && x.ssrc == t.entries[i].ssrc && EntryOk(x, t.own)
    requires x.issender == t.entries[i].issender
    ensures Inv(Update(t, i, x))
    ensures Deficit(Update(t, i, x)) == Deficit(t) + B2I(x.Active()) - B2I(t.entries[i].Active())
  {
    UpdateKeepsEntries(t.entries, i, x, t.own);
    CountUpdate(t.entries, i, x, IsSender());
    CountUpdate(t.entries, i, x, IsActive());
  }

  // One entry more, of a new SSRC.
  lemma AppendKeepsEntries(s: seq<Source>, x: Source, own: Option<uint32>)
    requires EntriesOk(s, own) && Find(s, x.ssrc) == |s| && EntryOk(x, own)
    ensures EntriesOk(s + [x], own)
  {
    FindMissing(s, x.ssrc);
    if own.Some? {
      var k := Find(s, own.value);
      assert (s + [x])[k].ssrc == own.value;
      FindPresent(s + [x], k);
    }
  }

  lemma NewOk(ssrc: uint32, probationtype: ProbationType, own: Option<uint32>)
    requires own != Some(ssrc)
    ensures EntryOk(NewSource(ssrc, probationtype), own)
  {
  }

  lemma ObtainKeeps(t: Table, ssrc: uint32)
    requires Inv(t)
    ensures Inv(Obtain(t, ssrc)) && Deficit(Obtain(t, ssrc)) == Deficit(t)
  {
    if !GotEntry(t, ssrc) {
      var x := NewSource(ssrc, t.probationtype);
      NewOk(ssrc, t.probationtype, t.own);
      AppendKeepsEntries(t.entries, x, t.own);
      CountAppend(t.entries, x, IsSender());
      CountAppend(t.entries, x, IsActive());
    }
  }

  // The entry invariant only depends on these fields.
  predicate Like(s: Source, x: Source) {
    && x.ssrc == s.ssrc && x.ownssrc == s.ownssrc && x.packetlist == s.packetlist
    && x.stats.sentdata == s.stats.sentdata && x.stats.numcycles == s.stats.numcycles
    && x.stats.exthighseqnr == s.stats.exthighseqnr
    && (s.validated ==> x.validated) && x.receivedbye == s.receivedbye && (OwnSilent(s) ==> OwnSilent(x))
  }

  lemma LikeKeeps(s: Source, x: Source, own: Option<uint32>)
    requires EntryOk(s, own) && Like(s, x)
    ensures EntryOk(x, own)
  {
  }

  lemma AddressLike(s: Source, sender: Option<Address>, isrtp: bool)
    requires !s.ownssrc
    ensures var x := SetAddress(s, sender, isrtp); Like(s, x) && x.issender == s.issender && x.validated == s.validated
  {
  }

  lemma CheckCollisionLike(s: Source, sender: Option<Address>, isrtp: bool)
    ensures var x := CheckCollision(s, sender, isrtp).src;
            Like(s, x) && x.issender == s.issender && x.validated == s.validated
  {
  }

  // The entry that an admitted source gets.
  lemma AdmitIs(t: Table, ssrc: uint32, sender: Option<Address>, isrtp: bool) returns (r: Table, i: nat, x: Source)
    ensures r == Obtain(t, ssrc) && i < |r.entries| && r.entries[i].ssrc == ssrc
    ensures var a := Admit(t, ssrc, sender, isrtp); a.table == Update(r, i, x) && a.pos == i
    ensures Like(r.entries[i], x) && x.issender == r.entries[i].issender && x.validated == r.entries[i].validated
  {
    ObtainFinds(t, ssrc);
    r := Obtain(t, ssrc);
    i := Find(r.entries, ssrc);
    if GotEntry(t, ssrc) {
      CheckCollisionLike(r.entries[i], sender, isrtp);
      x := CheckCollision(r.entries[i], sender, isrtp).src;
    } else {
      AddressLike(r.entries[i], sender, isrtp);
      x := SetAddress(r.entries[i], sender, isrtp);
    }
  }

  lemma AdmitKeeps(t: Table, ssrc: uint32, sender: Option<Address>, isrtp: bool)
    requires Inv(t)
    ensures var a := Admit(t, ssrc, sender, isrtp);
            && Inv(a.table) && Deficit(a.table) == Deficit(t) && a.table.own == t.own
            && a.table.entries[a.pos].ssrc == ssrc
  {
    ObtainKeeps(t, ssrc);
    var r, i, x := AdmitIs(t, ssrc, sender, isrtp);
    LikeKeeps(r.entries[i], x, r.own);
    UpdateKeeps(r, i, x);
  }

  lemma AdmitQueue(t: Table, ssrc: uint32, sender: Option<Address>, isrtp: bool)
    requires Inv(t)
    ensures var a := Admit(t, ssrc, sender, isrtp); Increasing(a.table.entries[a.pos].packetlist)
  {
    AdmitKeeps(t, ssrc, sender, isrtp);
    var a := Admit(t, ssrc, sender, isrtp);
    assert EntryOk(a.table.entries[a.pos], a.table.own);
  }

  // ---- Every event ----

  // A contributing source that is marked validated without being counted: its
  // entry already existed, unvalidated and without a BYE, and the sender's
  // address did not collide.
  predicate Uncounted(t: Table, csrc: uint32, sender: Option<Address>) {
    GotEntry(t, csrc) &&
    var s := t.entries[Find(t.entries, csrc)];
    !s.validated && !s.receivedbye && !CheckCollision(s, sender, true).collision
  }

  function UncountedCsrcs(t: Table, csrcs: seq<uint32>, sender: Option<Address>): nat
    decreases csrcs
  {
    if csrcs == [] then 0
    else B2I(Uncounted(t, csrcs[0], sender)) + UncountedCsrcs(ProcessCsrc(t, csrcs[0], sender), csrcs[1..], sender)
  }

  lemma CsrcLike(s: Source)
    ensures Like(s, SetCsrc(s)) && SetCsrc(s).issender == s.issender && SetCsrc(s).Active() == !s.receivedbye
  {
  }

  lemma MarkNewKeeps(t: Table, i: nat)
    requires Inv(t) && i < |t.entries| && !t.entries[i].validated
    ensures Inv(MarkNewCsrc(t, i)) && Deficit(MarkNewCsrc(t, i)) == Deficit(t)
  {
    var x := SetCsrc(t.entries[i]);
    CsrcLike(t.entries[i]);
    LikeKeeps(t.entries[i], x, t.own);
    UpdateKeeps(t, i, x);
  }

  lemma MarkKnownKeeps(t: Table, i: nat, sender: Option<Address>)
    requires Inv(t) && i < |t.entries|
    ensures var e := t.entries[i];
            var uncounted := !e.validated && !e.receivedbye && !CheckCollision(e, sender, true).collision;
            var r := MarkKnownCsrc(t, i, sender);
            Inv(r) && Deficit(r) == Deficit(t) + B2I(uncounted)
  {
    var e := t.entries[i];
    var c := CheckCollision(e, sender, true);
    CheckCollisionLike(e, sender, true);
    LikeKeeps(e, c.src, t.own);
    if c.collision {
      UpdateKeeps(t, i, c.src);
    } else {
      CsrcLike(c.src);
      LikeKeeps(c.src, SetCsrc(c.src), t.own);
      UpdateKeeps(t, i, SetCsrc(c.src));
    }
  }

  lemma ProcessCsrcKeeps(t: Table, csrc: uint32, sender: Option<Address>)
    requires Inv(t)
    ensures var r := ProcessCsrc(t, csrc, sender);
            Inv(r) && r.own == t.own && Deficit(r) == Deficit(t) + B2I(Uncounted(t, csrc, sender))
  {
    ObtainKeeps(t, csrc);
    ObtainFinds(t, csrc);
    var r := Obtain(t, csrc);
    var i := Find(r.entries, csrc);
    if GotEntry(t, csrc) {
      MarkKnownKeeps(r, i, sender);
    } else {
      MarkNewKeeps(r, i);
    }
  }

  lemma {:induction false} ProcessCsrcsKeeps(t: Table, csrcs: seq<uint32>, sender: Option<Address>)
    requires Inv(t)
    ensures var r := ProcessCsrcs(t, csrcs, sender);
            Inv(r) && Deficit(r) == Deficit(t) + UncountedCsrcs(t, csrcs, sender)
    decreases csrcs
  {
    if csrcs != [] {
      ProcessCsrcKeeps(t, csrcs[0], sender);
      ProcessCsrcsKeeps(ProcessCsrc(t, csrcs[0], sender), csrcs[1..], sender);
    }
  }

  // The number of uncounted markings an RTP packet causes.
  function UncountedRtp(t: Table, p: Packet, now: real, sender: Option<Address>, handled: bool): nat {
    var a := Admit(t, p.ssrc, sender, true);
    if a.collision then 0
    else
      var src := ProcessRtp(a.table.entries[a.pos], p, now, handled).src;
      if src.validated then UncountedCsrcs(UpdateCounted(a.table, a.pos, src), p.csrcs, sender) else 0
  }

  lemma ProcessRtpFlags(s: Source, p: Packet, now: real, handled: bool)
    ensures var r := ProcessRtp(s, p, now, handled).src;
            && r.ssrc == s.ssrc && r.receivedbye == s.receivedbye
            && (s.issender ==> r.issender) && (s.validated ==> r.validated)
  {
  }

  lemma ProcessRtpEntryKeeps(s: Source, own: Option<uint32>, p: Packet, now: real, handled: bool)
    requires EntryOk(s, own)
    ensures var r := ProcessRtp(s, p, now, handled).src;
            EntryOk(r, own) && r.ssrc == s.ssrc && (s.issender ==> r.issender)
  {
    ProcessRtpKeeps(s, p, now, handled);
    ProcessRtpFlags(s, p, now, handled);
  }

  // The table between the packet's own source and its contributing sources.
  lemma RtpEntryKeeps(t: Table, i: nat, p: Packet, now: real, handled: bool, src: Source)
    requires Inv(t) && i < |t.entries| && src == ProcessRtp(t.entries[i], p, now, handled).src
    ensures var u := UpdateCounted(t, i, src); Inv(u) && Deficit(u) == Deficit(t) && u.own == t.own
  {
    ProcessRtpEntryKeeps(t.entries[i], t.own, p, now, handled);
    UpdateCountedKeeps(t, i, src);
  }

  lemma ProcessRtpPacketKeeps(t: Table, p: Packet, now: real, sender: Option<Address>, handled: bool)
    requires Inv(t)
    ensures var r := ProcessRtpPacket(t, p, now, sender, handled);
            Inv(r) && Deficit(r) == Deficit(t) + UncountedRtp(t, p, now, sender, handled)
  {
    hide ProcessRtp;
    AdmitKeeps(t, p.ssrc, sender, true);
    var a := Admit(t, p.ssrc, sender, true);
    if !a.collision {
      var src := ProcessRtp(a.table.entries[a.pos], p, now, handled).src;
      RtpEntryKeeps(a.table, a.pos, p, now, handled, src);
      ProcessCsrcsKeeps(UpdateCounted(a.table, a.pos, src), p.csrcs, sender);
    }
  }

  // ---- Collisions with the own entry ----

  // Whatever carries the own SSRC and comes from an address collides.
  lemma OwnCollisionIs(t: Table, ssrc: uint32, sender: Option<Address>, isrtp: bool)
    requires Inv(t)
    ensures OwnCollision(t, ssrc, sender, isrtp) <==> t.own == Some(ssrc) && sender.Some?
  {
    if GotEntry(t, ssrc) {
      var e := t.entries[Find(t.entries, ssrc)];
      assert EntryOk(e, t.own);
    }
  }

  lemma {:induction false} CsrcsCollisionIs(t: Table, csrcs: seq<uint32>, sender: Option<Address>)
    requires Inv(t)
    ensures CsrcsCollision(t, csrcs, sender) <==> sender.Some? && t.own.Some? && t.own.value in csrcs
    decreases csrcs
  {
    if csrcs != [] {
      OwnCollisionIs(t, csrcs[0], sender, true);
      ProcessCsrcKeeps(t, csrcs[0], sender);
      CsrcsCollisionIs(ProcessCsrc(t, csrcs[0], sender), csrcs[1..], sender);
      assert forall x :: x in csrcs <==> x == csrcs[0] || x in csrcs[1..];
    }
  }

  // The source of an RTP packet is valid after it, so that its contributing
  // sources are looked at.
  predicate LooksAtCsrcs(t: Table, p: Packet, now: real, sender: Option<Address>, handled: bool) {
    var a := Admit(t, p.ssrc, sender, true);
    !a.collision && ProcessRtp(a.table.entries[a.pos], p, now, handled).src.validated
  }

  // An event from an address that carries the own SSRC, as its source or as a
  // contributing source.
  predicate ReachesOwn(t: Table, e: Event) {
    t.own.Some? &&
    match e
    case Rtp(p, now, sender, handled) =>
      sender.Some? && (p.ssrc == t.own.value || (t.own.value in p.csrcs && LooksAtCsrcs(t, p, now, sender, handled)))
    case Refresh(ssrc, _, sender) => sender.Some? && ssrc == t.own.value
    case Sdes(ssrc, id, _, _, sender) => sender.Some? && ssrc == t.own.value && SDES_CNAME <= id <= SDES_NOTE
    case Bye(ssrc, _, sender) => sender.Some? && ssrc == t.own.value
    case _ => false
  }

  lemma RtpCollisionIs(t: Table, p: Packet, now: real, sender: Option<Address>, handled: bool)
    requires Inv(t)
    ensures RtpCollision(t, p, now, sender, handled) <==> ReachesOwn(t, Rtp(p, now, sender, handled))
  {
    hide ProcessRtp, CheckCollision, Inv;
    OwnCollisionIs(t, p.ssrc, sender, true);
    AdmitKeeps(t, p.ssrc, sender, true);
    var a := Admit(t, p.ssrc, sender, true);
    if !a.collision {
      var src := ProcessRtp(a.table.entries[a.pos], p, now, handled).src;
      RtpEntryKeeps(a.table, a.pos, p, now, handled, src);
      CsrcsCollisionIs(UpdateCounted(a.table, a.pos, src), p.csrcs, sender);
    }
  }

  // Handling an event finds a collision with the own entry if and only if the
  // event comes from an address and carries the own SSRC.
  lemma CollidesIs(t: Table, e: Event)
    requires Inv(t)
    ensures Collides(t, e) <==> ReachesOwn(t, e)
  {
    match e
    case Rtp(p, now, sender, handled) => RtpCollisionIs(t, p, now, sender, handled);
    case Refresh(ssrc, _, sender) => OwnCollisionIs(t, ssrc, sender, false);
    case Sdes(ssrc, _, _, _, sender) => OwnCollisionIs(t, ssrc, sender, false);
    case Bye(ssrc, _, sender) => OwnCollisionIs(t, ssrc, sender, false);
    case _ =>
  }

  lemma AppendOwn(s: seq<Source>, x: Source)
    requires EntriesOk(s, None) && Find(s, x.ssrc) == |s| && EntryOk(x, Some(x.ssrc))
    ensures EntriesOk(s + [x], Some(x.ssrc))
  {
    FindMissing(s, x.ssrc);
    forall i | 0 <= i < |s| ensures EntryOk((s + [x])[i], Some(x.ssrc)) {
      assert EntryOk(s[i], None);
    }
    FindPresent(s + [x], |s|);
  }

  lemma OwnEntryOk(ssrc: uint32, probationtype: ProbationType)
    ensures var x := OwnEntry(NewSource(ssrc, probationtype));
            EntryOk(x, Some(ssrc)) && x.ssrc == ssrc && !x.issender && x.Active()
  {
  }

  lemma CreateOwnKeeps(t: Table, ssrc: uint32)
    requires Inv(t)
    ensures var r := CreateOwn(t, ssrc); Inv(r) && Deficit(r) == Deficit(t)
  {
    if t.own.None? && !GotEntry(t, ssrc) {
      var x := OwnEntry(NewSource(ssrc, t.probationtype));
      OwnEntryOk(ssrc, t.probationtype);
      AppendOwn(t.entries, x);
      assert CreateOwn(t, ssrc).entries == t.entries + [x];
      CountAppend(t.entries, x, IsSender());
      CountAppend(t.entries, x, IsActive());
    }
  }

  lemma RemoveKeepsEntries(s: seq<Source>, i: nat)
    requires i < |s| && EntriesOk(s, Some(s[i].ssrc))
    ensures EntriesOk(RemoveAt(s, i), None)
  {
    var r := RemoveAt(s, i);
    forall k | 0 <= k < |r| ensures EntryOk(r[k], None) {
      var j := if k < i then k else k + 1;
      assert r[k] == s[j] && s[j].ssrc != s[i].ssrc && EntryOk(s[j], Some(s[i].ssrc));
    }
  }

  lemma DeleteOwnKeeps(t: Table)
    requires Inv(t)
    ensures var r := DeleteOwn(t); Inv(r) && Deficit(r) == Deficit(t) && r.own.None?
  {
    if t.own.Some? {
      var i := Find(t.entries, t.own.value);
      RemoveKeepsEntries(t.entries, i);
      CountRemove(t.entries, i, IsSender());
      CountRemove(t.entries, i, IsActive());
    }
  }

  lemma EntryKeeps(t: Table, ssrc: uint32, sender: Option<Address>, now: real)
    requires Inv(t)
    ensures var r := RefreshSource(t, ssrc, now, sender); Inv(r) && Deficit(r) == Deficit(t)
  {
    AdmitKeeps(t, ssrc, sender, false);
    var a := Admit(t, ssrc, sender, false);
    UpdateKeeps(a.table, a.pos, a.table.entries[a.pos].WithMessageTime(now));
  }

  lemma TimesLike(s: Source, st: Stats)
    requires st.sentdata == s.stats.sentdata && st.numcycles == s.stats.numcycles
             && st.exthighseqnr == s.stats.exthighseqnr
    ensures Like(s, s.(stats := st))
  {
  }

  lemma ItemsLike(s: Source, info: SdesInfo, validated: bool)
    requires s.validated ==> validated
    ensures Like(s, s.(sdes := info, validated := validated))
  {
  }

  lemma LikeLike(s: Source, x: Source, y: Source)
    requires Like(s, x) && Like(x, y)
    ensures Like(s, y)
  {
  }

  // An item changes times, the item, and perhaps whether the source is valid.
  lemma SdesChanges(s: Source, id: int, data: seq<byte>, now: real) returns (info: SdesInfo, validated: bool)
    ensures ProcessSdes(s, id, data, now).src == WithItems(s, ItemTimes(s.stats, id, now), info, validated)
    ensures s.validated ==> validated
  {
    hide WithItems, ItemTimes, SdesInfo.Set, SdesInfo.Get, Keeps;
    if !(SDES_CNAME <= id <= SDES_NOTE) || ProcessSdes(s, id, data, now).src ==
                                           WithItems(s, ItemTimes(s.stats, id, now), s.sdes, s.validated) {
      info, validated := s.sdes, s.validated;
    } else {
      info, validated := s.sdes.Set(id, data), s.validated || id == SDES_CNAME;
    }
  }

  lemma SdesLike(s: Source, id: int, data: seq<byte>, now: real)
    ensures Like(s, ProcessSdes(s, id, data, now).src) && ProcessSdes(s, id, data, now).src.issender == s.issender
  {
    hide ProcessSdes;
    var info, validated := SdesChanges(s, id, data, now);
    var st := ItemTimes(s.stats, id, now);
    TimesLike(s, st);
    ItemsLike(s.(stats := st), info, validated);
    LikeLike(s, s.(stats := st), WithItems(s, st, info, validated));
  }

  lemma ProcessSdesKeeps(s: Source, own: Option<uint32>, id: int, data: seq<byte>, now: real)
    requires EntryOk(s, own)
    ensures var r := ProcessSdes(s, id, data, now).src;
            EntryOk(r, own) && r.ssrc == s.ssrc && r.issender == s.issender
  {
    SdesLike(s, id, data, now);
    LikeKeeps(s, ProcessSdes(s, id, data, now).src, own);
  }

  lemma SdesKeeps(t: Table, ssrc: uint32, id: int, data: seq<byte>, now: real, sender: Option<Address>)
    requires Inv(t)
    ensures var r := ProcessSdesItem(t, ssrc, id, data, now, sender); Inv(r) && Deficit(r) == Deficit(t)
  {
    AdmitKeeps(t, ssrc, sender, false);
    var a := Admit(t, ssrc, sender, false);
    ProcessSdesKeeps(a.table.entries[a.pos], t.own, id, data, now);
    UpdateCountedKeeps(a.table, a.pos, ProcessSdes(a.table.entries[a.pos], id, data, now).src);
  }

  lemma ByeKeeps(t: Table, ssrc: uint32, now: real, sender: Option<Address>)
    requires Inv(t)
    ensures var r := ProcessByeFor(t, ssrc, now, sender); Inv(r) && Deficit(r) == Deficit(t)
  {
    AdmitKeeps(t, ssrc, sender, false);
    var a := Admit(t, ssrc, sender, false);
    if t.own != Some(ssrc) {
      UpdateCountedKeeps(a.table, a.pos, ProcessBye(a.table.entries[a.pos], now));
    }
  }

  lemma TakeKeeps(t: Table, ssrc: uint32)
    requires Inv(t)
    ensures Inv(TakePacket(t, ssrc)) && Deficit(TakePacket(t, ssrc)) == Deficit(t)
  {
    if GotEntry(t, ssrc) {
      var i := Find(t.entries, ssrc);
      NextPacketIsSmallest(t.entries[i]);
      UpdateKeeps(t, i, NextPacket(t.entries[i]).src);
    }
  }

  lemma SentKeeps(t: Table, now: real)
    requires Inv(t)
    ensures Inv(SentRtpPacket(t, now)) && Deficit(SentRtpPacket(t, now)) == Deficit(t)
  {
    if t.own.Some? {
      var i := Find(t.entries, t.own.value);
      UpdateCountedKeeps(t, i, SentRtp(t.entries[i], now));
    }
  }

  // ---- Sweeps ----

  lemma FilterMapAppend(s: seq<Source>, x: Source, f: Source -> Option<Source>)
    ensures FilterMap(s + [x], f) == FilterMap(s, f) + if f(x).Some? then [f(x).value] else []
  {
    assert (s + [x])[..|s|] == s;
  }

  ghost predicate ListOk(s: seq<Source>, own: Option<uint32>) {
    UniqueSsrcs(s) && forall i :: 0 <= i < |s| ==> EntryOk(s[i], own)
  }

  // An effect that renames nothing and keeps the invariant of what it keeps.
  ghost predicate Gentle(f: Source -> Option<Source>, own: Option<uint32>) {
    forall x: Source :: f(x).Some? ==> f(x).value.ssrc == x.ssrc && (EntryOk(x, own) ==> EntryOk(f(x).value, own))
  }

  lemma SweepIsGentle(sw: Sweep, own: Option<uint32>)
    ensures Gentle(sw.Effect(own), own)
  {
    forall x: Source | sw.Effect(own)(x).Some?
      ensures sw.Effect(own)(x).value.ssrc == x.ssrc
      ensures EntryOk(x, own) ==> EntryOk(sw.Effect(own)(x).value, own)
    {
      RewriteLike(x, sw);
      if EntryOk(x, own) {
        LikeKeeps(x, sw.Rewrite(x), own);
      }
    }
  }

  lemma ExpireSenderLike(s: Source, check: real)
    ensures var x := ExpireSender(s, check);
            Like(s, x) && x.stats == s.stats && x.sdes == s.sdes && x.byetime == s.byetime
  {
  }

  lemma ExpireNoteLike(s: Source, check: real)
    ensures var x := ExpireNote(s, check);
            Like(s, x) && x.issender == s.issender && x.stats == s.stats && x.byetime == s.byetime
  {
    ItemsLike(s, s.sdes.(note := []), s.validated);
    assert s.sdes.note != [] && check > s.stats.lastnotetime ==>
             ExpireNote(s, check) == s.(sdes := s.sdes.(note := []), validated := s.validated);
  }

  lemma RewriteLike(s: Source, sw: Sweep)
    ensures Like(s, sw.Rewrite(s))
  {
    match sw
    case SenderSweep(check) => ExpireSenderLike(s, check);
    case NoteSweep(check) => ExpireNoteLike(s, check);
    case MultipleSweep(sender, _, _, note) =>
      ExpireNoteLike(s, note);
      ExpireSenderLike(ExpireNote(s, note), sender);
    case _ =>
  }

  lemma {:induction false} FilterMapSsrcs(s: seq<Source>, f: Source -> Option<Source>, own: Option<uint32>,
                                          ssrc: uint32)
    requires Gentle(f, own) && forall i :: 0 <= i < |s| ==> s[i].ssrc != ssrc
    ensures forall i :: 0 <= i < |FilterMap(s, f)| ==> FilterMap(s, f)[i].ssrc != ssrc
  {
    if s != [] {
      FilterMapSsrcs(s[..|s| - 1], f, own, ssrc);
    }
  }

  // A sweep keeps the order and the invariant of every survivor.
  lemma {:induction false} FilterMapKeeps(s: seq<Source>, f: Source -> Option<Source>, own: Option<uint32>)
    requires Gentle(f, own) && ListOk(s, own)
    ensures ListOk(FilterMap(s, f), own)
  {
    if s != [] {
      var front, x := s[..|s| - 1], s[|s| - 1];
      FilterMapKeeps(front, f, own);
      FilterMapSsrcs(front, f, own, x.ssrc);
    }
  }

  // The own entry survives every sweep.
  lemma {:induction false} SweepKeepsOwn(s: seq<Source>, own: uint32, sw: Sweep, i: nat) returns (j: nat)
    requires i < |s| && s[i].ssrc == own
    ensures var r := FilterMap(s, sw.Effect(Some(own))); j < |r| && r[j].ssrc == own
  {
    var front, x := s[..|s| - 1], s[|s| - 1];
    if i < |front| {
      j := SweepKeepsOwn(front, own, sw, i);
    } else {
      j := |FilterMap(front, sw.Effect(Some(own)))|;
      RewriteLike(x, sw);
      assert sw.Effect(Some(own))(x) == Some(sw.Rewrite(x));
    }
  }

  lemma SweepKeeps(t: Table, sw: Sweep)
    requires EntriesOk(t.entries, t.own)
    ensures Inv(RunSweep(t, sw)) && Deficit(RunSweep(t, sw)) == 0 && RunSweep(t, sw).own == t.own
  {
    SweepIsGentle(sw, t.own);
    FilterMapKeeps(t.entries, sw.Effect(t.own), t.own);
    if t.own.Some? {
      var j := SweepKeepsOwn(t.entries, t.own.value, sw, Find(t.entries, t.own.value));
      FindPresent(FilterMap(t.entries, sw.Effect(t.own)), j);
    }
  }

  function CountOne(c: Counts, issender: bool, isactive: bool): Counts {
    Counts(c.total + 1, c.senders + B2I(issender), c.active + B2I(isactive))
  }

  lemma Assoc<T>(a: seq<T>, b: seq<T>, c: seq<T>)
    ensures (a + b) + c == a + (b + c)
  {
  }

  // The effect of a sweep on the first entry still to come.
  lemma {:induction false} FilterMapFirst(s: seq<Source>, f: Source -> Option<Source>)
    requires s != []
    ensures FilterMap(s, f) == (if f(s[0]).Some? then [f(s[0]).value] else []) + FilterMap(s[1..], f)
  {
    var n := |s| - 1;
    if n > 0 {
      FilterMapFirst(s[..n], f);
      assert s[1..] == s[..n][1..] + [s[n]];
      FilterMapAppend(s[..n][1..], s[n], f);
      Assoc(if f(s[0]).Some? then [f(s[0]).value] else [], FilterMap(s[..n][1..], f),
          if f(s[n]).Some? then [f(s[n]).value] else []);
    }
  }

  lemma CountsAppend(done: seq<Source>, x: Source)
    ensures CountsOf(done + [x]) == CountOne(CountsOf(done), x.issender, x.Active())
  {
    CountAppend(done, x, IsSender());
    CountAppend(done, x, IsActive());
  }

  function Then(f: Source -> Option<Source>, g: Source -> Option<Source>): Source -> Option<Source> {
    (x: Source) => if f(x).Some? then g(f(x).value) else None
  }

  lemma {:induction false} FilterMapThen(s: seq<Source>, f: Source -> Option<Source>, g: Source -> Option<Source>)
    ensures FilterMap(FilterMap(s, f), g) == FilterMap(s, Then(f, g))
  {
    if s != [] {
      var front, x := s[..|s| - 1], s[|s| - 1];
      FilterMapThen(front, f, g);
      if f(x).Some? {
        FilterMapAppend(FilterMap(front, f), f(x).value, g);
      } else {
        assert FilterMap(s, f) == FilterMap(front, f);
      }
    }
  }

  lemma {:induction false} FilterMapSame(s: seq<Source>, f: Source -> Option<Source>, g: Source -> Option<Source>)
    requires forall x: Source :: f(x) == g(x)
    ensures FilterMap(s, f) == FilterMap(s, g)
  {
    if s != [] {
      FilterMapSame(s[..|s| - 1], f, g);
    }
  }

  lemma ExpiriesCommute(x: Source, a: real, d: real)
    ensures ExpireSender(ExpireNote(x, d), a) == ExpireNote(ExpireSender(x, a), d)
  {
  }

  // What happens to one entry: whether it is dropped does not depend on its
  // sender flag or its note.
  lemma EffectsCompose(x: Source, own: Option<uint32>, a: real, b: real, c: real, d: real)
    ensures MultipleSweep(a, b, c, d).Effect(own)(x)
         == Then(SenderSweep(a).Effect(own),
                 Then(ByeSweep(b).Effect(own), Then(MemberSweep(c).Effect(own), NoteSweep(d).Effect(own))))(x)
  {
    var y := ExpireSender(x, a);
    ExpireSenderLike(x, a);
    ExpiriesCommute(x, a, d);
    assert SenderSweep(a).Effect(own)(x) == Some(y);
    assert ByeSweep(b).Effect(own)(y) == if ByeSweep(b).Drops(x, own) then None else Some(y);
    assert MemberSweep(c).Effect(own)(y) == if MemberSweep(c).Drops(x, own) then None else Some(y);
    assert NoteSweep(d).Effect(own)(y) == Some(ExpireNote(y, d));
  }

  // The entry once its note has been looked at: what MultipleTimeouts still does
  // with it.
  function AfterNote(e: Source, own: Option<uint32>, sender: real, bye: real, member: real): Option<Source> {
    if own != Some(e.ssrc) && ((e.receivedbye && bye > e.byetime) || e.stats.lastmsgtime < member) then None
    else Some(ExpireSender(e, sender))
  }

  lemma MultipleAfterNote(e: Source, own: Option<uint32>, sender: real, bye: real, member: real, note: real)
    ensures MultipleSweep(sender, bye, member, note).Effect(own)(e)
         == AfterNote(ExpireNote(e, note), own, sender, bye, member)
  {
    ExpireNoteLike(e, note);
  }

  // One pass of MultipleTimeouts is the four timeouts one after the other.
  lemma MultipleTimeoutsIsAllFour(t: Table, a: real, b: real, c: real, d: real)
    ensures RunSweep(t, MultipleSweep(a, b, c, d))
         == RunSweep(RunSweep(RunSweep(RunSweep(t, SenderSweep(a)), ByeSweep(b)), MemberSweep(c)), NoteSweep(d))
  {
    var f1, f2 := SenderSweep(a).Effect(t.own), ByeSweep(b).Effect(t.own);
    var f3, f4 := MemberSweep(c).Effect(t.own), NoteSweep(d).Effect(t.own);
    var s := t.entries;
    FilterMapThen(FilterMap(FilterMap(s, f1), f2), f3, f4);
    FilterMapThen(FilterMap(s, f1), f2, Then(f3, f4));
    FilterMapThen(s, f1, Then(f2, Then(f3, f4)));
    forall x: Source ensures MultipleSweep(a, b, c, d).Effect(t.own)(x) == Then(f1, Then(f2, Then(f3, f4)))(x) {
      EffectsCompose(x, t.own, a, b, c, d);
    }
    FilterMapSame(s, MultipleSweep(a, b, c, d).Effect(t.own), Then(f1, Then(f2, Then(f3, f4))));
  }

  // ---- Whole runs ----

  // The shortfall after an event: uncounted markings add up, and a sweep or a
  // Clear wipes them out.
  function Shortfall(t: Table, e: Event, before: int): (r: int)
    ensures before >= 0 ==> r >= 0
  {
    match e
    case Rtp(p, now, sender, handled) => before + UncountedRtp(t, p, now, sender, handled)
    case Timeout(_) => 0
    case Clear => 0
    case _ => before
  }

  function RunShortfall(t: Table, events: seq<Event>): nat {
    if events == [] then 0
    else
      var front := events[..|events| - 1];
      Shortfall(Run(t, front), events[|events| - 1], RunShortfall(t, front))
  }

  lemma StepKeeps(t: Table, e: Event, shortfall: int)
    requires Inv(t) && Deficit(t) == shortfall
    ensures Inv(Step(t, e)) && Deficit(Step(t, e)) == Shortfall(t, e, shortfall)
  {
    match e
    case Create(ssrc) => CreateOwnKeeps(t, ssrc);
    case Delete => DeleteOwnKeeps(t);
    case Sent(now) => SentKeeps(t, now);
    case Rtp(p, now, sender, handled) => ProcessRtpPacketKeeps(t, p, now, sender, handled);
    case Refresh(ssrc, now, sender) => EntryKeeps(t, ssrc, sender, now);
    case Sdes(ssrc, id, data, now, sender) => SdesKeeps(t, ssrc, id, data, now, sender);
    case Bye(ssrc, now, sender) => ByeKeeps(t, ssrc, now, sender);
    case Take(ssrc) => TakeKeeps(t, ssrc);
    case Timeout(sw) => SweepKeeps(t, sw);
    case Clear =>
  }

  // In every reachable state the total and sender counters are exact, and the
  // active counter falls short by exactly the uncounted markings since the last
  // sweep: it never exceeds the number of active entries, and equals it if and
  // only if there was no such marking.
  lemma {:induction false} CountersOverRuns(probationtype: ProbationType, events: seq<Event>)
    ensures var t := Run(Empty(probationtype), events);
            && Inv(t)
            && t.active + RunShortfall(Empty(probationtype), events) == Count(t.entries, IsActive())
  {
    if events != [] {
      var front := events[..|events| - 1];
      CountersOverRuns(probationtype, front);
      StepKeeps(Run(Empty(probationtype), front), events[|events| - 1], RunShortfall(Empty(probationtype), front));
    }
  }

  lemma RunAppend(t: Table, events: seq<Event>, e: Event)
    ensures Run(t, events + [e]) == Step(Run(t, events), e)
  {
    assert (events + [e])[..|events|] == events;
  }

  lemma RunOfFour(t: Table, a: Event, b: Event, c: Event, d: Event)
    ensures Run(t, [] + [a] + [b] + [c] + [d]) == Step(Step(Step(Step(t, a), b), c), d)
  {
    RunAppend(t, [], a);
    RunAppend(t, [] + [a], b);
    RunAppend(t, [] + [a] + [b], c);
    RunAppend(t, [] + [a] + [b] + [c], d);
  }

  // An entry last heard from this address only.
  predicate HeardFrom(s: Source, ssrc: uint32, sender: Option<Address>) {
    && s.ssrc == ssrc
    && (s.isrtpaddrset ==> s.rtpaddr == sender) && (s.isrtcpaddrset ==> s.rtcpaddr == sender)
  }

  lemma CsrcWithoutCount(p: Packet, sender: Option<Address>)
    requires p.ssrc == 2 && p.csrcs == [1]
    ensures var t := Step(Step(Empty(NoProbation), Refresh(1, 0.0, sender)), Rtp(p, 0.0, sender, true));
            && |t.entries| == 2 && t.own.None? && t.active == 1
            && HeardFrom(t.entries[0], 1, sender) && t.entries[0].Active()
            && HeardFrom(t.entries[1], 2, sender) && t.entries[1].Active()
  {
    var t := Step(Empty(NoProbation), Refresh(1, 0.0, sender));
    assert |t.entries| == 1 && t.active == 0;
    var a := Admit(t, 2, sender, true);
    assert !a.collision && a.pos == 1;
    var u := UpdateCounted(a.table, 1, ProcessRtp(a.table.entries[1], p, 0.0, true).src);
    assert ProcessCsrcs(u, p.csrcs, sender) == ProcessCsrcs(ProcessCsrc(u, 1, sender), [], sender);
    assert Find(u.entries, 1) == 0;
  }

  lemma ByeUncounts(t: Table, i: nat, ssrc: uint32, sender: Option<Address>)
    requires t.own.None? && i < |t.entries| && Find(t.entries, ssrc) == i
    requires HeardFrom(t.entries[i], ssrc, sender) && t.entries[i].Active()
    ensures var r := Step(t, Bye(ssrc, 0.0, sender));
            && r.active == t.active - 1 && r.own.None? && |r.entries| == |t.entries|
            && forall k :: 0 <= k < |t.entries| && k != i ==> r.entries[k] == t.entries[k]
  {
    assert GotEntry(t, ssrc) && Obtain(t, ssrc) == t;
    assert !CheckCollision(t.entries[i], sender, false).collision;
  }

  lemma TwoByes(t: Table, sender: Option<Address>)
    requires |t.entries| == 2 && t.own.None? && t.active == 1
    requires HeardFrom(t.entries[0], 1, sender) && t.entries[0].Active()
    requires HeardFrom(t.entries[1], 2, sender) && t.entries[1].Active()
    ensures Step(Step(t, Bye(1, 0.0, sender)), Bye(2, 0.0, sender)).active == -1
  {
    assert Find(t.entries, 1) == 0;
    ByeUncounts(t, 0, 1, sender);
    var u := Step(t, Bye(1, 0.0, sender));
    FindPresent(u.entries, 1);
    StepEntry(t, sender);
    assert Find(u.entries, 2) == 1;
    ByeUncounts(u, 1, 2, sender);
  }

  lemma StepEntry(t: Table, sender: Option<Address>)
    requires |t.entries| == 2 && t.own.None? && HeardFrom(t.entries[0], 1, sender)
    ensures Step(t, Bye(1, 0.0, sender)).entries[0].ssrc == 1
  {
    assert Find(t.entries, 1) == 0;
  }

  // The active counter can even become negative: a contributing source is
  // marked without being counted, and its BYE is counted all the same.
  lemma ActiveCountCanBeNegative(p: Packet, sender: Option<Address>)
    requires p.ssrc == 2 && p.csrcs == [1]
    ensures Run(Empty(NoProbation), [] + [Refresh(1, 0.0, sender)] + [Rtp(p, 0.0, sender, true)] +
                                    [Bye(1, 0.0, sender)] + [Bye(2, 0.0, sender)]).active == -1
  {
    RunOfFour(Empty(NoProbation), Refresh(1, 0.0, sender), Rtp(p, 0.0, sender, true), Bye(1, 0.0, sender),
        Bye(2, 0.0, sender));
    CsrcWithoutCount(p, sender);
    TwoByes(Step(Step(Empty(NoProbation), Refresh(1, 0.0, sender)), Rtp(p, 0.0, sender, true)), sender);
  }

  // ---- A session in which the active counter becomes negative ----

  lemma {:induction false} NotListed(s: seq<Source>, ssrc: uint32)
    requires forall i :: 0 <= i < |s| ==> s[i].ssrc != ssrc
    ensures Find(s, ssrc) == |s|
  {
    if s != [] {
      NotListed(s[1..], ssrc);
    }
  }

  // An entry that has not said goodbye, and has been heard from this address only.
  predicate Peer(s: Source, ssrc: uint32, sender: Option<Address>, active: bool) {
    HeardFrom(s, ssrc, sender) && !s.receivedbye && s.validated == active
  }

  // r is t with entry i replaced, and delta more active entries counted.
  predicate Changed(t: Table, r: Table, i: nat, delta: int) {
    && |r.entries| == |t.entries| && r.own == t.own && r.active == t.active + delta
    && forall k :: 0 <= k < |t.entries| && k != i ==> r.entries[k] == t.entries[k]
  }

  // r is t with one entry more at the end.
  predicate Added(t: Table, r: Table, delta: int) {
    && |r.entries| == |t.entries| + 1 && r.own == t.own && r.active == t.active + delta
    && r.probationtype == t.probationtype
    && r.entries[..|t.entries|] == t.entries
  }

  lemma RefreshAdds(t: Table, ssrc: uint32, sender: Option<Address>)
    requires Inv(t) && forall i :: 0 <= i < |t.entries| ==> t.entries[i].ssrc != ssrc
    ensures var r := Step(t, Refresh(ssrc, 0.0, sender));
            Inv(r) && Added(t, r, 0) && Peer(r.entries[|t.entries|], ssrc, sender, false)
  {
    NotListed(t.entries, ssrc);
    ObtainFinds(t, ssrc);
    StepKeeps(t, Refresh(ssrc, 0.0, sender), Deficit(t));
  }

  // The table between the packet's own source and its contributing sources.
  function BeforeCsrcs(t: Table, p: Packet, sender: Option<Address>): Table {
    var a := Admit(t, p.ssrc, sender, true);
    UpdateCounted(a.table, a.pos, ProcessRtp(a.table.entries[a.pos], p, 0.0, true).src)
  }

  // A new source is admitted as it is created, with the sender's address.
  lemma AdmitAdds(t: Table, ssrc: uint32, sender: Option<Address>, isrtp: bool)
    requires Find(t.entries, ssrc) == |t.entries|
    ensures var a := Admit(t, ssrc, sender, isrtp);
            && !a.collision && a.pos == |t.entries| && Added(t, a.table, 0)
            && a.table.entries[a.pos] == SetAddress(NewSource(ssrc, t.probationtype), sender, isrtp)
  {
    ObtainFinds(t, ssrc);
  }

  lemma FirstPacketCounts(s: Source, p: Packet, sender: Option<Address>)
    requires s == SetAddress(NewSource(p.ssrc, NoProbation), sender, true)
    ensures var x := ProcessRtp(s, p, 0.0, true).src; Peer(x, p.ssrc, sender, true) && !s.Active() && x.Active()
  {
  }

  lemma RtpAdds(t: Table, p: Packet, sender: Option<Address>)
    requires Inv(t) && t.probationtype.NoProbation? && t.own != Some(p.ssrc)
    requires forall i :: 0 <= i < |t.entries| ==> t.entries[i].ssrc != p.ssrc
    ensures var r := BeforeCsrcs(t, p, sender);
            && Inv(r) && Added(t, r, 1) && Peer(r.entries[|t.entries|], p.ssrc, sender, true)
            && Step(t, Rtp(p, 0.0, sender, true)) == ProcessCsrcs(r, p.csrcs, sender)
  {
    hide ProcessRtp, Admit, Inv, Obtain;
    NotListed(t.entries, p.ssrc);
    AdmitKeeps(t, p.ssrc, sender, true);
    AdmitAdds(t, p.ssrc, sender, true);
    var a := Admit(t, p.ssrc, sender, true);
    FirstPacketCounts(a.table.entries[a.pos], p, sender);
    RtpEntryKeeps(a.table, a.pos, p, 0.0, true, ProcessRtp(a.table.entries[a.pos], p, 0.0, true).src);
  }

  lemma CsrcMarks(t: Table, i: nat, csrc: uint32, sender: Option<Address>)
    requires Inv(t) && i < |t.entries| && Peer(t.entries[i], csrc, sender, false) && t.own != Some(csrc)
    ensures var r := ProcessCsrc(t, csrc, sender);
            Inv(r) && Changed(t, r, i, 0) && Peer(r.entries[i], csrc, sender, true)
  {
    FindIs(t.entries, i);
    ProcessCsrcKeeps(t, csrc, sender);
  }

  lemma ByeTakes(t: Table, i: nat, ssrc: uint32, sender: Option<Address>)
    requires Inv(t) && i < |t.entries| && Peer(t.entries[i], ssrc, sender, true) && t.own != Some(ssrc)
    ensures var r := Step(t, Bye(ssrc, 0.0, sender)); Inv(r) && Changed(t, r, i, -1)
  {
    hide EntryOk, CountersOk;
    FindIs(t.entries, i);
    StepKeeps(t, Bye(ssrc, 0.0, sender), Deficit(t));
  }

  // Three sources are heard of by RTCP; a fourth one sends data that names them as
  // contributing sources; all four say goodbye.
  function GoodbyeEvents(p: Packet, sender: Option<Address>): seq<Event> {
    [Create(9), Refresh(1, 0.0, sender), Refresh(2, 0.0, sender), Refresh(3, 0.0, sender), Rtp(p, 0.0, sender, true),
     Bye(1, 0.0, sender), Bye(2, 0.0, sender), Bye(3, 0.0, sender), Bye(10, 0.0, sender)]
  }

  // The SSRC of the entry at position i.
  function PeerSsrc(i: nat): uint32 {
    if i == 0 then 9 else if i == 4 then 10 else i % 4
  }

  predicate Goodbyes(events: seq<Event>, p: Packet, sender: Option<Address>) {
    && |events| == 9 && events[0] == Create(9) && events[4] == Rtp(p, 0.0, sender, true)
    && (forall i :: 1 <= i <= 3 ==> events[i] == Refresh(PeerSsrc(i), 0.0, sender))
    && (forall i :: 5 <= i <= 8 ==> events[i] == Bye(PeerSsrc(i - 4), 0.0, sender))
  }

  function After(events: seq<Event>, n: nat): Table
    requires n <= |events|
  {
    Run(Empty(NoProbation), events[..n])
  }

  lemma AfterNext(events: seq<Event>, n: nat, e: Event)
    requires n < |events| && events[n] == e
    ensures After(events, 0) == Empty(NoProbation) && After(events, n + 1) == Step(After(events, n), e)
  {
    assert events[..n + 1][..n] == events[..n];
  }

  lemma OwnAdds(t: Table, ssrc: uint32)
    requires Inv(t) && t.own.None? && forall i :: 0 <= i < |t.entries| ==> t.entries[i].ssrc != ssrc
    ensures var r := CreateOwn(t, ssrc);
            && Inv(r) && |r.entries| == |t.entries| + 1 && r.own == Some(ssrc) && r.active == t.active + 1
            && r.entries[|t.entries|].ssrc == ssrc && r.probationtype == t.probationtype
  {
    NotListed(t.entries, ssrc);
    CreateOwnKeeps(t, ssrc);
  }

  // After the own entry, n entries that are not valid yet.
  ghost predicate Joined(t: Table, n: nat, sender: Option<Address>) {
    && Inv(t) && n <= 3 && |t.entries| == n + 1 && t.own == Some(9) && t.probationtype.NoProbation? && t.active == 1
    && t.entries[0].ssrc == 9 && forall i :: 1 <= i <= n ==> Peer(t.entries[i], PeerSsrc(i), sender, false)
  }

  lemma JoinedMore(t: Table, n: nat, sender: Option<Address>, r: Table)
    requires Joined(t, n, sender) && n < 3 && Inv(r) && Added(t, r, 0)
    requires Peer(r.entries[n + 1], PeerSsrc(n + 1), sender, false)
    ensures Joined(r, n + 1, sender)
  {
    assert forall i :: 0 <= i <= n ==> r.entries[i] == r.entries[..n + 1][i] == t.entries[i];
  }

  lemma JoinOne(t: Table, n: nat, sender: Option<Address>, r: Table)
    requires Joined(t, n, sender) && n < 3 && r == Step(t, Refresh(PeerSsrc(n + 1), 0.0, sender))
    ensures Joined(r, n + 1, sender)
  {
    hide Step, Inv;
    RefreshAdds(t, PeerSsrc(n + 1), sender);
    JoinedMore(t, n, sender, r);
  }

  // Five entries: the own one, and four that have been heard of; the active ones
  // among the three from m to 3, the last one from the start.
  ghost predicate Marked(t: Table, m: nat, sender: Option<Address>) {
    && Inv(t) && 1 <= m <= 4 && |t.entries| == 5 && t.own == Some(9) && t.active == 2
    && Peer(t.entries[4], PeerSsrc(4), sender, true)
    && forall i :: 1 <= i <= 3 ==> Peer(t.entries[i], PeerSsrc(i), sender, i < m)
  }

  lemma DataMarks(t: Table, p: Packet, sender: Option<Address>) returns (r: Table)
    requires Joined(t, 3, sender) && p.ssrc == 10
    ensures Marked(r, 1, sender) && Step(t, Rtp(p, 0.0, sender, true)) == ProcessCsrcs(r, p.csrcs, sender)
  {
    RtpAdds(t, p, sender);
    r := BeforeCsrcs(t, p, sender);
    assert forall i :: 0 <= i <= 3 ==> r.entries[i] == r.entries[..4][i] == t.entries[i];
  }

  lemma MarkOne(t: Table, m: nat, sender: Option<Address>, r: Table)
    requires Marked(t, m, sender) && m <= 3 && r == ProcessCsrc(t, PeerSsrc(m), sender)
    ensures Marked(r, m + 1, sender)
  {
    CsrcMarks(t, m, PeerSsrc(m), sender);
  }

  // The SSRCs of the three from m on.
  predicate Names(csrcs: seq<uint32>, m: nat) {
    |csrcs| + m == 4 && forall k :: 0 <= k < |csrcs| ==> csrcs[k] == PeerSsrc(m + k)
  }

  lemma {:induction false} MarkAll(t: Table, m: nat, csrcs: seq<uint32>, sender: Option<Address>)
    requires Marked(t, m, sender) && Names(csrcs, m)
    ensures Marked(ProcessCsrcs(t, csrcs, sender), 4, sender)
    decreases csrcs
  {
    hide Marked, ProcessCsrc;
    if csrcs != [] {
      assert csrcs[0] == PeerSsrc(m) && Names(csrcs[1..], m + 1);
      var r := ProcessCsrc(t, csrcs[0], sender);
      MarkOne(t, m, sender, r);
      MarkAll(r, m + 1, csrcs[1..], sender);
    }
  }

  // Of the four, the first n have said goodbye.
  ghost predicate Left(t: Table, n: nat, sender: Option<Address>) {
    && Inv(t) && n <= 4 && |t.entries| == 5 && t.own == Some(9) && t.active == 2 - n
    && forall i :: n < i <= 4 ==> Peer(t.entries[i], PeerSsrc(i), sender, true)
  }

  lemma LeftMore(t: Table, n: nat, sender: Option<Address>, r: Table)
    requires Left(t, n, sender) && n < 4 && Inv(r) && Changed(t, r, n + 1, -1)
    ensures Left(r, n + 1, sender)
  {
  }

  lemma LeaveOne(t: Table, n: nat, sender: Option<Address>, r: Table)
    requires Left(t, n, sender) && n < 4 && r == Step(t, Bye(PeerSsrc(n + 1), 0.0, sender))
    ensures Left(r, n + 1, sender)
  {
    ByeTakes(t, n + 1, PeerSsrc(n + 1), sender);
    LeftMore(t, n, sender, r);
  }

  lemma GoodbyeArrives(events: seq<Event>, p: Packet, sender: Option<Address>, n: nat)
    requires Goodbyes(events, p, sender) && n < 4 && Left(After(events, n + 5), n, sender)
    ensures Left(After(events, n + 6), n + 1, sender)
  {
    hide Step, Left, Run;
    AfterNext(events, n + 5, Bye(PeerSsrc(n + 1), 0.0, sender));
    LeaveOne(After(events, n + 5), n, sender, After(events, n + 6));
  }

  lemma {:induction false} PeersJoin(events: seq<Event>, p: Packet, sender: Option<Address>, n: nat)
    requires Goodbyes(events, p, sender) && n <= 3
    ensures Joined(After(events, n + 1), n, sender)
  {
    if n == 0 {
      AfterNext(events, 0, Create(9));
      OwnAdds(Empty(NoProbation), 9);
    } else {
      AfterNext(events, n, Refresh(PeerSsrc(n), 0.0, sender));
      PeersJoin(events, p, sender, n - 1);
      JoinOne(After(events, n), n - 1, sender, After(events, n + 1));
    }
  }

  lemma MarkedLeft(t: Table, sender: Option<Address>)
    requires Marked(t, 4, sender)
    ensures Left(t, 0, sender)
  {
  }

  lemma CsrcsLeft(t: Table, csrcs: seq<uint32>, sender: Option<Address>)
    requires Marked(t, 1, sender) && csrcs == [1, 2, 3]
    ensures Left(ProcessCsrcs(t, csrcs, sender), 0, sender)
  {
    MarkAll(t, 1, csrcs, sender);
    MarkedLeft(ProcessCsrcs(t, csrcs, sender), sender);
  }

  lemma DataStep(t: Table, p: Packet, sender: Option<Address>, r: Table)
    requires Joined(t, 3, sender) && p.ssrc == 10 && p.csrcs == [1, 2, 3] && r == Step(t, Rtp(p, 0.0, sender, true))
    ensures Left(r, 0, sender)
  {
    var u := DataMarks(t, p, sender);
    CsrcsLeft(u, p.csrcs, sender);
  }

  lemma DataArrives(events: seq<Event>, p: Packet, sender: Option<Address>)
    requires Goodbyes(events, p, sender) && p.ssrc == 10 && p.csrcs == [1, 2, 3]
    ensures Left(After(events, 5), 0, sender)
  {
    PeersJoin(events, p, sender, 3);
    AfterNext(events, 4, Rtp(p, 0.0, sender, true));
    DataStep(After(events, 4), p, sender, After(events, 5));
  }

  lemma {:induction false} PeersLeave(events: seq<Event>, p: Packet, sender: Option<Address>, n: nat)
    requires Goodbyes(events, p, sender) && p.ssrc == 10 && p.csrcs == [1, 2, 3] && n <= 4
    ensures Left(After(events, n + 5), n, sender)
  {
    if n == 0 {
      DataArrives(events, p, sender);
    } else {
      PeersLeave(events, p, sender, n - 1);
      GoodbyeArrives(events, p, sender, n - 1);
    }
  }

  // With an own entry the active counter goes down with every BYE: from 2 to -2,
  // while the own entry stays active.
  lemma OwnCountCanBeNegative(events: seq<Event>, p: Packet, sender: Option<Address>, n: nat)
    requires Goodbyes(events, p, sender) && p.ssrc == 10 && p.csrcs == [1, 2, 3] && n <= 4
    ensures var t := After(events, n + 5); Inv(t) && t.own == Some(9) && t.active == 2 - n
  {
    PeersLeave(events, p, sender, n);
  }

  // There are such events.
  lemma GoodbyesExist(p: Packet, sender: Option<Address>)
    ensures Goodbyes(GoodbyeEvents(p, sender), p, sender)
  {
  }
}
