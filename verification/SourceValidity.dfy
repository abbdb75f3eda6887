// When a source is taken to be valid: over whole runs of table events, exactly when
// it has proved itself by its packets, has sent a CNAME, or a valid source has named
// it as contributing.
module SourceValidity {
  import opened Types
  import opened SourceState
  import opened SourceTable
  import opened SourceCounters
  import opened SourceHistory

  // ---- What makes a source valid ----

  // The sequence numbers of the RTP packets that came from the source since its
  // entry was made.
  function Numbers(t: Table, events: seq<Event>, s: uint32): seq<uint16> {
    if events == [] || !GotEntry(Run(t, events), s) then []
    else
      var front, e := events[..|events| - 1], events[|events| - 1];
      Numbers(t, front, s) + if e.Rtp? && From(Run(t, front), e, s) then [Wrap16(e.packet.extseqnr)] else []
  }

  // The last two numbers follow one another.
  predicate Pair(ns: seq<uint16>) {
    |ns| >= 2 && ns[|ns| - 1] == Wrap16(ns[|ns| - 2] as int + 1)
  }

  // So do the last three.
  predicate Triple(ns: seq<uint16>) {
    |ns| >= 3 && Pair(ns) && Pair(ns[..|ns| - 1])
  }

  // The packet e of this source completes its probation, if there is one.
  predicate Proves(t: Table, front: seq<Event>, e: Event, s: uint32) {
    && e.Rtp? && From(Run(t, front), e, s)
    && (t.probationtype.NoProbation? || Triple(Numbers(t, front, s) + [Wrap16(e.packet.extseqnr)]))
  }

  // The event e, after those of front, is a packet of a source that is valid by then,
  // if only by this packet; it names s as contributing, and the address check does
  // not object.
  predicate Names(t: Table, front: seq<Event>, e: Event, s: uint32)
    decreases |front|, 1
  {
    && e.Rtp? && s in e.packet.csrcs && Passes(Run(t, front), s, e.sender, true)
    && var c := e.packet.ssrc;
       && Passes(Run(t, front), c, e.sender, true)
       && (Run(t, front).own == Some(c) || Valid(t, front, c) || Proves(t, front, e, c))
  }

  // The event shows that the source is there: it proves itself, it gives its CNAME,
  // or it is named.
  predicate Vouches(t: Table, front: seq<Event>, e: Event, s: uint32)
    decreases |front|, 2
  {
    || Proves(t, front, e, s)
    || (e.Sdes? && e.id == SDES_CNAME && From(Run(t, front), e, s))
    || Names(t, front, e, s)
  }

  // Some event since its entry was made has shown that the source is there.
  predicate Valid(t: Table, events: seq<Event>, s: uint32)
    decreases |events|, 0
  {
    events != [] && GotEntry(Run(t, events), s) &&
    var front, e := events[..|events| - 1], events[|events| - 1];
    (Valid(t, front, s) || Vouches(t, front, e, s))
  }

  // Some event since then has named it as contributing.
  predicate Named(t: Table, events: seq<Event>, s: uint32) {
    events != [] && GotEntry(Run(t, events), s) &&
    var front, e := events[..|events| - 1], events[|events| - 1];
    (Named(t, front, s) || Names(t, front, e, s))
  }

  // ---- Probation ----

  // A source that is not valid yet, with the numbers of its packets so far.
  predicate Probing(x: Source, ns: seq<uint16>) {
    && !x.stats.sentdata && x.sdes.cname == []
    && x.stats.probation == (if ns == [] then 0 else if Pair(ns) then 1 else 2)
    && (ns != [] ==> x.stats.prevseqnr == ns[|ns| - 1] && !x.probationtype.NoProbation?)
  }

  predicate SameProbe(x: Source, y: Source) {
    && y.probationtype == x.probationtype && y.sdes.cname == x.sdes.cname
    && y.stats.sentdata == x.stats.sentdata && y.stats.probation == x.stats.probation
    && y.stats.prevseqnr == x.stats.prevseqnr
  }

  predicate Untouched(x: Source, y: Source) {
    SameProbe(x, y) && y.validated == x.validated && y.iscsrc == x.iscsrc
  }

  lemma ProbingStays(x: Source, y: Source, ns: seq<uint16>)
    requires Probing(x, ns) && SameProbe(x, y)
    ensures Probing(y, ns)
  {
  }

  // One RTP packet of a source.
  lemma PacketJudged(c: Source, p: Packet, now: real, handled: bool, ns: seq<uint16>)
    requires c.validated || Probing(c, ns)
    ensures var src, more := ProcessRtp(c, p, now, handled).src, ns + [Wrap16(p.extseqnr)];
            && src.probationtype == c.probationtype && src.iscsrc == c.iscsrc
            && src.validated == (c.validated || c.probationtype.NoProbation? || Triple(more))
            && (!src.validated ==> Probing(src, more))
  {
    hide Insert, Queued, Extend, Capped;
    var more := ns + [Wrap16(p.extseqnr)];
    assert more[..|more| - 1] == ns;
    ProcessedIs(c, p, now, handled);
    if !c.validated && !c.probationtype.NoProbation? {
      ProbeJudged(c.stats, Wrap16(p.extseqnr), now, c.ownssrc, ns);
    }
  }

  lemma ProcessedIs(c: Source, p: Packet, now: real, handled: bool)
    ensures var src := ProcessRtp(c, p, now, handled).src;
            var o := ProcessStats(c.stats, Wrap16(p.extseqnr), now, c.ownssrc,
                         !c.validated && !c.probationtype.NoProbation?);
            && src.probationtype == c.probationtype && src.sdes == c.sdes && src.stats == o.stats
            && src.iscsrc == c.iscsrc
            && src.validated == (c.validated || o.accept)
  {
    hide Insert, Queued, ProcessStats, Capped;
  }

  lemma ProbeJudged(st: Stats, seq16: uint16, now: real, own: bool, ns: seq<uint16>)
    requires st.probation == (if ns == [] then 0 else if Pair(ns) then 1 else 2)
    requires ns != [] ==> st.prevseqnr == ns[|ns| - 1]
    requires !st.sentdata
    ensures var o, more := Probe(st, seq16, now, own), ns + [seq16];
            && o.accept == Triple(more)
            && (!o.accept ==> o.stats.prevseqnr == seq16 && o.stats.probation == (if Pair(more) then 1 else 2)
                              && !o.stats.sentdata)
  {
    var more := ns + [seq16];
    assert more[..|more| - 1] == ns;
  }

  // ---- One event ----

  lemma UntouchedSelf(x: Source)
    ensures Untouched(x, x)
  {
  }

  lemma CheckedUntouched(t: Table, c: uint32, sender: Option<Address>, isrtp: bool)
    ensures Untouched(Was(t, c), Checked(t, c, sender, isrtp))
  {
    ObtainFinds(t, c);
  }

  lemma SameEntry(t: Table, r: Table, s: uint32)
    requires Entry(r, s) == Entry(t, s) && r.probationtype == t.probationtype
    ensures Untouched(Was(t, s), Was(r, s)) && Was(r, s) == Was(t, s)
  {
  }

  lemma StepType(t: Table, e: Event)
    ensures Step(t, e).probationtype == t.probationtype
  {
    hide Admit, ProcessRtp, ProcessSdes, FilterMap, CheckCollision, ProcessCsrcs;
    if e.Rtp? {
      var a := Admit(t, e.packet.ssrc, e.sender, true);
      AdmitType(t, e.packet.ssrc, e.sender, true);
      if !a.collision {
        var src := ProcessRtp(a.table.entries[a.pos], e.packet, e.now, e.handled).src;
        CsrcsType(UpdateCounted(a.table, a.pos, src), e.packet.csrcs, e.sender);
      }
    } else if e.Refresh? || e.Sdes? || e.Bye? {
      AdmitType(t, e.ssrc, e.sender, false);
    }
  }

  lemma AdmitType(t: Table, c: uint32, sender: Option<Address>, isrtp: bool)
    ensures Admit(t, c, sender, isrtp).table.probationtype == t.probationtype
  {
  }

  lemma {:induction false} CsrcsType(t: Table, csrcs: seq<uint32>, sender: Option<Address>)
    ensures ProcessCsrcs(t, csrcs, sender).probationtype == t.probationtype
    decreases csrcs
  {
    if csrcs != [] {
      CsrcsType(ProcessCsrc(t, csrcs[0], sender), csrcs[1..], sender);
    }
  }

  // An event that rewrites the one entry it is about, or collides.
  lemma Rewritten(t: Table, e: Event, s: uint32, y: Source)
    requires Inv(t) && t.own != Some(s) && (e.Refresh? || e.Sdes? || e.Bye?) && y.ssrc == e.ssrc
    requires var a := Admit(t, e.ssrc, e.sender, false);
             Step(t, e) == if a.collision then a.table else
               a.table.(entries := Update(a.table, a.pos, y).entries, active := Step(t, e).active,
                        senders := Step(t, e).senders)
    ensures var x, z := Was(t, s), Was(Step(t, e), s);
            if e.ssrc == s && Passes(t, s, e.sender, false) then z == y else Untouched(x, z)
  {
    hide Admit, CountersOk, EntryOk, Step, Untouched;
    var a := Admit(t, e.ssrc, e.sender, false);
    AdmitEntry(t, e.ssrc, e.sender, false, s);
    CheckedUntouched(t, e.ssrc, e.sender, false);
    StepType(t, e);
    UntouchedSelf(Was(t, s));
    if !a.collision {
      EventEntry(t, e.ssrc, e.sender, false, y, Step(t, e), s);
      if e.ssrc != s {
        SameEntry(t, Step(t, e), s);
      }
    } else if e.ssrc != s {
      SameEntry(t, Step(t, e), s);
    }
  }

  // The events that are no RTP packets: only a CNAME makes a source valid.
  ghost predicate Judges(t: Table, e: Event, s: uint32, x: Source, y: Source) {
    && y.probationtype == x.probationtype && y.iscsrc == x.iscsrc
    && (x.validated ==> y.validated)
    && (!x.validated && x.sdes.cname == [] ==>
          (y.validated <==> e.Sdes? && e.id == SDES_CNAME && From(t, e, s)) && (!y.validated ==> SameProbe(x, y)))
  }

  lemma UntouchedJudges(t: Table, e: Event, s: uint32, x: Source, y: Source)
    requires Untouched(x, y) && !(e.Sdes? && From(t, e, s))
    ensures Judges(t, e, s, x, y)
  {
  }

  lemma RefreshJudges(t: Table, e: Event, s: uint32)
    requires Inv(t) && e.Refresh? && t.own != Some(s)
    ensures Judges(t, e, s, Was(t, s), Was(Step(t, e), s))
  {
    hide Admit, Inv, Passes;
    var c := Checked(t, e.ssrc, e.sender, false);
    CheckedIs(t, e.ssrc, e.sender, false);
    CheckedUntouched(t, e.ssrc, e.sender, false);
    Rewritten(t, e, s, c.WithMessageTime(e.now));
  }

  lemma ByeJudges(t: Table, e: Event, s: uint32)
    requires Inv(t) && e.Bye? && t.own != Some(s)
    ensures Judges(t, e, s, Was(t, s), Was(Step(t, e), s))
  {
    hide Admit, Passes, EntryOk, CountersOk;
    var c := Checked(t, e.ssrc, e.sender, false);
    CheckedIs(t, e.ssrc, e.sender, false);
    CheckedUntouched(t, e.ssrc, e.sender, false);
    if t.own == Some(e.ssrc) {
      AdmitEntry(t, e.ssrc, e.sender, false, s);
      StepType(t, e);
      SameEntry(t, Step(t, e), s);
    } else {
      Rewritten(t, e, s, ProcessBye(c, e.now));
    }
  }

  // An item leaves the probation as it is; only a first CNAME makes valid.
  lemma ItemProbe(c: Source, id: int, data: seq<byte>, now: real)
    requires 1 <= id <= 7
    ensures var y := ProcessSdes(c, id, data, now).src;
            && y.probationtype == c.probationtype && y.stats.sentdata == c.stats.sentdata && y.iscsrc == c.iscsrc
            && y.stats.probation == c.stats.probation && y.stats.prevseqnr == c.stats.prevseqnr
            && y.validated == (c.validated || (id == SDES_CNAME && c.sdes.cname == []))
            && (id != SDES_CNAME ==> y.sdes.cname == c.sdes.cname)
  {
    hide ProcessSdes;
    SdesIs(c, id, data, now);
    if id != SDES_CNAME {
      SetGet(c.sdes, id, data, SDES_CNAME);
    }
  }

  lemma ItemJudges(t: Table, e: Event, s: uint32, c: Source)
    requires e.Sdes? && 1 <= e.id <= 7 && e.ssrc == s && Passes(t, s, e.sender, false) && Untouched(Was(t, s), c)
    ensures Judges(t, e, s, Was(t, s), ProcessSdes(c, e.id, e.data, e.now).src)
  {
    hide Passes, ProcessSdes, Was;
    ItemProbe(c, e.id, e.data, e.now);
  }

  lemma SdesJudges(t: Table, e: Event, s: uint32)
    requires Inv(t) && e.Sdes? && t.own != Some(s)
    ensures Judges(t, e, s, Was(t, s), Was(Step(t, e), s))
  {
    hide Admit, Inv, Passes, ProcessSdes, Untouched, Judges;
    UntouchedSelf(Was(t, s));
    if 1 <= e.id <= 7 {
      var c := Checked(t, e.ssrc, e.sender, false);
      var y := ProcessSdes(c, e.id, e.data, e.now).src;
      CheckedIs(t, e.ssrc, e.sender, false);
      CheckedUntouched(t, e.ssrc, e.sender, false);
      SdesTimes(c, e, y);
      Rewritten(t, e, s, y);
      if e.ssrc == s && Passes(t, s, e.sender, false) {
        ItemJudges(t, e, s, c);
      } else {
        UntouchedJudges(t, e, s, Was(t, s), Was(Step(t, e), s));
      }
    } else {
      UntouchedJudges(t, e, s, Was(t, s), Was(Step(t, e), s));
    }
  }

  lemma TakeJudges(t: Table, c: uint32, s: uint32)
    requires Inv(t)
    ensures Untouched(Was(t, s), Was(TakePacket(t, c), s))
  {
    hide EntryOk, CountersOk;
    if GotEntry(t, c) {
      var i := Find(t.entries, c);
      UpdateEntry(t, i, NextPacket(t.entries[i]).src, s);
    }
  }

  lemma FlagUntouched(x: Source)
    ensures Untouched(x, x.(issender := false))
  {
  }

  lemma NoteUntouched(x: Source)
    ensures Untouched(x, x.(sdes := x.sdes.(note := [])))
  {
  }

  lemma ExpiryUntouched(x: Source, check: real)
    ensures Untouched(x, ExpireSender(x, check)) && Untouched(x, ExpireNote(x, check))
  {
    hide Untouched;
    FlagUntouched(x);
    NoteUntouched(x);
    UntouchedSelf(x);
  }

  lemma UntouchedThen(x: Source, y: Source, z: Source)
    requires Untouched(x, y) && Untouched(y, z)
    ensures Untouched(x, z)
  {
  }

  lemma RewriteUntouched(x: Source, sw: Sweep)
    ensures Untouched(x, sw.Rewrite(x))
  {
    hide Untouched, ExpireSender, ExpireNote;
    UntouchedSelf(x);
    match sw
    case SenderSweep(check) => ExpiryUntouched(x, check);
    case NoteSweep(check) => ExpiryUntouched(x, check);
    case MultipleSweep(sender, _, _, note) =>
      ExpiryUntouched(x, note);
      ExpiryUntouched(ExpireNote(x, note), sender);
      UntouchedThen(x, ExpireNote(x, note), sw.Rewrite(x));
    case _ =>
  }

  lemma SweepJudges(t: Table, sw: Sweep, s: uint32)
    requires Inv(t) && GotEntry(RunSweep(t, sw), s)
    ensures Untouched(Was(t, s), Was(RunSweep(t, sw), s))
  {
    hide RunSweep, Inv, Untouched;
    SweepEntry(t, sw, s);
    RewriteUntouched(Was(t, s), sw);
  }

  // Every event but an RTP packet.
  lemma OtherJudges(t: Table, e: Event, s: uint32)
    requires Inv(t) && !e.Rtp? && !e.Clear? && t.own != Some(s) && Step(t, e).own != Some(s)
    requires GotEntry(Step(t, e), s)
    ensures Judges(t, e, s, Was(t, s), Was(Step(t, e), s))
  {
    hide Admit, ProcessSdes, ProcessBye, Source.WithMessageTime, CreateOwn, DeleteOwn, SentRtpPacket, TakePacket,
         Passes, Inv, Judges, RunSweep, Untouched;
    StepType(t, e);
    match e
    case Create(c) =>
      CreateStep(t, c, s);
      SameEntry(t, Step(t, e), s);
      UntouchedJudges(t, e, s, Was(t, s), Was(Step(t, e), s));
    case Delete =>
      DeleteStep(t, s);
      SameEntry(t, Step(t, e), s);
      UntouchedJudges(t, e, s, Was(t, s), Was(Step(t, e), s));
    case Sent(now) =>
      SentStep(t, now, s);
      SameEntry(t, Step(t, e), s);
      UntouchedJudges(t, e, s, Was(t, s), Was(Step(t, e), s));
    case Take(c) =>
      TakeJudges(t, c, s);
      UntouchedJudges(t, e, s, Was(t, s), Was(Step(t, e), s));
    case Refresh(_, _, _) => RefreshJudges(t, e, s);
    case Sdes(_, _, _, _, _) => SdesJudges(t, e, s);
    case Bye(_, _, _) => ByeJudges(t, e, s);
    case Timeout(sw) =>
      SweepJudges(t, sw, s);
      UntouchedJudges(t, e, s, Was(t, s), Was(Step(t, e), s));
  }

  // ---- RTP packets ----

  lemma PassesByEntry(t: Table, u: Table, s: uint32, sender: Option<Address>)
    requires Entry(t, s) == Entry(u, s)
    ensures Passes(t, s, sender, true) <==> Passes(u, s, sender, true)
  {
    hide CheckCollision, Admit;
    PassesEntry(t, s, sender);
    PassesEntry(u, s, sender);
  }

  lemma PassesEntry(t: Table, s: uint32, sender: Option<Address>)
    ensures var x := Entry(t, s);
            Passes(t, s, sender, true) <==> x.None? || !CheckCollision(x.value, sender, true).collision
  {
    hide CheckCollision;
    CheckedIs(t, s, sender, true);
  }

  lemma CsrcJudged(t: Table, c: uint32, sender: Option<Address>, s: uint32)
    requires UniqueSsrcs(t.entries)
    ensures var r := ProcessCsrc(t, c, sender);
            && SameProbe(Was(t, s), Was(r, s)) && (s != c ==> Entry(r, s) == Entry(t, s))
            && (Was(r, s).validated <==> Was(t, s).validated || (s == c && Passes(t, s, sender, true)))
            && (Was(r, s).iscsrc <==> Was(t, s).iscsrc || (s == c && Passes(t, s, sender, true)))
            && (s == c && !Passes(t, s, sender, true) ==> Was(r, s) == Was(t, s))
  {
    hide Quiet, CheckCollision, SetCsrc;
    ObtainEntry(t, c, s);
    ObtainFinds(t, c);
    var r, y := Obtain(t, c), CsrcMarked(t, c, sender);
    var i := Find(r.entries, c);
    assert ProcessCsrc(t, c, sender).entries == Update(r, i, y).entries;
    CsrcMarkedIs(t, c, sender);
    UpdateEntry(r, i, y, s);
    assert Entry(ProcessCsrc(t, c, sender), s) == Entry(Update(r, i, y), s);
    CsrcType(t, c, sender);
    if s == c {
      PassesEntry(t, c, sender);
      MarkJudged(t, c, sender);
    }
  }

  lemma CsrcType(t: Table, c: uint32, sender: Option<Address>)
    ensures ProcessCsrc(t, c, sender).probationtype == t.probationtype
  {
    hide CheckCollision;
  }

  lemma MarkJudged(t: Table, c: uint32, sender: Option<Address>)
    ensures var x, y := Was(t, c), CsrcMarked(t, c, sender);
            var refused := GotEntry(t, c) && CheckCollision(x, sender, true).collision;
            && SameProbe(x, y) && (refused ==> y == x) && (!refused ==> y.validated && y.iscsrc)
  {
  }

  lemma {:induction false} CsrcsJudged(t: Table, csrcs: seq<uint32>, sender: Option<Address>, s: uint32)
    requires UniqueSsrcs(t.entries)
    ensures var r := ProcessCsrcs(t, csrcs, sender);
            && SameProbe(Was(t, s), Was(r, s))
            && (Was(r, s).validated <==> Was(t, s).validated || (s in csrcs && Passes(t, s, sender, true)))
            && (Was(r, s).iscsrc <==> Was(t, s).iscsrc || (s in csrcs && Passes(t, s, sender, true)))
    decreases csrcs
  {
    hide Passes, ProcessCsrc;
    if csrcs != [] {
      var c := csrcs[0];
      var u := ProcessCsrc(t, c, sender);
      CsrcEntry(t, c, sender, s);
      CsrcJudged(t, c, sender, s);
      CsrcsJudged(u, csrcs[1..], sender, s);
      if s == c {
        if !Passes(t, c, sender, true) {
          CsrcAgain(t, c, sender);
        }
      } else {
        PassesByEntry(t, u, s, sender);
      }
    }
  }

  // A source that is refused is refused again.
  lemma CsrcAgain(t: Table, c: uint32, sender: Option<Address>)
    requires UniqueSsrcs(t.entries) && !Passes(t, c, sender, true)
    ensures !Passes(ProcessCsrc(t, c, sender), c, sender, true)
  {
    hide CheckCollision, ProcessCsrc;
    CsrcJudged(t, c, sender, c);
    CsrcEntry(t, c, sender, c);
    PassesEntry(t, c, sender);
    PassesEntry(ProcessCsrc(t, c, sender), c, sender);
  }

  lemma RtpBinding(c: Source, p: Packet, now: real, handled: bool)
    ensures var src := ProcessRtp(c, p, now, handled).src;
            Bound(src, true) == Bound(c, true) && BoundTo(src, true) == BoundTo(c, true)
  {
    hide Insert, Queued, ProcessStats, Capped;
  }

  // A channel lets its own address pass.
  lemma BoundPasses(t: Table, s: uint32, sender: Option<Address>)
    requires GotEntry(t, s) && Bound(Was(t, s), true) && BoundTo(Was(t, s), true) == sender
    ensures Passes(t, s, sender, true)
  {
    PassesIff(t, s, sender, true);
  }

  // What an RTP packet does to the entries: its own source may prove itself, and if
  // that is valid then, it vouches for those it names.
  lemma RtpJudges(t: Table, e: Event, s: uint32, c: Source, src: Source)
    requires Inv(t) && e.Rtp? && t.own != Some(s) && c == Checked(t, e.packet.ssrc, e.sender, true)
    requires src == ProcessRtp(c, e.packet, e.now, e.handled).src
    ensures var x, y := Was(t, s), Was(Step(t, e), s);
            var named := src.validated && s in e.packet.csrcs && Passes(t, s, e.sender, true);
            if !Passes(t, e.packet.ssrc, e.sender, true) then Untouched(x, y)
            else if e.packet.ssrc == s then
              SameProbe(src, y) && y.validated == src.validated && y.iscsrc == (src.iscsrc || named)
            else
              && SameProbe(x, y) && y.iscsrc == (x.iscsrc || named)
              && y.validated == (x.validated || named)
  {
    hide ProcessRtp, Admit, ProcessCsrcs, CountersOk, EntryOk, SameProbe, Passes, Bound, BoundTo, Quiet;
    var p, n := e.packet, e.packet.ssrc;
    var a := Admit(t, n, e.sender, true);
    AdmitEntry(t, n, e.sender, true, s);
    CheckedIs(t, n, e.sender, true);
    CheckedUntouched(t, n, e.sender, true);
    StepType(t, e);
    CollisionIs(t, n, e.sender);
    UntouchedSelf(Was(t, s));
    if a.collision {
      if n != s {
        SameEntry(t, Step(t, e), s);
      }
    } else {
      var u := UpdateCounted(a.table, a.pos, src);
      RtpSsrc(c, p, e.now, e.handled);
      EventEntry(t, n, e.sender, true, src, u, s);
      UntouchedSelf(Was(u, s));
      if n != s {
        SameEntry(t, u, s);
        PassesByEntry(t, u, s, e.sender);
      } else {
        RtpBinding(c, p, e.now, e.handled);
        BoundPasses(u, s, e.sender);
      }
      if src.validated {
        CsrcsJudged(u, p.csrcs, e.sender, s);
      }
    }
  }

  lemma CollisionIs(t: Table, c: uint32, sender: Option<Address>)
    ensures Passes(t, c, sender, true) <==> !Admit(t, c, sender, true).collision
  {
  }

  // ---- Over runs ----

  // The entry of a source is judged by what the events have shown.
  ghost predicate Judged(t: Table, events: seq<Event>, s: uint32) {
    var x := Was(Run(t, events), s);
    && x.validated == Valid(t, events, s) && x.iscsrc == Named(t, events, s) && x.probationtype == t.probationtype
    && (!x.validated ==> Probing(x, Numbers(t, events, s)))
  }

  lemma NewIsJudged(t: Table, events: seq<Event>, s: uint32)
    requires !GotEntry(Run(t, events), s) && Run(t, events).probationtype == t.probationtype
    ensures Judged(t, events, s)
  {
  }

  lemma {:induction false} RunType(t: Table, events: seq<Event>)
    ensures Run(t, events).probationtype == t.probationtype
  {
    hide Step;
    if events != [] {
      RunType(t, events[..|events| - 1]);
      StepType(Run(t, events[..|events| - 1]), events[|events| - 1]);
    }
  }

  // One more event, for the functions of the whole run.
  lemma OneMore(t: Table, front: seq<Event>, e: Event, s: uint32)
    requires GotEntry(Run(t, front + [e]), s)
    ensures var events := front + [e];
            && Run(t, events) == Step(Run(t, front), e)
            && (Valid(t, events, s) <==> Valid(t, front, s) || Vouches(t, front, e, s))
            && (Named(t, events, s) <==> Named(t, front, s) || Names(t, front, e, s))
            && Numbers(t, events, s) == Numbers(t, front, s) +
                 (if e.Rtp? && From(Run(t, front), e, s) then [Wrap16(e.packet.extseqnr)] else [])
  {
    hide Step, From, Vouches, Names, GotEntry;
    var events := front + [e];
    assert events[..|events| - 1] == front && events[|events| - 1] == e;
  }

  lemma OtherStep(t: Table, front: seq<Event>, e: Event, s: uint32)
    requires Inv(Run(t, front)) && !e.Rtp? && Run(t, front).own != Some(s) && Judged(t, front, s)
    requires Step(Run(t, front), e).own != Some(s) && GotEntry(Run(t, front + [e]), s) && !e.Clear?
    ensures Judged(t, front + [e], s)
  {
    hide Step, Inv, From, Passes, Run, Numbers, Valid, Named, GotEntry, Was;
    var u := Run(t, front);
    OneMore(t, front, e, s);
    OtherJudges(u, e, s);
    if !Was(Step(u, e), s).validated {
      ProbingStays(Was(u, s), Was(Step(u, e), s), Numbers(t, front, s));
      assert Numbers(t, front, s) + [] == Numbers(t, front, s);
    }
  }

  // An entry that does not exist yet is judged like one that does.
  lemma FromIs(t: Table, e: Event, s: uint32)
    requires e.Rtp?
    ensures From(t, e, s) <==> e.packet.ssrc == s && Passes(t, s, e.sender, true)
  {
  }

  // The packet's own source after the packet.
  lemma SourceJudged(t: Table, front: seq<Event>, e: Event, c: Source, src: Source)
    requires e.Rtp? && Inv(Run(t, front)) && Passes(Run(t, front), e.packet.ssrc, e.sender, true)
    requires Run(t, front).own != Some(e.packet.ssrc) ==> Judged(t, front, e.packet.ssrc)
    requires c == Checked(Run(t, front), e.packet.ssrc, e.sender, true)
    requires src == ProcessRtp(c, e.packet, e.now, e.handled).src
    ensures var u, n := Run(t, front), e.packet.ssrc;
            && (src.validated <==> u.own == Some(n) || Valid(t, front, n) || Proves(t, front, e, n))
            && (u.own != Some(n) ==> src.probationtype == t.probationtype && src.iscsrc == Was(u, n).iscsrc)
            && (!src.validated ==> Probing(src, Numbers(t, front, n) + [Wrap16(e.packet.extseqnr)]))
  {
    hide Passes, Run, Numbers, Valid, Named, GotEntry, ProcessRtp, Checked, Inv, Was, Probing, Triple;
    var u, n := Run(t, front), e.packet.ssrc;
    CheckedUntouched(u, n, e.sender, true);
    FromIs(u, e, n);
    if u.own == Some(n) {
      OwnIsValid(u, n);
    } else if !c.validated {
      ProbingStays(Was(u, n), c, Numbers(t, front, n));
    }
    PacketJudged(c, e.packet, e.now, e.handled, Numbers(t, front, n));
  }

  lemma OwnIsValid(t: Table, s: uint32)
    requires Inv(t) && t.own == Some(s)
    ensures Was(t, s).validated
  {
    var k := Find(t.entries, s);
    assert EntryOk(t.entries[k], t.own);
  }

  lemma RtpStepJudged(t: Table, front: seq<Event>, e: Event, s: uint32)
    requires Inv(Run(t, front)) && e.Rtp? && Run(t, front).own != Some(s) && Judged(t, front, s)
    requires Run(t, front).own != Some(e.packet.ssrc) ==> Judged(t, front, e.packet.ssrc)
    requires GotEntry(Run(t, front + [e]), s)
    ensures Judged(t, front + [e], s)
  {
    hide Step, Inv, From, Passes, Run, Numbers, Valid, Named, GotEntry, ProcessRtp, Checked, Was, Proves, Probing;
    var u, n := Run(t, front), e.packet.ssrc;
    var c := Checked(u, n, e.sender, true);
    var src := ProcessRtp(c, e.packet, e.now, e.handled).src;
    OneMore(t, front, e, s);
    FromIs(u, e, s);
    RtpJudges(u, e, s, c, src);
    assert Numbers(t, front, s) + [] == Numbers(t, front, s);
    ProvesFrom(t, front, e, s);
    var y := Was(Step(u, e), s);
    if Passes(u, n, e.sender, true) {
      SourceJudged(t, front, e, c, src);
    }
    if !y.validated {
      if Passes(u, n, e.sender, true) && n == s {
        ProbingStays(src, y, Numbers(t, front, n) + [Wrap16(e.packet.extseqnr)]);
      } else {
        ProbingStays(Was(u, s), y, Numbers(t, front, s));
      }
    }
  }

  lemma ProvesFrom(t: Table, front: seq<Event>, e: Event, s: uint32)
    ensures Proves(t, front, e, s) ==> From(Run(t, front), e, s)
  {
  }

  // In every reachable table, another source is valid if and only if, since its
  // entry was made, three of its RTP packets in a row have had successive numbers
  // (any one packet, without probation), or its CNAME has come, or a source that was
  // valid by then has named it as contributing from an address it may be heard from;
  // and its contributing flag is set if and only if that has happened.
  lemma {:induction false} ValidIff(probationtype: ProbationType, events: seq<Event>, s: uint32)
    requires Run(Empty(probationtype), events).own != Some(s)
    ensures Judged(Empty(probationtype), events, s)
    decreases |events|
  {
    hide Step, Judged, Inv, Numbers, Valid, Named;
    var t := Empty(probationtype);
    RunType(t, events);
    if !GotEntry(Run(t, events), s) {
      NewIsJudged(t, events, s);
    } else {
      assert events != [];
      var front, e := events[..|events| - 1], events[|events| - 1];
      var u := Run(t, front);
      assert front + [e] == events;
      CountersOverRuns(probationtype, front);
      OwnStays(u, e, s);
      ValidIff(probationtype, front, s);
      if e.Rtp? {
        if u.own != Some(e.packet.ssrc) {
          ValidIff(probationtype, front, e.packet.ssrc);
        }
        RtpStepJudged(t, front, e, s);
      } else {
        OtherStep(t, front, e, s);
      }
    }
  }

  // A packet of a valid source is kept if and only if it passes the address check,
  // and no queued packet has its number, unless the callback takes it.
  lemma StoredIff(t: Table, p: Packet, now: real, sender: Option<Address>, handled: bool)
    requires Was(t, p.ssrc).validated && Was(t, p.ssrc).stats.sentdata
    ensures var x := Was(t, p.ssrc);
            RtpStored(t, p, now, sender, handled) <==>
              && Passes(t, p.ssrc, sender, true)
              && (handled ||
                  !Queued(x.packetlist, Extend(x.stats, Wrap16(p.extseqnr), now, x.ownssrc).extseqnr))
  {
    hide Insert, Queued, Extend, CheckCollision;
    CheckedQueue(t, p.ssrc, sender);
    StoredByEntry(Checked(t, p.ssrc, sender, true), p, now, handled);
  }

  lemma CheckedQueue(t: Table, c: uint32, sender: Option<Address>)
    ensures var x, y := Was(t, c), Checked(t, c, sender, true);
            y.packetlist == x.packetlist && y.stats == x.stats && y.ownssrc == x.ownssrc && y.validated == x.validated
  {
    ObtainFinds(t, c);
  }

  lemma StoredByEntry(c: Source, p: Packet, now: real, handled: bool)
    requires c.validated && c.stats.sentdata
    ensures ProcessRtp(c, p, now, handled).stored <==>
              handled || !Queued(c.packetlist, Extend(c.stats, Wrap16(p.extseqnr), now, c.ownssrc).extseqnr)
  {
    hide Insert, Queued, Received, Cycles;
  }

  // So it is a member of the session, as the counters count them, if and only if it
  // is valid and has not said goodbye.
  lemma ActiveIff(probationtype: ProbationType, events: seq<Event>, s: uint32)
    requires Run(Empty(probationtype), events).own != Some(s)
    ensures var t := Empty(probationtype);
            Was(Run(t, events), s).Active() <==> Valid(t, events, s) && LastTime(t, events, s, Goodbye).None?
  {
    hide Run, Valid, LastTime;
    ValidIff(probationtype, events, s);
    EntriesRecordEvents(probationtype, events, s);
  }

  // A CNAME collides if and only if the source has given another one before.
  lemma CnameCollidesIff(probationtype: ProbationType, events: seq<Event>, s: uint32, id: int, data: seq<byte>,
                         now: real, sender: Option<Address>)
    requires Run(Empty(probationtype), events).own != Some(s)
    ensures var t0, t := Empty(probationtype), Run(Empty(probationtype), events);
            CnameCollision(t, s, id, data, now, sender) <==>
              && id == SDES_CNAME && Passes(t, s, sender, false)
              && Item(t0, events, s, SDES_CNAME) != [] && Item(t0, events, s, SDES_CNAME) != data
  {
    hide Run, Item, LastTime, Sending, Admit;
    var t := Run(Empty(probationtype), events);
    EntriesRecordEvents(probationtype, events, s);
    CheckedIs(t, s, sender, false);
    CheckedUntouched(t, s, sender, false);
  }
}
