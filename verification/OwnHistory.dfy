// The own entry of the source table: over whole runs it is a sender, and has a time,
// by what the session has sent, never by packets that come in.
module OwnHistory {
  import opened Types
  import opened SourceState
  import opened SourceTable
  import opened SourceCounters
  import opened SourceHistory

  // When the last data packet was sent since the own entry was made for this SSRC.
  function LastSent(t: Table, events: seq<Event>, s: uint32): Option<real> {
    if events == [] || Run(t, events[..|events| - 1]).own != Some(s) then None
    else
      var front, e := events[..|events| - 1], events[|events| - 1];
      if e.Sent? then Some(e.now) else LastSent(t, front, s)
  }

  // Something has been sent, and no sweep has found that too old since.
  predicate OwnSending(t: Table, events: seq<Event>, s: uint32) {
    events != [] && Run(t, events[..|events| - 1]).own == Some(s) &&
    var front, e := events[..|events| - 1], events[|events| - 1];
    (e.Sent? ||
     (OwnSending(t, front, s) && !(e.Timeout? && TooOld(e.sweep, Data, OrZero(LastSent(t, front, s))))))
  }

  // ---- One event ----

  predicate SameData(x: Source, y: Source) {
    y.issender == x.issender && y.stats.lastrtptime == x.stats.lastrtptime
  }

  lemma QuietIsSame(x: Source, y: Source)
    requires Quiet(x, y)
    ensures SameData(x, y)
  {
  }

  lemma OwnIs(t: Table, s: uint32)
    requires Inv(t) && t.own == Some(s)
    ensures GotEntry(t, s) && Was(t, s).ownssrc && Was(t, s).ssrc == s
  {
    assert EntryOk(t.entries[Find(t.entries, s)], t.own);
  }

  lemma OwnSent(t: Table, now: real, s: uint32)
    requires Inv(t) && t.own == Some(s)
    ensures var y := Was(SentRtpPacket(t, now), s); y.issender && y.stats.lastrtptime == now
  {
    hide EntryOk, CountersOk;
    OwnIs(t, s);
    var i := Find(t.entries, s);
    UpdateEntry(t, i, SentRtp(t.entries[i], now), s);
    assert Entry(SentRtpPacket(t, now), s) == Entry(Update(t, i, SentRtp(t.entries[i], now)), s);
  }

  lemma OwnTakes(t: Table, c: uint32, s: uint32)
    requires Inv(t)
    ensures SameData(Was(t, s), Was(TakePacket(t, c), s))
  {
    hide EntryOk, CountersOk;
    if GotEntry(t, c) {
      var i := Find(t.entries, c);
      UpdateEntry(t, i, NextPacket(t.entries[i]).src, s);
    }
  }

  // An event that rewrites the one entry it is about, or collides.
  lemma OneEntry(t: Table, e: Event, s: uint32, y: Source)
    requires Inv(t) && (e.Refresh? || e.Sdes? || e.Bye?) && y.ssrc == e.ssrc
    requires var a := Admit(t, e.ssrc, e.sender, false);
             Step(t, e) == if a.collision then a.table else
               a.table.(entries := Update(a.table, a.pos, y).entries, active := Step(t, e).active,
                        senders := Step(t, e).senders)
    requires SameData(Checked(t, e.ssrc, e.sender, false), y)
    ensures SameData(Was(t, s), Was(Step(t, e), s))
  {
    hide Admit, CountersOk, EntryOk, Step, Quiet;
    var a := Admit(t, e.ssrc, e.sender, false);
    AdmitEntry(t, e.ssrc, e.sender, false, s);
    CheckedIs(t, e.ssrc, e.sender, false);
    QuietIsSame(Was(t, e.ssrc), Checked(t, e.ssrc, e.sender, false));
    if !a.collision {
      EventEntry(t, e.ssrc, e.sender, false, y, Step(t, e), s);
    }
  }

  lemma SdesKeepsData(c: Source, id: int, data: seq<byte>, now: real)
    requires 1 <= id <= 7
    ensures var y := ProcessSdes(c, id, data, now).src; SameData(c, y) && y.ssrc == c.ssrc
  {
    hide ProcessSdes, Keeps, SdesInfo.Set;
    SdesIs(c, id, data, now);
  }

  lemma OwnItem(t: Table, e: Event, s: uint32)
    requires Inv(t) && e.Sdes?
    ensures SameData(Was(t, s), Was(Step(t, e), s))
  {
    hide Admit, Inv, ProcessSdes, SameData;
    if 1 <= e.id <= 7 {
      var c := Checked(t, e.ssrc, e.sender, false);
      CheckedIs(t, e.ssrc, e.sender, false);
      SdesKeepsData(c, e.id, e.data, e.now);
      OneEntry(t, e, s, ProcessSdes(c, e.id, e.data, e.now).src);
    } else {
      SameSelf(Was(t, s));
    }
  }

  lemma SameSelf(x: Source)
    ensures SameData(x, x)
  {
  }

  lemma OwnRefreshed(t: Table, e: Event, s: uint32)
    requires Inv(t) && e.Refresh?
    ensures SameData(Was(t, s), Was(Step(t, e), s))
  {
    hide Admit, Inv;
    var c := Checked(t, e.ssrc, e.sender, false);
    CheckedIs(t, e.ssrc, e.sender, false);
    OneEntry(t, e, s, c.WithMessageTime(e.now));
  }

  // A BYE for the own SSRC is ignored.
  lemma OwnBye(t: Table, e: Event, s: uint32)
    requires Inv(t) && e.Bye? && t.own == Some(s)
    ensures SameData(Was(t, s), Was(Step(t, e), s)) && Was(Step(t, e), s).receivedbye == Was(t, s).receivedbye
  {
    hide Admit, EntryOk, CountersOk, Quiet;
    CheckedIs(t, e.ssrc, e.sender, false);
    AdmitEntry(t, e.ssrc, e.sender, false, s);
    if e.ssrc == s {
      QuietIsSame(Was(t, s), Checked(t, s, e.sender, false));
      QuietBye(Was(t, s), Checked(t, s, e.sender, false));
    } else {
      var y := ProcessBye(Checked(t, e.ssrc, e.sender, false), e.now);
      if !Admit(t, e.ssrc, e.sender, false).collision {
        EventEntry(t, e.ssrc, e.sender, false, y, Step(t, e), s);
      }
    }
  }

  lemma QuietBye(x: Source, y: Source)
    requires Quiet(x, y)
    ensures y.receivedbye == x.receivedbye
  {
  }

  // An own packet that comes back is counted, but is no sign of sending.
  lemma OwnPacket(c: Source, p: Packet, now: real, handled: bool)
    requires c.ownssrc
    ensures SameData(c, ProcessRtp(c, p, now, handled).src)
  {
    hide Insert, Queued, Capped, Cycles;
  }

  lemma OwnRtp(t: Table, e: Event, s: uint32)
    requires Inv(t) && e.Rtp? && t.own == Some(s)
    ensures SameData(Was(t, s), Was(Step(t, e), s))
  {
    hide ProcessRtp, Admit, ProcessCsrcs, CountersOk, EntryOk, SameData, Quiet;
    var p, n := e.packet, e.packet.ssrc;
    var a, c := Admit(t, n, e.sender, true), Checked(t, n, e.sender, true);
    OwnIs(t, s);
    AdmitEntry(t, n, e.sender, true, s);
    CheckedIs(t, n, e.sender, true);
    QuietIsSame(Was(t, n), c);
    SameSelf(Was(t, s));
    if !a.collision {
      var src := ProcessRtp(c, p, e.now, e.handled).src;
      var u := UpdateCounted(a.table, a.pos, src);
      RtpSsrc(c, p, e.now, e.handled);
      EventEntry(t, n, e.sender, true, src, u, s);
      if n == s {
        QuietOwn(Was(t, s), c);
        OwnPacket(c, p, e.now, e.handled);
        SameThen(Was(t, s), c, src);
      }
      if src.validated {
        CsrcsEntry(u, p.csrcs, e.sender, s);
        QuietIsSame(Was(u, s), Was(Step(t, e), s));
        SameThen(Was(t, s), Was(u, s), Was(Step(t, e), s));
      }
    }
  }

  lemma QuietOwn(x: Source, y: Source)
    requires Quiet(x, y)
    ensures y.ownssrc == x.ownssrc
  {
  }

  lemma SameThen(x: Source, y: Source, z: Source)
    requires SameData(x, y) && SameData(y, z)
    ensures SameData(x, z)
  {
  }

  lemma OwnSwept(t: Table, sw: Sweep, s: uint32)
    requires Inv(t) && t.own == Some(s)
    ensures var x, y := Was(t, s), Was(RunSweep(t, sw), s);
            && y.stats.lastrtptime == x.stats.lastrtptime
            && y.issender == (x.issender && !TooOld(sw, Data, x.stats.lastrtptime))
  {
    hide RunSweep, Inv, Sweep.Rewrite;
    OwnIs(t, s);
    SweepEntry(t, sw, s);
    RewriteFades(Was(t, s), sw);
  }

  // Only sending makes the own source a sender, and only a sweep ends it.
  lemma OwnStep(t: Table, e: Event, s: uint32)
    requires Inv(t) && t.own == Some(s) && Step(t, e).own == Some(s)
    ensures var x, y := Was(t, s), Was(Step(t, e), s);
            && y.stats.lastrtptime == (if e.Sent? then e.now else x.stats.lastrtptime)
            && y.issender == (e.Sent? ||
                              (x.issender && !(e.Timeout? && TooOld(e.sweep, Data, x.stats.lastrtptime))))
  {
    hide Admit, ProcessSdes, ProcessRtpPacket, ProcessByeFor, RefreshSource, ProcessSdesItem, SentRtpPacket,
         TakePacket, Inv, RunSweep, DeleteOwn;
    match e
    case Sent(now) => OwnSent(t, now, s);
    case Take(c) => OwnTakes(t, c, s);
    case Rtp(_, _, _, _) => OwnRtp(t, e, s);
    case Refresh(_, _, _) => OwnRefreshed(t, e, s);
    case Sdes(_, _, _, _, _) => OwnItem(t, e, s);
    case Bye(_, _, _) => OwnBye(t, e, s);
    case Timeout(sw) => OwnSwept(t, sw, s);
    case Delete => OwnDeleted(t);
    case _ =>
  }

  lemma OwnDeleted(t: Table)
    requires Inv(t)
    ensures DeleteOwn(t).own == None
  {
    if t.own.Some? {
      OwnIs(t, t.own.value);
    }
  }

  // ---- Over runs ----

  // The own entry begins as no sender.
  lemma OwnBegins(t: Table, e: Event, s: uint32)
    requires Inv(t) && t.own != Some(s) && Step(t, e).own == Some(s)
    ensures var y := Was(Step(t, e), s); !y.issender && y.stats.lastrtptime == 0.0
  {
    hide EntryOk, CountersOk, FilterMap, Count, Admit, ProcessRtp, ProcessSdes;
    match e
    case Create(c) =>
      ObtainEntry(t, s, s);
      ObtainFinds(t, s);
      var r, i := Obtain(t, s), |t.entries|;
      UpdateEntry(r, i, OwnEntry(r.entries[i]), s);
      assert Entry(CreateOwn(t, s), s) == Entry(Update(r, i, OwnEntry(r.entries[i])), s);
    case Rtp(p, now, sender, handled) => RtpOwn(t, p, now, sender, handled);
    case Refresh(ssrc, _, sender) => AdmitOwn(t, ssrc, sender, false);
    case Sdes(ssrc, _, _, _, sender) => AdmitOwn(t, ssrc, sender, false);
    case Bye(ssrc, _, sender) => AdmitOwn(t, ssrc, sender, false);
    case _ =>
  }

  // In every reachable table, the own entry is a sender if and only if something was
  // sent since it was made and is not too old; its time is that of the last packet
  // sent. No packet that comes in, own packets that come back included, changes that.
  lemma {:induction false} OwnRecordsSent(probationtype: ProbationType, events: seq<Event>, s: uint32)
    requires Run(Empty(probationtype), events).own == Some(s)
    ensures var t := Empty(probationtype);
            var x := Was(Run(t, events), s);
            && x.issender == OwnSending(t, events, s)
            && x.stats.lastrtptime == OrZero(LastSent(t, events, s))
  {
    hide Step, Inv;
    var t := Empty(probationtype);
    var front, e := events[..|events| - 1], events[|events| - 1];
    var u := Run(t, front);
    CountersOverRuns(probationtype, front);
    if u.own == Some(s) {
      OwnRecordsSent(probationtype, front, s);
      OwnStep(u, e, s);
    } else {
      OwnBegins(u, e, s);
    }
  }
}
