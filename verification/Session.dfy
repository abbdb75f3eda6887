// The session's own SSRC: its set-up in InternalCreate, the packet builder that
// sends with it, and the collision handling of ProcessPolledData.
module Session {
  import opened Types
  import opened SourceTable
  import opened Sources
  import SourceCounters
  import Scheduler

  // The events by which incoming packets reach the source table.
  predicate Incoming(e: Event) {
    e.Rtp? || e.Refresh? || e.Sdes? || e.Bye?
  }

  lemma {:induction false} CsrcsKeepOwn(t: Table, csrcs: seq<uint32>, sender: Option<Address>)
    ensures ProcessCsrcs(t, csrcs, sender).own == t.own
    decreases csrcs
  {
    if csrcs != [] {
      CsrcsKeepOwn(ProcessCsrc(t, csrcs[0], sender), csrcs[1..], sender);
    }
  }

  // Only creating, deleting and clearing change which entry is the own one.
  lemma StepKeepsOwn(t: Table, e: Event)
    requires !e.Create? && !e.Delete? && !e.Clear?
    ensures Step(t, e).own == t.own
  {
    if e.Rtp? {
      var a := Admit(t, e.packet.ssrc, e.sender, true);
      if !a.collision {
        var src := SourceState.ProcessRtp(a.table.entries[a.pos], e.packet, e.now, e.handled).src;
        CsrcsKeepOwn(UpdateCounted(a.table, a.pos, src), e.packet.csrcs, e.sender);
      }
    }
  }

  ghost predicate OwnsExactly(t: Table, ssrc: uint32) {
    && GotEntry(t, ssrc) && t.entries[Find(t.entries, ssrc)].Active()
    && forall i :: 0 <= i < |t.entries| ==> (t.entries[i].ownssrc <==> i == Find(t.entries, ssrc))
  }

  // A table with an own entry has exactly one, it is active, and it is the one
  // with the own SSRC.
  lemma OwnIsUnique(t: Table, ssrc: uint32)
    requires SourceCounters.Inv(t) && t.own == Some(ssrc)
    ensures OwnsExactly(t, ssrc)
  {
    var k := Find(t.entries, ssrc);
    assert SourceCounters.EntryOk(t.entries[k], t.own);
    forall i | 0 <= i < |t.entries| ensures t.entries[i].ownssrc <==> i == k {
      assert SourceCounters.EntryOk(t.entries[i], t.own);
      SourceCounters.FindIs(t.entries, i);
    }
  }

  // An SSRC the table does not have is still free after the own entry is
  // deleted, so the own entry can be created again under it.
  lemma FreshSsrcTaken(t: Table, ssrc: uint32)
    requires SourceCounters.Inv(t) && t.own.Some? && !GotEntry(t, ssrc)
    ensures ssrc != t.own.value
    ensures DeleteOwn(t).own.None? && !GotEntry(DeleteOwn(t), ssrc)
    ensures CreateOwn(DeleteOwn(t), ssrc).own == Some(ssrc)
  {
    SourceCounters.FindMissing(t.entries, ssrc);
  }

  // ---- Sessions as values ----

  // The list of addresses that have caused a collision, with the time of the
  // last one.
  predicate Known(list: seq<(Address, real)>, a: Address) {
    list != [] && (list[0].0 == a || Known(list[1..], a))
  }

  function Noted(list: seq<(Address, real)>, a: Address, time: real): seq<(Address, real)> {
    if list == [] then [(a, time)]
    else if list[0].0 == a then [(a, time)] + list[1..]
    else [list[0]] + Noted(list[1..], a, time)
  }

  function Expired(list: seq<(Address, real)>, check: real): seq<(Address, real)> {
    if list == [] then []
    else (if list[0].1 < check then [] else [list[0]]) + Expired(list[1..], check)
  }

  // One turn of the search for an address.
  lemma NotedFrom(list: seq<(Address, real)>, i: nat, a: Address, time: real)
    requires i < |list|
    ensures Known(list[i..], a) == (list[i].0 == a || Known(list[i + 1..], a))
    ensures list[..i] + Noted(list[i..], a, time) ==
              if list[i].0 == a then list[i := (a, time)] else list[..i + 1] + Noted(list[i + 1..], a, time)
  {
    assert list[i..][1..] == list[i + 1..];
  }

  // The first of some random draws that is not in the table.
  function FirstFree(t: Table, draws: seq<uint32>): (i: nat)
    ensures i <= |draws|
    ensures i < |draws| ==> !GotEntry(t, draws[i])
  {
    if draws == [] || !GotEntry(t, draws[0]) then 0 else 1 + FirstFree(t, draws[1..])
  }

  lemma FirstFreeFrom(t: Table, draws: seq<uint32>, i: nat)
    requires i < |draws|
    ensures FirstFree(t, draws[i..]) == if GotEntry(t, draws[i]) then 1 + FirstFree(t, draws[i + 1..]) else 0
  {
    assert draws[i..][1..] == draws[i + 1..];
  }

  // One raw packet: the table events it causes, where it came from, and the random
  // numbers that are drawn if it collides with the own entry.
  datatype RawPacket = RawPacket(events: seq<Event>, sender: Address, receivetime: real, draws: seq<uint32>)

  datatype SessionState = SessionState(
    table: Table,
    ssrc: uint32,
    collisions: seq<(Address, real)>,
    sentpackets: bool,
    byepackets: nat)

  // A BYE is queued if anything was sent, and the session moves to a new SSRC.
  // None: the draws did not suffice.
  function Move(s: SessionState, draws: seq<uint32>): Option<SessionState> {
    var n := FirstFree(s.table, draws);
    if n == |draws| then None
    else Some(MoveTo(s, draws[n]))
  }

  function MoveTo(s: SessionState, ssrc: uint32): SessionState {
    SessionState(Reowned(s.table, ssrc), ssrc, s.collisions, false, s.byepackets + B2I(s.sentpackets))
  }

  // The table with its own entry under another SSRC.
  function Reowned(t: Table, ssrc: uint32): Table {
    CreateOwn(DeleteOwn(t), ssrc)
  }

  lemma MovedTo(s: SessionState, draws: seq<uint32>, ssrc: uint32, byepackets: nat, t: Table)
    requires FirstFree(s.table, draws) < |draws| && ssrc == draws[FirstFree(s.table, draws)]
    requires t == Reowned(s.table, ssrc) && byepackets == s.byepackets + B2I(s.sentpackets)
    ensures Move(s, draws) == Some(SessionState(t, ssrc, s.collisions, false, byepackets))
  {
    MoveIs(s, ssrc, byepackets, t);
  }

  lemma MoveIs(s: SessionState, ssrc: uint32, byepackets: nat, t: Table)
    requires t == Reowned(s.table, ssrc) && byepackets == s.byepackets + B2I(s.sentpackets)
    ensures MoveTo(s, ssrc) == SessionState(t, ssrc, s.collisions, false, byepackets)
  {
  }

  // Only a collision from a new address makes the session move.
  function Resolve(s: SessionState, p: RawPacket, owncollision: bool): Option<SessionState> {
    if !owncollision then Some(s)
    else
      var noted := s.(collisions := Noted(s.collisions, p.sender, p.receivetime));
      if Known(s.collisions, p.sender) then Some(noted) else Move(noted, p.draws)
  }

  // What changes a session: a data packet is sent, a raw packet is handled, the
  // timeouts pass, a packet is handed out, or RTCP is sent, when it is time or by
  // the application. Sending RTCP does not make the own source a sender.
  datatype Action =
    | Send(now: real)
    | Poll(pack: RawPacket)
    | Expire(sender: real, bye: real, member: real, note: real, collision: real)
    | Fetch(ssrc: uint32)
    | SendRtcp
    | SendApp

  function Act(s: SessionState, a: Action): Option<SessionState> {
    match a
    case Send(now) => Some(s.(table := SentRtpPacket(s.table, now), sentpackets := true))
    case Poll(p) => Resolve(s.(table := Run(s.table, p.events)), p, RunCollides(s.table, p.events))
    case Expire(sender, bye, member, note, collision) =>
      Some(s.(table := Step(s.table, Timeout(MultipleSweep(sender, bye, member, note))),
              collisions := Expired(s.collisions, collision)))
    case Fetch(ssrc) => Some(s.(table := TakePacket(s.table, ssrc)))
    case SendRtcp => Some(s.(sentpackets := true, byepackets := if s.byepackets == 0 then 0 else s.byepackets - 1))
    case SendApp => Some(s.(sentpackets := true))
  }

  predicate WellFormed(a: Action) {
    a.Poll? ==> forall i :: 0 <= i < |a.pack.events| ==> Incoming(a.pack.events[i])
  }

  function RunSession(s: SessionState, actions: seq<Action>): Option<SessionState> {
    if actions == [] then Some(s)
    else
      var r := RunSession(s, actions[..|actions| - 1]);
      if r.None? then None else Act(r.value, actions[|actions| - 1])
  }

  // The invariant: the own entry has the SSRC the packet builder sends with.
  ghost predicate SessionOk(s: SessionState) {
    SourceCounters.Inv(s.table) && s.table.own == Some(s.ssrc)
  }

  lemma StepKeepsInv(t: Table, e: Event)
    requires SourceCounters.Inv(t) && !e.Create? && !e.Delete? && !e.Clear?
    ensures SourceCounters.Inv(Step(t, e)) && Step(t, e).own == t.own
  {
    StepKeepsOwn(t, e);
    SourceCounters.StepKeeps(t, e, SourceCounters.Deficit(t));
  }

  lemma {:induction false} RunKeepsOwn(t: Table, events: seq<Event>)
    requires SourceCounters.Inv(t) && forall i :: 0 <= i < |events| ==> Incoming(events[i])
    ensures SourceCounters.Inv(Run(t, events)) && Run(t, events).own == t.own
  {
    if events != [] {
      var front := events[..|events| - 1];
      RunKeepsOwn(t, front);
      StepKeepsInv(Run(t, front), events[|events| - 1]);
    }
  }

  lemma ResolveKeeps(s: SessionState, p: RawPacket, owncollision: bool)
    requires SessionOk(s)
    ensures Resolve(s, p, owncollision).Some? ==> SessionOk(Resolve(s, p, owncollision).value)
  {
    var n := FirstFree(s.table, p.draws);
    if n < |p.draws| {
      FreshSsrcTaken(s.table, p.draws[n]);
      SourceCounters.DeleteOwnKeeps(s.table);
      SourceCounters.CreateOwnKeeps(DeleteOwn(s.table), p.draws[n]);
    }
  }

  lemma PollKeeps(s: SessionState, p: RawPacket)
    requires SessionOk(s) && WellFormed(Poll(p))
    ensures Act(s, Poll(p)).Some? ==> SessionOk(Act(s, Poll(p)).value)
  {
    RunKeepsOwn(s.table, p.events);
    ResolveKeeps(s.(table := Run(s.table, p.events)), p, RunCollides(s.table, p.events));
  }

  lemma ActKeeps(s: SessionState, a: Action)
    requires SessionOk(s) && WellFormed(a)
    ensures Act(s, a).Some? ==> SessionOk(Act(s, a).value)
  {
    hide Resolve, SourceCounters.Inv, SentRtpPacket, TakePacket, RunSweep;
    match a
    case Send(now) => StepKeepsInv(s.table, Sent(now));
    case Poll(p) => PollKeeps(s, p);
    case Expire(sender, bye, member, note, _) =>
      StepKeepsInv(s.table, Timeout(MultipleSweep(sender, bye, member, note)));
    case Fetch(ssrc) => StepKeepsInv(s.table, Take(ssrc));
    case _ =>
  }

  // In every state between session steps there is exactly one own entry, it is
  // active, and its SSRC is the packet builder's.
  lemma {:induction false} OwnSsrcOverRuns(s: SessionState, actions: seq<Action>)
    requires SessionOk(s) && forall i :: 0 <= i < |actions| ==> WellFormed(actions[i])
    ensures var r := RunSession(s, actions);
            r.Some? ==> SessionOk(r.value) && OwnsExactly(r.value.table, r.value.ssrc)
  {
    if actions == [] {
      OwnIsUnique(s.table, s.ssrc);
    } else {
      var front := actions[..|actions| - 1];
      OwnSsrcOverRuns(s, front);
      var r := RunSession(s, front);
      if r.Some? {
        ActKeeps(r.value, actions[|actions| - 1]);
        var q := Act(r.value, actions[|actions| - 1]);
        if q.Some? {
          OwnIsUnique(q.value.table, q.value.ssrc);
        }
      }
    }
  }

  // A collision that is acted on picks an SSRC that no entry had, other than the
  // old one, and a second collision from the same address changes nothing.
  lemma CollisionMovesAway(s: SessionState, p: RawPacket, later: RawPacket)
    requires SessionOk(s) && !Known(s.collisions, p.sender) && Resolve(s, p, true).Some? && later.sender == p.sender
    ensures var r := Resolve(s, p, true).value;
            && r.ssrc != s.ssrc && !GotEntry(s.table, r.ssrc) && GotEntry(r.table, r.ssrc)
            && Resolve(r, later, true).Some? && Resolve(r, later, true).value.ssrc == r.ssrc
            && Resolve(r, later, true).value.table == r.table
  {
    FreshSsrcTaken(s.table, p.draws[FirstFree(s.table, p.draws)]);
    ResolveKeeps(s, p, true);
    NotedIsKnown(s.collisions, p.sender, p.receivetime);
  }

  // An event before which the table has been brought by those before it.
  predicate ReachesAt(t: Table, events: seq<Event>, i: nat)
    requires i < |events|
  {
    SourceCounters.ReachesOwn(Run(t, events[..i]), events[i])
  }

  // Handling some events finds a collision with the own entry if and only if one of
  // them comes from an address and carries the own SSRC.
  lemma {:induction false} RunCollidesIs(t: Table, events: seq<Event>)
    requires SourceCounters.Inv(t) && forall i :: 0 <= i < |events| ==> Incoming(events[i])
    ensures RunCollides(t, events) <==> exists i :: 0 <= i < |events| && ReachesAt(t, events, i)
  {
    hide Collides, SourceCounters.ReachesOwn, SourceCounters.Inv, Step, Incoming;
    if events != [] {
      var n := |events| - 1;
      var front := events[..n];
      RunCollidesIs(t, front);
      RunKeepsOwn(t, front);
      SourceCounters.CollidesIs(Run(t, front), events[n]);
      assert forall i :: 0 <= i < n ==> front[..i] == events[..i];
      assert forall i :: 0 <= i < n ==> ReachesAt(t, front, i) == ReachesAt(t, events, i);
      assert Collides(Run(t, front), events[n]) == ReachesAt(t, events, n);
    }
  }

  // A raw packet makes the session move to another SSRC if and only if one of its
  // events comes from an address and carries the own SSRC, and its sender is not
  // one that has collided before.
  lemma PollMovesIf(s: SessionState, p: RawPacket)
    requires SessionOk(s) && WellFormed(Poll(p)) && Act(s, Poll(p)).Some?
    ensures Act(s, Poll(p)).value.ssrc != s.ssrc <==>
              !Known(s.collisions, p.sender) && exists i :: 0 <= i < |p.events| && ReachesAt(s.table, p.events, i)
  {
    RunCollidesIs(s.table, p.events);
    RunKeepsOwn(s.table, p.events);
    var t := s.(table := Run(s.table, p.events));
    if RunCollides(s.table, p.events) && !Known(s.collisions, p.sender) {
      FreshSsrcTaken(t.table, p.draws[FirstFree(t.table, p.draws)]);
    }
  }

  lemma {:induction false} NotedIsKnown(list: seq<(Address, real)>, a: Address, time: real)
    ensures Known(Noted(list, a, time), a)
  {
    if list != [] && list[0].0 != a {
      NotedIsKnown(list[1..], a, time);
      assert Noted(list, a, time)[1..] == Noted(list[1..], a, time);
    }
  }

  // ---- The active counter and the timer ----

  // The counts that break the timer's clock are those a session passes to it: the
  // active counter after the packets that started the timer, and after each BYE.
  lemma NegativeCountsReachTheTimer(events: seq<Event>, p: SourceState.Packet, sender: Option<Address>, n: nat)
    requires SourceCounters.Goodbyes(events, p, sender) && p.ssrc == 10 && p.csrcs == [1, 2, 3] && n <= 4
    ensures var tick, t := Scheduler.LeavingTicks()[n], SourceCounters.After(events, n + 5);
            if n == 0 then tick.IsTime? && tick.census.active == t.active
            else tick.Decrease? && tick.members == t.active && events[n + 4].Bye?
  {
    hide SourceCounters.After, SourceCounters.Inv;
    SourceCounters.OwnCountCanBeNegative(events, p, sender, n);
  }

  // ---- The packet builder ----

  class RTPPacketBuilder {
    var ssrc: uint32
    var timestamp: uint32
    var seqnr: uint16
    var numpayloadbytes: nat
    var numpackets: nat

    constructor (newssrc: uint32, newtimestamp: uint32, newseqnr: uint16)
      ensures ssrc == newssrc
    {
      ssrc, timestamp, seqnr, numpayloadbytes, numpackets := newssrc, newtimestamp, newseqnr, 0, 0;
    }

    method AdjustSSRC(s: uint32)
      modifies this`ssrc
      ensures ssrc == s
    {
      ssrc := s;
    }

    // Draw random numbers until one is not in the table; done is false if the
    // given draws run out first.
    method CreateNewSSRC(sources: RTPSources, draws: seq<uint32>, newtimestamp: uint32, newseqnr: uint16)
      returns (done: bool)
      requires sources.Abs().Some? && this !in sources.repr
      modifies this
      ensures sources.Abs() == old(sources.Abs()) && sources.repr == old(sources.repr)
      ensures done == (FirstFree(old(sources.Value()), draws) < |draws|)
      ensures done ==> ssrc == draws[FirstFree(old(sources.Value()), draws)]
      ensures done ==> timestamp == newtimestamp && seqnr == newseqnr
      ensures done ==> numpayloadbytes == 0 && numpackets == 0
    {
      hide GotEntry, RTPSources.Abs;
      ghost var t := sources.Value();
      var i, found := 0, true;
      while found && i < |draws|
        invariant i <= |draws| && sources.Abs() == old(sources.Abs()) && sources.repr == old(sources.repr)
        invariant found ==> FirstFree(t, draws) == i + FirstFree(t, draws[i..])
        invariant !found ==> i > 0 && FirstFree(t, draws) == i - 1 && ssrc == draws[i - 1]
      {
        FirstFreeFrom(t, draws, i);
        ssrc := draws[i];
        found := sources.HasEntry(ssrc);
        i := i + 1;
      }
      timestamp := newtimestamp;
      seqnr := newseqnr;
      numpayloadbytes := 0;
      numpackets := 0;
      done := !found;
    }
  }

  // ---- The session ----

  class RTPSession {
    const sources: RTPSources
    const packetbuilder: RTPPacketBuilder
    var collisionlist: seq<(Address, real)>
    var sentpackets: bool
    var byepackets: nat

    // The source table, when it is in good order.
    ghost function SourcesValue(): Option<Table>
      reads sources, sources.repr
    {
      if && this !in sources.repr && packetbuilder !in sources.repr
         && sources.Abs().Some? && SourceCounters.Inv(sources.Value())
      then sources.Abs()
      else None
    }

    ghost function State(): Option<SessionState>
      reads this, packetbuilder, sources, sources.repr
    {
      if SourcesValue().None? then None
      else Some(SessionState(SourcesValue().value, packetbuilder.ssrc, collisionlist, sentpackets, byepackets))
    }

    // What holds between any two steps.
    ghost predicate Valid()
      reads this, packetbuilder, sources, sources.repr
    {
      State().Some? && SessionOk(State().value)
    }

    constructor (probationtype: SourceState.ProbationType, ssrc: uint32, timestamp: uint32, seqnr: uint16)
      ensures State() == Some(SessionState(Empty(probationtype), ssrc, [], false, 0))
      ensures fresh(sources) && fresh(packetbuilder)
    {
      sources := new RTPSources(probationtype);
      packetbuilder := new RTPPacketBuilder(ssrc, timestamp, seqnr);
      collisionlist, sentpackets, byepackets := [], false, 0;
    }

    // The SSRC set-up of InternalCreate; it cannot be refused.
    method SetUpOwnSSRC(predefined: Option<uint32>)
      requires State().Some? && SourcesValue() == Some(Empty(sources.probationtype))
      modifies packetbuilder, sources, sources.repr
      ensures Valid() && fresh(sources.repr - old(sources.repr))
      ensures packetbuilder.ssrc == if predefined.Some? then predefined.value else old(packetbuilder.ssrc)
    {
      hide SourceCounters.Inv;
      if predefined.Some? {
        packetbuilder.AdjustSSRC(predefined.value);
      }
      SourceCounters.CreateOwnKeeps(sources.Value(), packetbuilder.ssrc);
      var ok := sources.CreateOwnSSRC(packetbuilder.ssrc);
      assert ok;
    }

    // RTPCollisionList::UpdateAddress.
    method UpdateAddress(addr: Address, receivetime: real) returns (created: bool)
      modifies this`collisionlist
      ensures created == !Known(old(collisionlist), addr)
      ensures collisionlist == Noted(old(collisionlist), addr, receivetime)
    {
      ghost var list := collisionlist;
      var i := 0;
      while i < |collisionlist|
        invariant i <= |list| && collisionlist == list
        invariant Known(list, addr) == Known(list[i..], addr)
        invariant Noted(list, addr, receivetime) == list[..i] + Noted(list[i..], addr, receivetime)
      {
        NotedFrom(list, i, addr, receivetime);
        if collisionlist[i].0 == addr {
          collisionlist := collisionlist[i := (addr, receivetime)];
          return false;
        }
        i := i + 1;
      }
      collisionlist := collisionlist + [(addr, receivetime)];
      return true;
    }

    // RTPCollisionList::Timeout.
    method ExpireAddresses(checktime: real)
      modifies this`collisionlist
      ensures collisionlist == Expired(old(collisionlist), checktime)
    {
      ghost var list := collisionlist;
      ghost var k := 0;
      var it := 0;
      while it < |collisionlist|
        invariant it <= |collisionlist| && k <= |list| && collisionlist[it..] == list[k..]
        invariant Expired(list, checktime) == collisionlist[..it] + Expired(list[k..], checktime)
        decreases |list| - k
      {
        assert list[k..][1..] == list[k + 1..] && collisionlist[it] == list[k];
        if collisionlist[it].1 < checktime {
          collisionlist := collisionlist[..it] + collisionlist[it + 1..];
        } else {
          it := it + 1;
        }
        k := k + 1;
      }
    }

    // One table event caused by an incoming packet.
    method Receive(e: Event) returns (owncollision: bool)
      requires SourcesValue().Some? && Incoming(e)
      modifies sources, sources.repr
      ensures SourcesValue() == Some(Step(old(SourcesValue()).value, e)) && fresh(sources.repr - old(sources.repr))
      ensures owncollision == Collides(old(SourcesValue()).value, e)
    {
      StepKeepsInv(sources.Value(), e);
      match e {
        case Rtp(p, now, sender, handled) =>
          var stored;
          stored, owncollision := sources.ProcessRTPPacket(p, now, sender, handled);
        case Refresh(ssrc, now, sender) =>
          owncollision := sources.UpdateReceiveTime(ssrc, now, sender);
        case Sdes(ssrc, id, data, now, sender) =>
          var legal, cnamecollis;
          legal, cnamecollis, owncollision := sources.ProcessSDESNormalItem(ssrc, id, data, now, sender);
        case Bye(ssrc, now, sender) =>
          owncollision := sources.ProcessBYE(ssrc, now, sender);
      }
    }

    // sources.ProcessRawPacket, and whether it found a collision with the own entry.
    method ProcessRawPacket(events: seq<Event>) returns (owncollision: bool)
      requires SourcesValue().Some? && forall i :: 0 <= i < |events| ==> Incoming(events[i])
      modifies sources, sources.repr
      ensures SourcesValue() == Some(Run(old(SourcesValue()).value, events)) && fresh(sources.repr - old(sources.repr))
      ensures owncollision == RunCollides(old(SourcesValue()).value, events)
    {
      hide Step, Collides, SourcesValue, Incoming;
      ghost var t := SourcesValue().value;
      var i := 0;
      owncollision := false;
      assert events[..|events|] == events;
      while i < |events|
        invariant i <= |events| && fresh(sources.repr - old(sources.repr))
        invariant SourcesValue() == Some(Run(t, events[..i])) && owncollision == RunCollides(t, events[..i])
      {
        assert events[..i + 1][..i] == events[..i];
        var collides := Receive(events[i]);
        owncollision := owncollision || collides;
        i := i + 1;
      }
    }

    // Draw a new SSRC and give it to the own entry.
    method DrawOwnSSRC(draws: seq<uint32>, newtimestamp: uint32, newseqnr: uint16) returns (done: bool)
      requires SourcesValue().Some? && SourcesValue().value.own.Some?
      modifies packetbuilder, sources, sources.repr
      ensures fresh(sources.repr - old(sources.repr))
      ensures done == (FirstFree(old(SourcesValue()).value, draws) < |draws|)
      ensures done ==> packetbuilder.ssrc == draws[FirstFree(old(SourcesValue()).value, draws)]
      ensures done ==> SourcesValue() == Some(Reowned(old(SourcesValue()).value, packetbuilder.ssrc))
    {
      done := packetbuilder.CreateNewSSRC(sources, draws, newtimestamp, newseqnr);
      if done {
        ReplaceOwn();
      }
    }

    // Queue a BYE if data was sent under the old SSRC, then move to a new one.
    method ChangeOwnSSRC(draws: seq<uint32>, newtimestamp: uint32, newseqnr: uint16) returns (done: bool)
      requires SourcesValue().Some? && SourcesValue().value.own.Some?
      modifies this`sentpackets, this`byepackets, packetbuilder, sources, sources.repr
      ensures fresh(sources.repr - old(sources.repr))
      ensures done == Move(old(State()).value, draws).Some?
      ensures done ==> State() == Move(old(State()).value, draws)
    {
      hide RTPSources.Abs, RTPSources.Value, SourceCounters.Inv, Reowned, FirstFree;
      ghost var was := State().value;
      QueueBye();
      assert SourcesValue() == Some(was.table) && collisionlist == was.collisions;
      done := DrawOwnSSRC(draws, newtimestamp, newseqnr);
      if done {
        MovedTo(was, draws, packetbuilder.ssrc, byepackets, SourcesValue().value);
      }
    }

    method QueueBye()
      modifies this`sentpackets, this`byepackets
      ensures byepackets == old(byepackets) + B2I(old(sentpackets)) && !sentpackets
    {
      if sentpackets {
        byepackets := byepackets + 1;
      }
      sentpackets := false;
    }

    // Remove the old own entry and add the new one; neither is refused.
    method ReplaceOwn()
      requires SourcesValue().Some? && SourcesValue().value.own.Some?
               && !GotEntry(SourcesValue().value, packetbuilder.ssrc)
      modifies sources, sources.repr
      ensures fresh(sources.repr - old(sources.repr))
      ensures SourcesValue() == Some(Reowned(old(SourcesValue()).value, packetbuilder.ssrc))
    {
      hide CreateOwn, DeleteOwn;
      ghost var t := sources.Value();
      FreshSsrcTaken(t, packetbuilder.ssrc);
      SourceCounters.DeleteOwnKeeps(t);
      SourceCounters.CreateOwnKeeps(DeleteOwn(t), packetbuilder.ssrc);
      var ok := sources.DeleteOwnSSRC();
      assert ok;
      ok := sources.CreateOwnSSRC(packetbuilder.ssrc);
      assert ok;
    }

    // The collision handling in the packet loop of ProcessPolledData.
    method HandleCollision(pack: RawPacket, owncollision: bool, newtimestamp: uint32, newseqnr: uint16)
      returns (done: bool)
      requires SourcesValue().Some? && SourcesValue().value.own.Some?
      modifies this, packetbuilder, sources, sources.repr
      ensures fresh(sources.repr - old(sources.repr))
      ensures done == Resolve(old(State()).value, pack, owncollision).Some?
      ensures done ==> State() == Resolve(old(State()).value, pack, owncollision)
    {
      hide RTPSources.Abs, RTPSources.Value, SourceCounters.Inv, Move;
      done := true;
      if owncollision {
        var created := UpdateAddress(pack.sender, pack.receivetime);
        if created {
          done := ChangeOwnSSRC(pack.draws, newtimestamp, newseqnr);
        }
      }
    }

    // The body of the packet loop of ProcessPolledData.
    method ProcessPolledPacket(pack: RawPacket, newtimestamp: uint32, newseqnr: uint16) returns (done: bool)
      requires Valid() && WellFormed(Poll(pack))
      modifies this, packetbuilder, sources, sources.repr
      ensures fresh(sources.repr - old(sources.repr))
      ensures done == Act(old(State()).value, Poll(pack)).Some?
      ensures done ==> State() == Act(old(State()).value, Poll(pack))
    {
      hide Incoming, Run, RunCollides;
      RunKeepsOwn(sources.Value(), pack.events);
      var owncollision := ProcessRawPacket(pack.events);
      done := HandleCollision(pack, owncollision, newtimestamp, newseqnr);
    }

    method ExpireSources(t: real, sendertimeout: real, byetimeout: real, generaltimeout: real, notetimeout: real,
                         ghost e: Event)
      requires SourcesValue().Some?
      requires e == Timeout(MultipleSweep(t - sendertimeout, t - byetimeout, t - generaltimeout, t - notetimeout))
      modifies sources, sources.repr
      ensures sources.repr == old(sources.repr) && SourcesValue() == Some(Step(old(SourcesValue()).value, e))
    {
      StepKeepsInv(sources.Value(), e);
      sources.MultipleTimeouts(t, sendertimeout, byetimeout, generaltimeout, notetimeout);
    }

    // The timeouts at the end of ProcessPolledData.
    method ExpireAll(t: real, sendertimeout: real, byetimeout: real, generaltimeout: real, notetimeout: real,
                     colltimeout: real,
                     ghost e: Event)
      requires SourcesValue().Some?
      requires e == Timeout(MultipleSweep(t - sendertimeout, t - byetimeout, t - generaltimeout, t - notetimeout))
      modifies this`collisionlist, sources, sources.repr
      ensures sources.repr == old(sources.repr) && SourcesValue() == Some(Step(old(SourcesValue()).value, e))
      ensures collisionlist == Expired(old(collisionlist), t - colltimeout)
    {
      ExpireSources(t, sendertimeout, byetimeout, generaltimeout, notetimeout, e);
      ExpireAddresses(t - colltimeout);
    }

    // The part of SendPacket that follows a successful send.
    method PacketSent(now: real)
      requires SourcesValue().Some?
      modifies this`sentpackets, sources, sources.repr
      ensures sources.repr == old(sources.repr) && State() == Act(old(State()).value, Send(now))
    {
      hide SourceCounters.Inv, SentRtpPacket;
      StepKeepsInv(sources.Value(), Sent(now));
      sources.SentRTPPacket(now);
      sentpackets := true;
    }

    // RTCP is sent when it is time: a queued BYE packet, or else the next compound
    // packet.
    method RTCPSent()
      requires SourcesValue().Some?
      modifies this`sentpackets, this`byepackets
      ensures State() == Act(old(State()).value, SendRtcp)
    {
      hide RTPSources.Abs, RTPSources.Value, SourceCounters.Inv;
      if byepackets == 0 {
        sentpackets := true;
      } else {
        byepackets := byepackets - 1;
        sentpackets := true;
      }
    }

    method APPPacketSent()
      requires SourcesValue().Some?
      modifies this`sentpackets
      ensures State() == Act(old(State()).value, SendApp)
    {
      hide RTPSources.Abs, RTPSources.Value, SourceCounters.Inv;
      sentpackets := true;
    }
  }
}
