// Runs of a session: which addresses it takes as known to collide, when it moves to
// another SSRC and to which, and which BYE packets it queues.
module SessionRuns {
  import opened Types
  import opened SourceTable
  import opened Sources
  import SourceCounters
  import SourceHistory
  import OwnHistory
  import opened Session

  function Front(actions: seq<Action>): seq<Action>
    requires actions != []
  {
    actions[..|actions| - 1]
  }

  function Last(actions: seq<Action>): Action
    requires actions != []
  {
    actions[|actions| - 1]
  }

  ghost predicate AllWellFormed(actions: seq<Action>) {
    forall i :: 0 <= i < |actions| ==> WellFormed(actions[i])
  }

  // ---- The addresses that have collided ----

  // Some event of the packet comes from an address and carries the own SSRC.
  ghost predicate ReachesSession(s: SessionState, p: RawPacket) {
    exists i :: 0 <= i < |p.events| && ReachesAt(s.table, p.events, i)
  }

  // When packets from this address last collided with the own SSRC, if that has
  // not expired since.
  ghost function LastCollision(s: SessionState, actions: seq<Action>, a: Address): Option<real>
    decreases |actions|
  {
    if actions == [] then None
    else
      var before, earlier := RunSession(s, Front(actions)), LastCollision(s, Front(actions), a);
      match Last(actions)
      case Poll(p) => if before.Some? && p.sender == a && ReachesSession(before.value, p) then Some(p.receivetime)
                      else earlier
      case Expire(_, _, _, _, check) => if earlier.Some? && earlier.value < check then None else earlier
      case _ => earlier
  }

  // The time noted for an address.
  function TimeOf(list: seq<(Address, real)>, a: Address): Option<real> {
    if list == [] then None else if list[0].0 == a then Some(list[0].1) else TimeOf(list[1..], a)
  }

  // Every address is in the list once.
  ghost predicate Distinct(list: seq<(Address, real)>) {
    forall i, j :: 0 <= i < j < |list| ==> list[i].0 != list[j].0
  }

  lemma {:induction false} KnownIs(list: seq<(Address, real)>, a: Address)
    ensures Known(list, a) <==> TimeOf(list, a).Some?
    ensures Known(list, a) <==> exists i :: 0 <= i < |list| && list[i].0 == a
  {
    if list != [] {
      KnownIs(list[1..], a);
      if Known(list[1..], a) {
        var i :| 0 <= i < |list[1..]| && list[1..][i].0 == a;
        assert list[i + 1].0 == a;
      }
      if i :| 0 <= i < |list| && list[i].0 == a {
        assert i > 0 ==> list[1..][i - 1].0 == a;
      }
    }
  }

  lemma {:induction false} NotedIs(list: seq<(Address, real)>, a: Address, time: real, x: Address)
    ensures TimeOf(Noted(list, a, time), x) == if x == a then Some(time) else TimeOf(list, x)
    ensures Known(Noted(list, a, time), x) <==> x == a || Known(list, x)
  {
    KnownIs(list, x);
    KnownIs(Noted(list, a, time), x);
    if list != [] && list[0].0 != a {
      NotedIs(list[1..], a, time, x);
      assert Noted(list, a, time)[1..] == Noted(list[1..], a, time);
    }
  }

  // The first address of a list with distinct addresses is not in the rest.
  lemma DistinctParts(list: seq<(Address, real)>)
    requires list != []
    ensures Distinct(list) <==> Distinct(list[1..]) && !Known(list[1..], list[0].0)
  {
    var rest := list[1..];
    KnownIs(rest, list[0].0);
    if Distinct(list) {
      assert forall i :: 0 <= i < |rest| ==> rest[i] == list[i + 1];
    } else {
      var i, j :| 0 <= i < j < |list| && list[i].0 == list[j].0;
      assert rest[j - 1] == list[j] && (i > 0 ==> rest[i - 1] == list[i]);
    }
  }

  lemma {:induction false} NotedDistinct(list: seq<(Address, real)>, a: Address, time: real)
    requires Distinct(list)
    ensures Distinct(Noted(list, a, time))
  {
    hide Distinct, Known;
    if list == [] {
      DistinctOne((a, time));
    } else {
      DistinctParts(list);
      var noted := Noted(list, a, time);
      DistinctParts(noted);
      if list[0].0 == a {
        assert noted[1..] == list[1..];
      } else {
        NotedDistinct(list[1..], a, time);
        assert noted[1..] == Noted(list[1..], a, time);
        NotedIs(list[1..], a, time, list[0].0);
      }
    }
  }

  lemma DistinctOne(x: (Address, real))
    ensures Distinct([x])
  {
  }

  lemma {:induction false} ExpiredIs(list: seq<(Address, real)>, check: real, x: Address)
    requires Distinct(list)
    ensures var time := TimeOf(list, x);
            TimeOf(Expired(list, check), x) == if time.Some? && time.value < check then None else time
    ensures Known(Expired(list, check), x) ==> Known(list, x)
  {
    hide Distinct;
    KnownIs(list, x);
    KnownIs(Expired(list, check), x);
    if list != [] {
      DistinctParts(list);
      ExpiredIs(list[1..], check, x);
      KnownIs(list[1..], x);
      if list[0].1 < check {
        assert Expired(list, check) == Expired(list[1..], check);
      } else {
        assert Expired(list, check)[1..] == Expired(list[1..], check);
      }
    }
  }

  lemma {:induction false} ExpiredDistinct(list: seq<(Address, real)>, check: real)
    requires Distinct(list)
    ensures Distinct(Expired(list, check))
  {
    hide Distinct, Known;
    if list != [] {
      DistinctParts(list);
      ExpiredDistinct(list[1..], check);
      if list[0].1 < check {
        assert Expired(list, check) == Expired(list[1..], check);
      } else {
        ExpiredIs(list[1..], check, list[0].0);
        assert Expired(list, check)[1..] == Expired(list[1..], check);
        DistinctParts(Expired(list, check));
      }
    }
  }

  // What one action does to the list.
  lemma ActNotes(s: SessionState, action: Action)
    requires SessionOk(s) && WellFormed(action) && Act(s, action).Some?
    ensures Act(s, action).value.collisions ==
              match action
              case Poll(p) =>
                if ReachesSession(s, p) then Noted(s.collisions, p.sender, p.receivetime) else s.collisions
              case Expire(_, _, _, _, check) => Expired(s.collisions, check)
              case _ => s.collisions
  {
    if action.Poll? {
      RunCollidesIs(s.table, action.pack.events);
    }
  }

  ghost predicate Notes(list: seq<(Address, real)>, s: SessionState, actions: seq<Action>) {
    Distinct(list) && forall a :: TimeOf(list, a) == LastCollision(s, actions, a)
  }

  lemma StepNotes(s: SessionState, actions: seq<Action>, list: seq<(Address, real)>, q: SessionState)
    requires actions != [] && RunSession(s, Front(actions)).Some? && SessionOk(RunSession(s, Front(actions)).value)
    requires WellFormed(Last(actions)) && Act(RunSession(s, Front(actions)).value, Last(actions)) == Some(q)
    requires list == RunSession(s, Front(actions)).value.collisions && Notes(list, s, Front(actions))
    ensures Notes(q.collisions, s, actions)
  {
    hide Act, RunSession, SessionOk, ReachesSession, WellFormed, Distinct, Noted, Expired, TimeOf;
    var b := RunSession(s, Front(actions)).value;
    ActNotes(b, Last(actions));
    match Last(actions)
    case Poll(p) =>
      if ReachesSession(b, p) {
        NotedDistinct(list, p.sender, p.receivetime);
        forall a ensures TimeOf(q.collisions, a) == LastCollision(s, actions, a) {
          NotedIs(list, p.sender, p.receivetime, a);
        }
      }
    case Expire(_, _, _, _, check) =>
      ExpiredDistinct(list, check);
      forall a ensures TimeOf(q.collisions, a) == LastCollision(s, actions, a) {
        ExpiredIs(list, check, a);
      }
    case _ =>
  }

  // After every run of a session that starts without collisions, an address is in
  // the collision list if and only if packets from it have collided with the own
  // SSRC and that has not expired, and then once, with the time of the last one.
  lemma {:induction false} CollisionsAreNoted(s: SessionState, actions: seq<Action>)
    requires SessionOk(s) && s.collisions == [] && AllWellFormed(actions) && RunSession(s, actions).Some?
    ensures Notes(RunSession(s, actions).value.collisions, s, actions)
    decreases |actions|
  {
    hide Act, SessionOk, WellFormed;
    if actions != [] {
      var front := Front(actions);
      assert forall i :: 0 <= i < |front| ==> front[i] == actions[i];
      CollisionsAreNoted(s, front);
      OwnSsrcOverRuns(s, front);
      StepNotes(s, actions, RunSession(s, front).value.collisions, RunSession(s, actions).value);
    }
  }

  // ---- Moving ----

  lemma {:induction false} FirstFreeIs(t: Table, draws: seq<uint32>)
    ensures forall i :: 0 <= i < FirstFree(t, draws) ==> GotEntry(t, draws[i])
    ensures FirstFree(t, draws) == |draws| <==> forall i :: 0 <= i < |draws| ==> GotEntry(t, draws[i])
  {
    hide GotEntry;
    if draws != [] {
      FirstFreeIs(t, draws[1..]);
      assert forall i :: 0 < i < |draws| ==> draws[i] == draws[1..][i - 1];
    }
  }

  // ssrc is the first of the draws that no entry has.
  ghost predicate IsFirstFree(t: Table, draws: seq<uint32>, ssrc: uint32) {
    exists n :: 0 <= n < |draws| && draws[n] == ssrc && NoneBefore(t, draws, n)
  }

  ghost predicate NoneBefore(t: Table, draws: seq<uint32>, n: nat)
    requires n < |draws|
  {
    !GotEntry(t, draws[n]) && forall i :: 0 <= i < n ==> GotEntry(t, draws[i])
  }

  // This packet makes the session move.
  ghost predicate Moves(s: SessionState, actions: seq<Action>, p: RawPacket) {
    && RunSession(s, actions).Some? && ReachesSession(RunSession(s, actions).value, p)
    && LastCollision(s, actions, p.sender).None?
  }

  // After every run: the next packet makes the session move to another SSRC if and
  // only if one of its events carries the own SSRC from an address, and no earlier
  // collision from that address is still remembered. It moves to the first drawn
  // SSRC that no entry has; only if every one is taken do the draws not suffice.
  lemma MovesIf(s: SessionState, actions: seq<Action>, p: RawPacket)
    requires SessionOk(s) && s.collisions == [] && AllWellFormed(actions) && RunSession(s, actions).Some?
    requires WellFormed(Poll(p))
    ensures var b := RunSession(s, actions).value;
            var q, t := Act(b, Poll(p)), Run(b.table, p.events);
            && (q.None? <==> Moves(s, actions, p) && forall i :: 0 <= i < |p.draws| ==> GotEntry(t, p.draws[i]))
            && (q.Some? ==> (q.value.ssrc != b.ssrc <==> Moves(s, actions, p)))
            && (q.Some? && Moves(s, actions, p) ==> IsFirstFree(t, p.draws, q.value.ssrc))
  {
    hide SessionOk, GotEntry, Reowned, Noted, Run, RunCollides;
    var b := RunSession(s, actions).value;
    var t := Run(b.table, p.events);
    OwnSsrcOverRuns(s, actions);
    CollisionsAreNoted(s, actions);
    KnownIs(b.collisions, p.sender);
    SessionTable(b);
    RunCollidesIs(b.table, p.events);
    FirstFreeIs(t, p.draws);
    if Act(b, Poll(p)).Some? {
      PollMovesIf(b, p);
      assert FirstFree(t, p.draws) < |p.draws| ==> NoneBefore(t, p.draws, FirstFree(t, p.draws));
    }
  }

  lemma SessionTable(s: SessionState)
    requires SessionOk(s)
    ensures SourceCounters.Inv(s.table)
  {
  }

  // ---- Sending ----

  // Sending data makes the own source a sender, from then on and at that time;
  // sending RTCP leaves the whole table as it is.
  lemma SendMakesSender(s: SessionState, now: real)
    requires SessionOk(s)
    ensures var r := Act(s, Send(now)).value;
            var own := SourceHistory.Was(r.table, s.ssrc);
            && r.table.own == Some(s.ssrc) && own.ownssrc && own.issender && own.stats.lastrtptime == now
            && (forall ssrc :: ssrc != s.ssrc ==>
                  SourceHistory.Entry(r.table, ssrc) == SourceHistory.Entry(s.table, ssrc))
    ensures Act(s, SendRtcp).value.table == s.table && Act(s, SendApp).value.table == s.table
  {
    hide SentRtpPacket, SourceCounters.Inv, SourceHistory.Entry;
    var t := SentRtpPacket(s.table, now);
    SentTable(s.table, now, s.ssrc);
    StepKeepsInv(s.table, Sent(now));
    OwnHistory.OwnSent(s.table, now, s.ssrc);
    OwnHistory.OwnIs(t, s.ssrc);
    forall ssrc | ssrc != s.ssrc ensures SourceHistory.Entry(t, ssrc) == SourceHistory.Entry(s.table, ssrc) {
      SourceHistory.SentStep(s.table, now, ssrc);
    }
  }

  lemma SentTable(t: Table, now: real, ssrc: uint32)
    requires t.own == Some(ssrc)
    ensures SentRtpPacket(t, now).own == Some(ssrc) && Step(t, Sent(now)) == SentRtpPacket(t, now)
  {
  }

  // ---- BYE packets ----

  // Something has been sent since the last move.
  ghost predicate SentSince(s: SessionState, actions: seq<Action>)
    decreases |actions|
  {
    actions != [] &&
    match Last(actions)
    case Send(_) => true
    case SendRtcp => true
    case SendApp => true
    case Poll(p) => SentSince(s, Front(actions)) && !Moves(s, Front(actions), p)
    case _ => SentSince(s, Front(actions))
  }

  // The moves after something had been sent, and the BYE packets sent for them.
  ghost function MovesToTell(s: SessionState, actions: seq<Action>): nat
    decreases |actions|
  {
    if actions == [] then 0
    else
      var a, front := Last(actions), Front(actions);
      MovesToTell(s, front) + B2I(a.Poll? && Moves(s, front, a.pack) && SentSince(s, front))
  }

  ghost function ByesSent(s: SessionState, actions: seq<Action>): nat
    decreases |actions|
  {
    if actions == [] then 0
    else
      var front := Front(actions);
      ByesSent(s, front) + B2I(Last(actions).SendRtcp? && MovesToTell(s, front) > ByesSent(s, front))
  }

  lemma ActQueues(s: SessionState, actions: seq<Action>, b: SessionState, action: Action)
    requires SessionOk(s) && s.collisions == [] && AllWellFormed(actions) && RunSession(s, actions) == Some(b)
    requires WellFormed(action) && Act(b, action).Some?
    ensures var q, moves := Act(b, action).value, action.Poll? && Moves(s, actions, action.pack);
            && q.sentpackets == (action.Send? || action.SendRtcp? || action.SendApp? || (b.sentpackets && !moves))
            && q.byepackets == b.byepackets + B2I(moves && b.sentpackets)
                               - B2I(action.SendRtcp? && b.byepackets > 0)
  {
    hide SessionOk, GotEntry, Reowned, Noted, Run, RunCollides;
    OwnSsrcOverRuns(s, actions);
    SessionTable(b);
    if action.Poll? {
      CollisionsAreNoted(s, actions);
      KnownIs(b.collisions, action.pack.sender);
      RunCollidesIs(b.table, action.pack.events);
    }
  }

  // After every run: the BYE packets waiting are those of the moves made after
  // something had been sent, less those sent since; each move is told once.
  lemma {:induction false} ByesAreQueued(s: SessionState, actions: seq<Action>)
    requires SessionOk(s) && s.collisions == [] && !s.sentpackets && s.byepackets == 0
    requires AllWellFormed(actions) && RunSession(s, actions).Some?
    ensures var q := RunSession(s, actions).value;
            && q.sentpackets == SentSince(s, actions)
            && MovesToTell(s, actions) == q.byepackets + ByesSent(s, actions)
    decreases |actions|
  {
    hide Act, SessionOk, WellFormed, Moves;
    if actions != [] {
      var front := Front(actions);
      assert forall i :: 0 <= i < |front| ==> front[i] == actions[i];
      ByesAreQueued(s, front);
      ActQueues(s, front, RunSession(s, front).value, Last(actions));
    }
  }
}
