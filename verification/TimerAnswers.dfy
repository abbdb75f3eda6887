// When the RTCP timer answers yes: the other side of the spacing between
// transmissions, with and without a scheduled BYE.
module TimerAnswers {
  import opened Scheduler

  // ---- Upper bounds ----

  lemma ScaleDown(a: real, m: real)
    requires a >= 0.0 && m <= 1.5
    ensures a * m <= a * 1.5
  {
  }

  // The longest interval that can be drawn.
  function Longest(s: Sched, c: Census): real {
    1.5 * Deterministic(s, c, c.aresender) / 1.21828
  }

  lemma IntervalAtMost(s: Sched, c: Census, random: real)
    requires 0.0 <= random <= 1.0
    ensures 0.0 < Interval(s, c, random) <= Longest(s, c)
  {
    IntervalBound(s, c, random);
    ScaleDown(Deterministic(s, c, c.aresender), random + 0.5);
  }

  // The interval between BYE packets without its random factor.
  function ByeDeterministic(s: Sched): real {
    Max(if s.params.usehalfatstartup then s.params.mininterval / 2.0 else s.params.mininterval,
        Times(s.byemembers as real, s.avgbyepacketsize as real, ReceiverShare(s.params)))
  }

  function LongestBye(s: Sched): real {
    if s.sendbyenow then 0.0 else 1.5 * ByeDeterministic(s) / 1.21828
  }

  lemma ByeIntervalAtMost(s: Sched, random: real)
    requires s.byescheduled && 0.0 <= random <= 1.0
    ensures 0.0 <= ByeInterval(s, random) <= LongestBye(s)
    ensures !s.sendbyenow ==> ByeInterval(s, random) >= 0.5 * s.params.mininterval / 2.0 / 1.21828
  {
    ScaleDown(ByeDeterministic(s), random + 0.5);
    ScaleUp(ByeDeterministic(s), s.params.mininterval / 2.0, random + 0.5);
  }

  // With a uniform random number the interval is uniform between its two bounds.
  lemma IntervalIsUniform(s: Sched, c: Census, random: real)
    ensures var low, high := 0.5 * Deterministic(s, c, c.aresender) / 1.21828, Longest(s, c);
            Interval(s, c, random) == low + random * (high - low)
  {
    Uniform(Deterministic(s, c, c.aresender), random);
  }

  lemma ByeIntervalIsUniform(s: Sched, random: real)
    requires s.byescheduled
    ensures var low, high := if s.sendbyenow then 0.0 else 0.5 * ByeDeterministic(s) / 1.21828, LongestBye(s);
            ByeInterval(s, random) == low + random * (high - low)
  {
    Uniform(ByeDeterministic(s), random);
  }

  lemma Uniform(d: real, random: real)
    ensures d * (random + 0.5) / 1.21828 == 0.5 * d / 1.21828 + random * (1.5 * d / 1.21828 - 0.5 * d / 1.21828)
  {
    assert 1.5 * d / 1.21828 - 0.5 * d / 1.21828 == d / 1.21828;
    assert d * (random + 0.5) == d * random + 0.5 * d;
    assert random * (d / 1.21828) == d * random / 1.21828;
  }

  // In this time the packets of the group exactly fill its share of the bandwidth: the
  // senders' or the receivers', or the whole if there are many senders.
  predicate Fills(params: GoodParams, avg: real, m: real, k: real, sender: bool, time: real) {
    if k > params.senderfraction * m then m * avg == params.bandwidth * time
    else if sender then k * avg == params.senderfraction * params.bandwidth * time
    else (m - k) * avg == (1.0 - params.senderfraction) * params.bandwidth * time
  }

  lemma GroupFills(params: GoodParams, avg: real, m: real, k: real, sender: bool)
    requires m > 0.0
    ensures Fills(params, avg, m, k, sender, GroupTime(params, avg, m, k, sender))
  {
    FewSenders(k, m, params.senderfraction);
    if k > params.senderfraction * m {
      TimesBack(m, avg, params.bandwidth);
    } else if sender {
      TimesBack(k, avg, SenderShare(params));
    } else {
      TimesBack(m - k, avg, ReceiverShare(params));
    }
  }

  // The minimum interval is halved before the first packet if so configured.
  function Shortest(s: Sched): real {
    if s.hassentrtcp || !s.params.usehalfatstartup then s.params.mininterval else s.params.mininterval / 2.0
  }

  // The interval is the minimum, or else the one in which the packets of the group
  // fill its share of the bandwidth.
  lemma IntervalIsTight(s: Sched, c: Census, sender: bool)
    requires c.active > 0
    ensures var d, avg := Deterministic(s, c, sender), s.avgrtcppacksize as real;
            && d >= Shortest(s)
            && (d > Shortest(s) ==> Fills(s.params, avg, c.active as real, c.senders as real, sender, d))
  {
    hide GroupTime, Fills;
    GroupFills(s.params, s.avgrtcppacksize as real, c.active as real, c.senders as real, sender);
  }

  // No members count as one. With a negative count, which the uncounted sources of
  // Session.NegativeCountsReachTheTimer lead to, a receiver falls back on the minimum,
  // and a sender shares the senders' bandwidth with the other senders.
  lemma OddCounts(s: Sched, c: Census, sender: bool)
    requires c.active <= 0 <= c.senders
    ensures var low := Shortest(s);
            && (c.active == 0 ==> Deterministic(s, c, sender) == Deterministic(s, c.(active := 1), sender))
            && (c.active < 0 ==>
                  var k, avg, d := c.senders as real, s.avgrtcppacksize as real, Deterministic(s, c, sender);
                  && d >= low
                  && (d > low ==> sender && k * avg == s.params.senderfraction * s.params.bandwidth * d))
  {
    if c.active < 0 {
      NegativeRatio(c.senders as real, c.active as real);
      var avg := s.avgrtcppacksize as real;
      if sender {
        TimesBack(c.senders as real, avg, SenderShare(s.params));
      } else {
        NegativeTimes((c.active - c.senders) as real, avg, ReceiverShare(s.params));
      }
    }
  }

  lemma NegativeRatio(k: real, m: real)
    requires k >= 0.0 > m
    ensures k / m <= 0.0
  {
    var q := k / m;
    assert k == q * m;
    if q > 0.0 {
      NegativeProduct(m, q);
    }
  }

  lemma NegativeTimes(n: real, avg: real, bandwidth: real)
    requires n <= 0.0 <= avg && bandwidth > 0.0
    ensures Times(n, avg, bandwidth) <= 0.0
  {
    var q := avg / bandwidth;
    assert q >= 0.0;
    assert n * q <= 0.0;
  }

  lemma FewSenders(k: real, m: real, fraction: real)
    requires m > 0.0
    ensures k / m <= fraction <==> k <= fraction * m
  {
    var q := k / m;
    assert k == q * m;
    if q <= fraction {
      ProductSign(fraction - q, m);
    } else {
      NegativeProduct(fraction - q, m);
    }
    assert (fraction - q) * m == fraction * m - q * m;
  }

  lemma TimesBack(n: real, avg: real, bandwidth: real)
    requires bandwidth > 0.0
    ensures n * avg == bandwidth * Times(n, avg, bandwidth)
  {
    var q := avg / bandwidth;
    assert avg == q * bandwidth;
    assert n * (q * bandwidth) == bandwidth * (n * q);
  }

  // ---- When the answer is yes ----

  // An expired timer answers yes as soon as the longest interval has passed since
  // the last transmission, whatever is drawn; with a BYE scheduled, the longest
  // interval between BYE packets.
  lemma AnswersYes(s: Sched, t: Tick)
    requires t.IsTime? && 0.0 <= t.random <= 1.0 && !s.firstcall && t.now >= s.nextrtcptime
    requires t.now >= s.prevrtcptime + if s.byescheduled then LongestBye(s) else Longest(s, t.census)
    ensures Fires(s, t)
  {
    if s.byescheduled {
      ByeIntervalAtMost(s, t.random);
    } else {
      IntervalAtMost(s, t.census, t.random);
    }
  }

  // A timer that answers no when it has expired answers yes the next time, if by
  // then the longest intervals of both times have passed since the last
  // transmission.
  lemma SecondAnswerIsYes(s: Sched, t: Tick, again: Tick)
    requires t.IsTime? && again.IsTime? && 0.0 <= t.random <= 1.0 && 0.0 <= again.random <= 1.0
    requires !s.firstcall && !s.byescheduled && t.now >= s.nextrtcptime && !Fires(s, t)
    requires again.now >= s.prevrtcptime + Longest(s, t.census)
    requires again.now >= s.prevrtcptime + Longest(s, again.census)
    ensures Fires(Step(Standard(), s, t), again)
  {
    IntervalAtMost(s, t.census, t.random);
    AnswersYes(Step(Standard(), s, t), again);
  }

  // A positive answer ends the back-off and starts the timer again, for at most the
  // longest interval.
  lemma YesRestarts(s: Sched, t: Tick)
    requires t.IsTime? && Fires(s, t) && 0.0 <= t.random2 <= 1.0
    ensures var r := Step(Standard(), s, t);
            && r.prevrtcptime == t.now && !r.byescheduled && !r.firstcall && r.pmembers == t.census.active
            && t.later < r.nextrtcptime <= t.later + Longest(s, t.census)
  {
    var r := s.(byescheduled := false, prevrtcptime := t.now, pmembers := t.census.active);
    assert Longest(r, t.census) == Longest(s, t.census);
    IntervalAtMost(r, t.census, t.random2);
  }

  // When the announced delay has passed, the timer has expired.
  lemma DelayIsEnough(s: Sched, c: Census, now: real, later: real, random: real, cur: real, at: real)
    requires at >= cur + Max(Delay(Standard(), s, c, now, later, random).nextrtcptime - cur, 0.0)
    ensures at >= Delay(Standard(), s, c, now, later, random).nextrtcptime
  {
  }

  // A new timer: the first call starts it and answers no; from the longest interval
  // after it on, the answer is yes.
  lemma FirstAnswerIsYes(s: Sched, first: Tick, t: Tick)
    requires first.IsTime? && t.IsTime? && s.firstcall && !s.byescheduled && first.now <= first.later
    requires 0.0 <= first.random <= 1.0 && 0.0 <= t.random <= 1.0
    requires t.now >= first.later + Longest(s, first.census) && t.now >= first.now + Longest(s, t.census)
    ensures !Fires(s, first) && Fires(Step(Standard(), s, first), t)
  {
    var r := s.(firstcall := false, prevrtcptime := first.now, pmembers := first.census.active);
    assert Longest(r, first.census) == Longest(s, first.census);
    IntervalAtMost(r, first.census, first.random);
    AnswersYes(Step(Standard(), s, first), t);
  }

  // With the default parameters and two members the first answer after 10 seconds
  // is yes.
  lemma DefaultTimer(random: real, random2: real)
    requires 0.0 <= random <= 1.0
    ensures var c := Census(2, 0, false);
            var started := Step(Standard(), Fresh(), IsTime(0.0, 0.0, c, 0.5, 0.5));
            Fires(started, IsTime(10.0, 10.0, c, random, random2))
  {
    var c := Census(2, 0, false);
    FirstAnswerIsYes(Fresh(), IsTime(0.0, 0.0, c, 0.5, 0.5), IsTime(10.0, 10.0, c, random, random2));
  }

  // ---- BYE packets ----

  // A BYE that is scheduled may go out at once if there are fewer than 50 members
  // and the parameters say so; otherwise it waits for a BYE interval of its own.
  lemma ScheduledBye(s: Sched, c: Census, size: nat, now: real, random: real)
    requires !s.byescheduled && 0.0 <= random <= 1.0
    ensures var r := ScheduleBye(Standard(), s, c, size, now, random);
            && r.byescheduled && !r.firstcall && r.byemembers == 1 && r.prevrtcptime == now
            && r.avgbyepacketsize == s.headeroverhead + size
            && (r.sendbyenow <==> s.params.immediatebye && c.active < 50)
            && now <= r.nextrtcptime <= now + LongestBye(r)
            && (!r.sendbyenow ==> r.nextrtcptime >= now + 0.5 * s.params.mininterval / 2.0 / 1.21828)
            && (r.nextrtcptime == now <==> r.sendbyenow)
  {
    ByeIntervalAtMost(StartBye(s, c, size, now), random);
  }

  lemma ImmediateByeIsSent(s: Sched, c: Census, size: nat, now: real, random: real, t: Tick)
    requires !s.byescheduled && 0.0 <= random <= 1.0 && s.params.immediatebye && c.active < 50
    requires t.IsTime? && t.now >= now && 0.0 <= t.random <= 1.0
    ensures var r := ScheduleBye(Standard(), s, c, size, now, random);
            Fires(r, t) && !Step(Standard(), r, t).byescheduled
  {
    ScheduledBye(s, c, size, now, random);
    AnswersYes(ScheduleBye(Standard(), s, c, size, now, random), t);
  }

  function ByesIn(ticks: seq<Tick>): nat {
    if ticks == [] then 0
    else ByesIn(ticks[..|ticks| - 1]) + if ticks[|ticks| - 1].Receive? && ticks[|ticks| - 1].isbye then 1 else 0
  }

  // During the back-off the members counted are the session itself and one for
  // each BYE that arrives.
  lemma {:induction false} BackOffCountsByes(s: Sched, ticks: seq<Tick>)
    requires s.byescheduled && forall i :: 0 <= i < |ticks| ==> !ticks[i].IsTime?
    ensures var r := Run(Standard(), s, ticks); r.byescheduled && r.byemembers == s.byemembers + ByesIn(ticks)
  {
    hide Step;
    if ticks != [] {
      BackOffCountsByes(s, ticks[..|ticks| - 1]);
      BackOffStep(Run(Standard(), s, ticks[..|ticks| - 1]), ticks[|ticks| - 1]);
    }
  }

  lemma BackOffStep(s: Sched, t: Tick)
    requires s.byescheduled && !t.IsTime?
    ensures var r := Step(Standard(), s, t);
            r.byescheduled && r.byemembers == s.byemembers + if t.Receive? && t.isbye then 1 else 0
  {
    hide Interval, ByeInterval, Share;
  }

  // ---- The average packet size ----

  // The sizes that enter the average: RTCP packets received and sent, but no BYE.
  predicate SizesBetween(s: Sched, ticks: seq<Tick>, low: nat, high: nat) {
    forall i :: 0 <= i < |ticks| ==>
      (ticks[i].Receive? || ticks[i].Sent?) && !ticks[i].isbye ==> low <= ticks[i].size + s.headeroverhead <= high
  }

  lemma {:induction false} AverageStaysBetween(s: Sched, ticks: seq<Tick>, low: nat, high: nat)
    requires low <= s.avgrtcppacksize <= high && SizesBetween(s, ticks, low, high)
    ensures var r := Run(Standard(), s, ticks);
            low <= r.avgrtcppacksize <= high && r.headeroverhead == s.headeroverhead
  {
    if ticks != [] {
      var front := ticks[..|ticks| - 1];
      AverageStaysBetween(s, front, low, high);
      AverageStep(Run(Standard(), s, front), ticks[|ticks| - 1], low, high);
    }
  }

  lemma AverageStep(s: Sched, t: Tick, low: nat, high: nat)
    requires low <= s.avgrtcppacksize <= high
    requires (t.Receive? || t.Sent?) && !t.isbye ==> low <= t.size + s.headeroverhead <= high
    ensures var r := Step(Standard(), s, t); low <= r.avgrtcppacksize <= high && r.headeroverhead == s.headeroverhead
  {
    hide Interval, ByeInterval, Share;
  }

  function Power(base: nat, n: nat): nat {
    if n == 0 then 1 else base * Power(base, n - 1)
  }

  // These are RTCP packets of one size, headers included, none of them a BYE.
  predicate SameSize(s: Sched, ticks: seq<Tick>, size: nat) {
    forall i :: 0 <= i < |ticks| ==>
      (ticks[i].Receive? || ticks[i].Sent?) && !ticks[i].isbye && ticks[i].size + s.headeroverhead == size
  }

  // A distance d has become e in n steps of a sixteenth of the way: it is (15/16)^n of
  // what it was, rounded up by at most 15.
  predicate Converges(d: int, e: int, n: nat) {
    Power(15, n) * d <= Power(16, n) * e <= Power(15, n) * d + 15 * Power(16, n)
  }

  lemma ConvergesAtOnce(d: int)
    ensures Converges(d, d, 0)
  {
  }

  lemma ConvergesOn(d: int, e: int, f: int, n: nat)
    requires Converges(d, e, n) && 15 * e <= 16 * f <= 15 * e + 15
    ensures Converges(d, f, n + 1)
  {
    OneMorePacket(d, e, f, Power(15, n), Power(16, n));
  }

  // Each packet takes the average a sixteenth of the way to its size.
  lemma {:induction false} AverageConverges(s: Sched, ticks: seq<Tick>, size: nat)
    requires SameSize(s, ticks, size)
    ensures var r := Run(Standard(), s, ticks);
            && r.headeroverhead == s.headeroverhead
            && Converges(size - s.avgrtcppacksize, size - r.avgrtcppacksize, |ticks|)
  {
    hide Converges, Step;
    if ticks == [] {
      ConvergesAtOnce(size - s.avgrtcppacksize);
    } else {
      var n := |ticks| - 1;
      var front, t := ticks[..n], ticks[n];
      AverageConverges(s, front, size);
      var b := Run(Standard(), s, front);
      AverageMoves(b, t, size);
      ConvergesOn(size - s.avgrtcppacksize, size - b.avgrtcppacksize,
        size - Step(Standard(), b, t).avgrtcppacksize, n);
    }
  }

  // During the back-off the average of the BYE packets does so, too.
  lemma {:induction false} ByeAverageConverges(s: Sched, ticks: seq<Tick>, size: nat)
    requires s.byescheduled
    requires forall i :: 0 <= i < |ticks| ==>
                           ticks[i].Receive? && ticks[i].isbye && ticks[i].size + s.headeroverhead == size
    ensures var r := Run(Standard(), s, ticks);
            && r.byescheduled && r.headeroverhead == s.headeroverhead && r.avgrtcppacksize == s.avgrtcppacksize
            && Converges(size - s.avgbyepacketsize, size - r.avgbyepacketsize, |ticks|)
  {
    hide Converges, Step;
    if ticks == [] {
      ConvergesAtOnce(size - s.avgbyepacketsize);
    } else {
      var n := |ticks| - 1;
      var front, t := ticks[..n], ticks[n];
      ByeAverageConverges(s, front, size);
      var b := Run(Standard(), s, front);
      ByeAverageMoves(b, t, size);
      ConvergesOn(size - s.avgbyepacketsize, size - b.avgbyepacketsize,
        size - Step(Standard(), b, t).avgbyepacketsize, n);
    }
  }

  lemma ByeAverageMoves(s: Sched, t: Tick, size: nat)
    requires s.byescheduled && t.Receive? && t.isbye && t.size + s.headeroverhead == size
    ensures var r := Step(Standard(), s, t);
            && r.byescheduled && r.headeroverhead == s.headeroverhead && r.avgrtcppacksize == s.avgrtcppacksize
            && 15 * (size - s.avgbyepacketsize) <= 16 * (size - r.avgbyepacketsize)
            && 16 * (size - r.avgbyepacketsize) <= 15 * (size - s.avgbyepacketsize) + 15
  {
    hide Interval, ByeInterval, Share;
  }

  lemma AverageMoves(s: Sched, t: Tick, size: nat)
    requires (t.Receive? || t.Sent?) && !t.isbye && t.size + s.headeroverhead == size
    ensures var r := Step(Standard(), s, t);
            && r.headeroverhead == s.headeroverhead
            && 15 * (size - s.avgrtcppacksize) <= 16 * (size - r.avgrtcppacksize)
            && 16 * (size - r.avgrtcppacksize) <= 15 * (size - s.avgrtcppacksize) + 15
  {
    hide Interval, ByeInterval, Share;
  }

  lemma OneMorePacket(d: int, e: int, f: int, p: nat, q: nat)
    requires p * d <= q * e <= p * d + 15 * q && 15 * e <= 16 * f <= 15 * e + 15
    ensures 15 * p * d <= 16 * q * f <= 15 * p * d + 15 * (16 * q)
  {
    var r := 16 * f - 15 * e;
    assert 16 * q * f == 15 * (q * e) + r * q;
    assert 0 <= r * q <= 15 * q;
    assert 15 * p * d == 15 * (p * d);
  }

  // ---- Members that go ----

  // The count that a later one is compared with is that of the last time the timer
  // was started or reconsidered, forward or backward; a call that comes before the
  // timer expires leaves it.
  lemma CountCompared(s: Sched, t: Tick)
    ensures var r := Step(Standard(), s, t);
            var starts := s.firstcall && (t.IsTime? || t.GetDelay? || (t.ScheduleBYE? && !s.byescheduled));
            var expired := t.IsTime? && s.nextrtcptime <= t.now;
            var falls := t.Decrease? && !s.firstcall && t.members < s.pmembers;
            r.pmembers == if starts || expired then t.census.active else if falls then t.members else s.pmembers
  {
    hide Interval, ByeInterval, Share;
  }

  // Reverse reconsideration keeps the time left and the time gone by in proportion
  // to the number of members; a time that has passed becomes now.
  lemma ReverseIsProportional(s: Sched, members: int, now: real)
    requires s.pmembers > 0 && members < s.pmembers && !s.firstcall
    ensures var r, m, n := MemberDecrease(s, members, now), members as real, s.pmembers as real;
            && n * (r.nextrtcptime - now) == m * Max(s.nextrtcptime - now, 0.0)
            && n * (now - r.prevrtcptime) == m * Max(now - s.prevrtcptime, 0.0)
            && r.pmembers == members
  {
    ShareBack(members, s.pmembers, Max(s.nextrtcptime - now, 0.0));
    ShareBack(members, s.pmembers, Max(now - s.prevrtcptime, 0.0));
  }

  lemma ShareBack(m: int, n: int, d: real)
    requires n > 0
    ensures n as real * Share(m, n, d) == m as real * d
  {
    var q := m as real / n as real;
    assert q * n as real == m as real;
    assert n as real * (q * d) == (q * n as real) * d;
  }

  // Two decreases at one time do what the whole decrease does.
  lemma DecreasesCompose(s: Sched, some: int, fewer: int, now: real)
    requires 0 <= fewer < some < s.pmembers && !s.firstcall
    ensures MemberDecrease(MemberDecrease(s, some, now), fewer, now) == MemberDecrease(s, fewer, now)
  {
    hide Share;
    ShareTwice(some, fewer, s.pmembers, Max(s.nextrtcptime - now, 0.0));
    ShareTwice(some, fewer, s.pmembers, Max(now - s.prevrtcptime, 0.0));
  }

  lemma ShareTwice(some: int, fewer: int, n: int, d: real)
    requires 0 <= fewer < some < n && d >= 0.0
    ensures Share(some, n, d) >= 0.0 && Share(fewer, some, Share(some, n, d)) == Share(fewer, n, d)
  {
    var x, y := Share(some, n, d), Share(fewer, n, d);
    ShareBack(some, n, d);
    ShareBack(fewer, n, d);
    ShareBack(fewer, some, x);
    ShareSign(some, n, d);
    var z := Share(fewer, some, x);
    assert some as real * n as real * z == fewer as real * (n as real * x) by {
      assert some as real * z == fewer as real * x;
      assert some as real * n as real * z == n as real * (some as real * z);
    }
    assert some as real * n as real * y == fewer as real * (some as real * d) by {
      assert some as real * n as real * y == some as real * (n as real * y);
    }
    Cancel(some as real * n as real, z, y);
  }

  lemma ShareSign(m: int, n: int, d: real)
    requires 0 <= m && 0 < n && d >= 0.0
    ensures Share(m, n, d) >= 0.0
  {
    ProductSign(m as real / n as real, d);
  }

  lemma Cancel(a: real, x: real, y: real)
    requires a > 0.0 && a * x == a * y
    ensures x == y
  {
    assert x == a * x / a && y == a * y / a;
  }
}
