// The RTCP timer of rtcpscheduler.cpp: when compound packets may be sent
// (sections 6.3.1 to 6.3.7 of RFC 3550). Times and bandwidths are reals; every
// operation is given the clock readings and random numbers it uses.
module Scheduler {
  const BYE_PACKET := 203

  datatype Params = Params(
    bandwidth: real,
    senderfraction: real,
    mininterval: real,
    usehalfatstartup: bool,
    immediatebye: bool)
  {
    predicate Ok() {
      bandwidth > 0.0 && 0.0 < senderfraction < 1.0 && mininterval >= 1.0
    }
  }

  // The defaults of the library.
  type GoodParams = p: Params | p.Ok() witness Params(1000.0, 0.25, 5.0, true, true)

  // What the scheduler asks the source table.
  datatype Census = Census(active: int, senders: int, aresender: bool)

  datatype Sched = Sched(
    params: GoodParams,
    headeroverhead: nat,
    avgrtcppacksize: nat,
    hassentrtcp: bool,
    firstcall: bool,
    nextrtcptime: real,
    prevrtcptime: real,
    pmembers: int,
    byescheduled: bool,
    byemembers: nat,
    avgbyepacketsize: nat,
    sendbyenow: bool)

  function Max(a: real, b: real): real {
    if a > b then a else b
  }

  // The minimum interval, halved before the first RTCP packet if so configured.
  function MinInterval(s: Sched): real {
    if !s.hassentrtcp && s.params.usehalfatstartup then s.params.mininterval / 2.0 else s.params.mininterval
  }

  // The member count is taken as 1 when it is 0, to avoid dividing by it.
  function Members(c: Census): int {
    if c.active == 0 then 1 else c.active
  }

  // The time n packets of avg bytes take in a bandwidth.
  function Times(n: real, avg: real, bandwidth: real): real
    requires bandwidth > 0.0
  {
    n * (avg / bandwidth)
  }

  function SenderShare(params: GoodParams): (share: real)
    ensures share > 0.0
  {
    PositiveProduct(params.senderfraction, params.bandwidth);
    params.senderfraction * params.bandwidth
  }

  function ReceiverShare(params: GoodParams): (share: real)
    ensures share > 0.0
  {
    var rest, bandwidth := 1.0 - params.senderfraction, params.bandwidth;
    PositiveProduct(rest, bandwidth);
    rest * bandwidth
  }

  lemma PositiveProduct(a: real, b: real)
    requires a > 0.0 && b > 0.0
    ensures a * b > 0.0
  {
  }

  // The time an average packet from each member of the group takes in the
  // group's share of the bandwidth.
  function GroupTime(params: GoodParams, avg: real, members: real, senders: real, sender: bool): real
    requires members != 0.0
  {
    if senders / members <= params.senderfraction then
      if sender then Times(senders, avg, SenderShare(params)) else Times(members - senders, avg, ReceiverShare(params))
    else Times(members, avg, params.bandwidth)
  }

  function Deterministic(s: Sched, c: Census, sender: bool): real {
    Max(MinInterval(s), GroupTime(s.params, s.avgrtcppacksize as real, Members(c) as real, c.senders as real, sender))
  }

  function Interval(s: Sched, c: Census, random: real): real
  {
    Deterministic(s, c, c.aresender) * (random + 0.5) / 1.21828
  }

  function ByeInterval(s: Sched, random: real): real
  {
    if !s.byescheduled || s.sendbyenow then 0.0
    else
      var tmin := if s.params.usehalfatstartup then s.params.mininterval / 2.0 else s.params.mininterval;
      var ntimesC := Times(s.byemembers as real, s.avgbyepacketsize as real, ReceiverShare(s.params));
      Max(tmin, ntimesC) * (random + 0.5) / 1.21828
  }

  // The two random intervals. The timer itself is stated for any such rules.
  datatype Rules = Rules(normal: (Sched, Census, real) -> real, bye: (Sched, real) -> real)

  function Standard(): Rules {
    Rules((s: Sched, c: Census, random: real) => Interval(s, c, random),
        (s: Sched, random: real) => ByeInterval(s, random))
  }

  function Average(avg: nat, size: nat): nat {
    (size + 15 * avg) / 16
  }

  function Incoming(s: Sched, size: nat, isbye: bool): Sched {
    if !isbye then s.(avgrtcppacksize := Average(s.avgrtcppacksize, s.headeroverhead + size))
    else if s.byescheduled then
      s.(avgbyepacketsize := Average(s.avgbyepacketsize, s.headeroverhead + size), byemembers := s.byemembers + 1)
    else s
  }

  function Outgoing(s: Sched, size: nat, isbye: bool): Sched {
    s.(avgrtcppacksize := if isbye then s.avgrtcppacksize else Average(s.avgrtcppacksize, s.headeroverhead + size),
       hassentrtcp := true)
  }

  // The timer starts at the first call.
  function Start(rules: Rules, s: Sched, c: Census, now: real, later: real, random: real): Sched
  {
    var r := s.(firstcall := false, prevrtcptime := now, pmembers := c.active);
    r.(nextrtcptime := later + rules.normal(r, c, random))
  }

  datatype Answer = Answer(state: Sched, istime: bool)

  // Timer reconsideration: an expired timer is checked against a newly drawn
  // interval, counted from the last transmission.
  function IsTimeNow(rules: Rules, s: Sched, c: Census, now: real, later: real, random: real, random2: real): Answer
  {
    if s.firstcall then Answer(Start(rules, s, c, now, later, random), false)
    else if now < s.nextrtcptime then Answer(s, false)
    else
      var checktime := s.prevrtcptime + if s.byescheduled then rules.bye(s, random) else rules.normal(s, c, random);
      if checktime <= now then
        var r := s.(byescheduled := false, prevrtcptime := now, pmembers := c.active);
        Answer(r.(nextrtcptime := later + rules.normal(r, c, random2)), true)
      else Answer(s.(nextrtcptime := checktime, pmembers := c.active), false)
  }

  function Delay(rules: Rules, s: Sched, c: Census, now: real, later: real, random: real): Sched
  {
    if s.firstcall then Start(rules, s, c, now, later, random) else s
  }

  // The part of a time that is left when members go.
  function Share(members: int, pmembers: int, d: real): real
    requires pmembers != 0
  {
    members as real / pmembers as real * d
  }

  // Reverse reconsideration: both times move towards now in proportion to the
  // loss of members.
  function Reverse(s: Sched, members: int, now: real): Sched
    requires s.pmembers != 0
  {
    s.(nextrtcptime := now + Share(members, s.pmembers, Max(s.nextrtcptime - now, 0.0)),
       prevrtcptime := now - Share(members, s.pmembers, Max(now - s.prevrtcptime, 0.0)),
       pmembers := members)
  }

  function MemberDecrease(s: Sched, members: int, now: real): Sched {
    if members >= s.pmembers || s.firstcall then s
    else if s.pmembers == 0 then Reverse(s.(pmembers := 1), members, now)
    else Reverse(s, members, now)
  }

  function StartBye(s: Sched, c: Census, size: nat, now: real): Sched {
    s.(firstcall := false, pmembers := if s.firstcall then c.active else s.pmembers,
       byescheduled := true, avgbyepacketsize := size + s.headeroverhead, byemembers := 1,
       sendbyenow := s.params.immediatebye && c.active < 50, prevrtcptime := now)
  }

  function ScheduleBye(rules: Rules, s: Sched, c: Census, size: nat, now: real, random: real): Sched
  {
    if s.byescheduled then s
    else
      var r := StartBye(s, c, size, now);
      r.(nextrtcptime := now + rules.bye(r, random))
  }

  // ---- Intervals ----

  // Every drawn interval is at least half the minimum, over 1.21828.
  lemma IntervalBound(s: Sched, c: Census, random: real)
    requires 0.0 <= random <= 1.0
    ensures Interval(s, c, random) >= 0.5 * MinInterval(s) / 1.21828 > 0.0
  {
    ScaleUp(Deterministic(s, c, c.aresender), MinInterval(s), random + 0.5);
  }

  lemma ScaleUp(a: real, b: real, m: real)
    requires a >= b >= 0.0 && m >= 0.5
    ensures a * m >= 0.5 * b
  {
    assert a * m >= a * 0.5;
  }

  // ---- Runs ----

  datatype Tick =
    | IsTime(now: real, later: real, census: Census, random: real, random2: real)
    | GetDelay(now: real, later: real, census: Census, random: real)
    | Decrease(now: real, members: int)
    | ScheduleBYE(now: real, census: Census, size: nat, random: real)
    | Receive(now: real, size: nat, isbye: bool)
    | Sent(now: real, size: nat, isbye: bool)
  {
    // The last clock reading of the operation.
    function End(): real {
      if IsTime? || GetDelay? then later else now
    }

    // Random numbers lie in [0, 1] and the clock does not go back.
    predicate Ok(clock: real) {
      && clock <= now <= End()
      && (IsTime? || GetDelay? || ScheduleBYE? ==> 0.0 <= random <= 1.0)
      && (IsTime? ==> 0.0 <= random2 <= 1.0)
    }
  }

  function Step(rules: Rules, s: Sched, t: Tick): Sched
  {
    match t
    case IsTime(now, later, c, r, r2) => IsTimeNow(rules, s, c, now, later, r, r2).state
    case GetDelay(now, later, c, r) => Delay(rules, s, c, now, later, r)
    case Decrease(now, members) => MemberDecrease(s, members, now)
    case ScheduleBYE(now, c, size, r) => ScheduleBye(rules, s, c, size, now, r)
    case Receive(_, size, isbye) => Incoming(s, size, isbye)
    case Sent(_, size, isbye) => Outgoing(s, size, isbye)
  }

  function Run(rules: Rules, s: Sched, ticks: seq<Tick>): (r: Sched)
    ensures r.params == s.params
  {
    if ticks == [] then s else Step(rules, Run(rules, s, ticks[..|ticks| - 1]), ticks[|ticks| - 1])
  }

  predicate Ordered(clock: real, ticks: seq<Tick>) {
    ticks == [] || (Ordered(clock, ticks[..|ticks| - 1]) && ticks[|ticks| - 1].Ok(Clock(clock, ticks[..|ticks| - 1])))
  }

  function Clock(clock: real, ticks: seq<Tick>): real {
    if ticks == [] then clock else ticks[|ticks| - 1].End()
  }

  // Scaling the time since prev by a ratio keeps the result between prev and now
  // exactly for the ratios between 0 and 1.
  lemma ScaledStays(prev: real, now: real, ratio: real)
    requires prev < now
    ensures prev <= now - ratio * (now - prev) <= now <==> 0.0 <= ratio <= 1.0
  {
    var d := now - prev;
    var p := ratio * d;
    assert ratio == p / d;
    if ratio < 0.0 {
      NegativeProduct(ratio, d);
    } else if ratio > 1.0 {
      NegativeProduct(1.0 - ratio, d);
      assert (1.0 - ratio) * d == d - p;
    } else {
      ProductSign(ratio, d);
      ProductSign(1.0 - ratio, d);
      assert (1.0 - ratio) * d == d - p;
    }
  }

  lemma ProductSign(a: real, b: real)
    requires a >= 0.0 && b >= 0.0
    ensures a * b >= 0.0
  {
  }

  lemma NegativeProduct(a: real, b: real)
    requires a < 0.0 && b > 0.0
    ensures a * b < 0.0
  {
  }

  // The ratio of two different counts, the smaller to the larger one, is between
  // 0 and 1 exactly if the smaller one is not negative.
  lemma RatioRange(a: real, b: real)
    requires a < b && b != 0.0
    ensures 0.0 <= a / b <= 1.0 <==> a >= 0.0
  {
    var q := a / b;
    assert a == q * b;
    if a >= 0.0 {
      if q < 0.0 {
        NegativeProduct(q, b);
      } else if q > 1.0 {
        NegativeProduct(1.0 - q, b);
      }
    } else if b > 0.0 {
      if q >= 0.0 {
        ProductSign(q, b);
      }
    } else if q <= 1.0 {
      ProductSign(1.0 - q, -b);
    }
  }

  // What a caller of reverse reconsideration can see beforehand: the member count
  // is not negative, or nothing is done, or no time has passed.
  predicate Harmless(s: Sched, members: int, now: real) {
    members >= 0 || members >= s.pmembers || s.firstcall || s.prevrtcptime == now
  }

  // The new time of the last transmission, when something is done.
  lemma ReversedTime(s: Sched, members: int, now: real)
    requires s.prevrtcptime <= now && members < s.pmembers && !s.firstcall
    ensures var pm := if s.pmembers == 0 then 1 else s.pmembers;
            MemberDecrease(s, members, now).prevrtcptime == now - Share(members, pm, now - s.prevrtcptime)
  {
  }

  lemma ShareStays(prev: real, now: real, members: int, pm: int)
    requires prev <= now && members < pm && pm != 0
    ensures prev <= now - Share(members, pm, now - prev) <= now <==> members >= 0 || prev == now
  {
    var ratio := members as real / pm as real;
    if prev < now {
      ScaledStays(prev, now, ratio);
      RatioRange(members as real, pm as real);
    } else {
      assert ratio * (now - prev) == 0.0;
    }
  }

  // Reverse reconsideration neither takes the time of the last transmission back
  // nor lets it pass the clock, if and only if it is harmless in that sense.
  lemma ReverseKeepsClock(s: Sched, members: int, now: real)
    requires s.prevrtcptime <= now
    ensures s.prevrtcptime <= MemberDecrease(s, members, now).prevrtcptime <= now <==> Harmless(s, members, now)
  {
    hide Share, Reverse;
    if members < s.pmembers && !s.firstcall {
      ReversedTime(s, members, now);
      ShareStays(s.prevrtcptime, now, members, if s.pmembers == 0 then 1 else s.pmembers);
    }
  }

  predicate HarmlessTick(s: Sched, t: Tick) {
    t.Decrease? ==> Harmless(s, t.members, t.now)
  }

  predicate Forward(rules: Rules, s: Sched, t: Tick) {
    s.prevrtcptime <= Step(rules, s, t).prevrtcptime <= t.End()
  }

  lemma StepMovesForward(rules: Rules, s: Sched, t: Tick, clock: real)
    requires s.prevrtcptime <= clock && t.Ok(clock)
    ensures Forward(rules, s, t) <==> HarmlessTick(s, t)
    ensures s.hassentrtcp ==> Step(rules, s, t).hassentrtcp
  {
    if t.Decrease? {
      ReverseKeepsClock(s, t.members, t.now);
    }
  }

  predicate AllHarmless(rules: Rules, s: Sched, ticks: seq<Tick>) {
    ticks == [] ||
    var front, last := ticks[..|ticks| - 1], ticks[|ticks| - 1];
    AllHarmless(rules, s, front) && HarmlessTick(Run(rules, s, front), last)
  }

  predicate AllForward(rules: Rules, s: Sched, ticks: seq<Tick>) {
    ticks == [] ||
    var front, last := ticks[..|ticks| - 1], ticks[|ticks| - 1];
    AllForward(rules, s, front) && Forward(rules, Run(rules, s, front), last)
  }

  // Over any run: in no step does the time of the last transmission go back or
  // pass the clock, if and only if every reverse reconsideration is harmless.
  lemma {:induction false} PrevOverRuns(rules: Rules, s: Sched, clock: real, ticks: seq<Tick>)
    requires s.prevrtcptime <= clock && Ordered(clock, ticks)
    ensures AllForward(rules, s, ticks) <==> AllHarmless(rules, s, ticks)
    ensures AllHarmless(rules, s, ticks) ==> s.prevrtcptime <= Run(rules, s, ticks).prevrtcptime <= Clock(clock, ticks)
    ensures s.hassentrtcp ==> Run(rules, s, ticks).hassentrtcp
  {
    if ticks != [] {
      var front, last := ticks[..|ticks| - 1], ticks[|ticks| - 1];
      PrevOverRuns(rules, s, clock, front);
      SentStays(rules, Run(rules, s, front), last);
      if AllHarmless(rules, s, front) {
        StepMovesForward(rules, Run(rules, s, front), last, Clock(clock, front));
      }
    }
  }

  lemma SentStays(rules: Rules, s: Sched, t: Tick)
    ensures s.hassentrtcp ==> Step(rules, s, t).hassentrtcp
  {
  }

  // Member counts that are never negative are harmless.
  lemma {:induction false} CountsAreHarmless(rules: Rules, s: Sched, ticks: seq<Tick>)
    requires forall i :: 0 <= i < |ticks| ==> ticks[i].Decrease? ==> ticks[i].members >= 0
    ensures AllHarmless(rules, s, ticks)
  {
    if ticks != [] {
      CountsAreHarmless(rules, s, ticks[..|ticks| - 1]);
    }
  }

  // The state of a new scheduler with the default parameters.
  function Fresh(): Sched {
    Sched(Params(1000.0, 0.25, 5.0, true, true), 0, 1000, false, true, 0.0, 0.0, 0, false, 0, 0, false)
  }

  // The timer starts with two members, and four times one of them is uncounted.
  function LeavingTicks(): seq<Tick> {
    [IsTime(0.0, 0.0, Census(2, 0, false), 0.5, 0.5), Decrease(1.0, 1), Decrease(2.0, 0), Decrease(3.0, -1),
     Decrease(6.0, -2)]
  }

  lemma LeavingNext(n: nat)
    requires n < 5
    ensures Run(Standard(), Fresh(), LeavingTicks()[..0]) == Fresh()
    ensures Run(Standard(), Fresh(), LeavingTicks()[..n + 1]) ==
              Step(Standard(), Run(Standard(), Fresh(), LeavingTicks()[..n]), LeavingTicks()[n])
  {
    assert LeavingTicks()[..n + 1][..n] == LeavingTicks()[..n];
  }

  lemma Halved(s: Sched)
    requires s.pmembers == 2 && !s.firstcall && s.prevrtcptime == 0.0
    ensures var r := MemberDecrease(s, 1, 1.0); r.pmembers == 1 && !r.firstcall && r.prevrtcptime == 0.5
  {
    ReversedTime(s, 1, 1.0);
  }

  lemma Emptied(s: Sched)
    requires s.pmembers == 1 && !s.firstcall && s.prevrtcptime == 0.5
    ensures var r := MemberDecrease(s, 0, 2.0); r.pmembers == 0 && !r.firstcall && r.prevrtcptime == 2.0
  {
    ReversedTime(s, 0, 2.0);
  }

  lemma PassesTheClock(s: Sched)
    requires s.pmembers == 0 && !s.firstcall && s.prevrtcptime == 2.0
    ensures var r := MemberDecrease(s, -1, 3.0); r.pmembers == -1 && !r.firstcall && r.prevrtcptime == 4.0
  {
    ReversedTime(s, -1, 3.0);
  }

  lemma GoesBack(s: Sched)
    requires s.pmembers == -1 && !s.firstcall && s.prevrtcptime == 4.0
    ensures MemberDecrease(s, -2, 6.0).prevrtcptime == 2.0
  {
    ReversedTime(s, -2, 6.0);
  }

  // After the third decrease, at time 3, the time of the last transmission is 4:
  // past the clock. The fourth takes it back to 2.
  lemma NegativeCountsBreakTheClock()
    ensures Ordered(0.0, LeavingTicks())
    ensures Run(Standard(), Fresh(), LeavingTicks()[..4]).prevrtcptime == 4.0 > LeavingTicks()[3].now
    ensures Run(Standard(), Fresh(), LeavingTicks()).prevrtcptime == 2.0
  {
    var ticks := LeavingTicks();
    LeavingNext(0);
    LeavingNext(1);
    LeavingNext(2);
    LeavingNext(3);
    LeavingNext(4);
    assert ticks[..5] == ticks;
    Halved(Run(Standard(), Fresh(), ticks[..1]));
    Emptied(Run(Standard(), Fresh(), ticks[..2]));
    PassesTheClock(Run(Standard(), Fresh(), ticks[..3]));
    GoesBack(Run(Standard(), Fresh(), ticks[..4]));
    LeavingOrdered(5);
  }

  lemma {:induction false} LeavingOrdered(n: nat)
    requires n <= 5
    ensures Ordered(0.0, LeavingTicks()[..n])
  {
    var ticks := LeavingTicks();
    if n > 0 {
      LeavingOrdered(n - 1);
      assert ticks[..n][..n - 1] == ticks[..n - 1];
    }
  }

  predicate Fires(s: Sched, t: Tick) {
    t.IsTime? && IsTimeNow(Standard(), s, t.census, t.now, t.later, t.random, t.random2).istime
  }

  // Two transmissions are at least half a minimum interval, over 1.21828, apart:
  // whatever happens between a positive answer and a later one for which no BYE
  // is scheduled.
  lemma TransmissionsAreSpaced(s: Sched, first: Tick, ticks: seq<Tick>, second: Tick, clock: real)
    requires s.prevrtcptime <= clock && Ordered(clock, [first] + ticks + [second]) && Fires(s, first)
    requires AllHarmless(Standard(), Step(Standard(), s, first), ticks)
    requires var r := Run(Standard(), Step(Standard(), s, first), ticks); !r.byescheduled && Fires(r, second)
    ensures var r := Run(Standard(), Step(Standard(), s, first), ticks);
            && second.now - first.now >= 0.5 * MinInterval(r) / 1.21828
            && (r.hassentrtcp || !s.params.usehalfatstartup ==>
                  second.now - first.now >= 0.5 * s.params.mininterval / 1.21828)
  {
    var all := [first] + ticks + [second];
    assert all[..|all| - 1] == [first] + ticks;
    OrderedTail(clock, first, ticks);
    var r := Run(Standard(), Step(Standard(), s, first), ticks);
    PrevOverRuns(Standard(), Step(Standard(), s, first), first.End(), ticks);
    IntervalBound(r, second.census, second.random);
  }

  lemma {:induction false} OrderedTail(clock: real, first: Tick, ticks: seq<Tick>)
    requires Ordered(clock, [first] + ticks)
    ensures Ordered(first.End(), ticks) && Clock(clock, [first] + ticks) == Clock(first.End(), ticks)
    ensures first.Ok(clock)
  {
    var all := [first] + ticks;
    if ticks == [] {
      assert all[..|all| - 1] == [];
    } else {
      assert all[..|all| - 1] == [first] + ticks[..|ticks| - 1];
      OrderedTail(clock, first, ticks[..|ticks| - 1]);
    }
  }

  // Whatever the first call answered, a call at the same instant answers no.
  lemma RepeatedCallIsRefused(s: Sched, t: Tick, again: Tick)
    requires t.IsTime? && again.IsTime? && t.Ok(t.now) && again.now == t.later == t.now
    ensures !Fires(Step(Standard(), s, t), again)
  {
    IntervalBound(s.(firstcall := false, prevrtcptime := t.now, pmembers := t.census.active), t.census, t.random);
    IntervalBound(s.(byescheduled := false, prevrtcptime := t.now, pmembers := t.census.active), t.census, t.random2);
  }

  // Nothing is sent before the announced delay has passed.
  lemma DelayIsKept(s: Sched, c: Census, now: real, later: real, random: real, cur: real, t: Tick)
    requires t.IsTime? && cur <= t.now
    requires t.now < cur + Max(Delay(Standard(), s, c, now, later, random).nextrtcptime - cur, 0.0)
    ensures !Fires(Delay(Standard(), s, c, now, later, random), t)
  {
  }

  // ---- The RTCP bandwidth ----

  function CountSenders(members: seq<bool>): nat {
    if members == [] then 0 else CountSenders(members[1..]) + if members[0] then 1 else 0
  }

  // The rate of one member: an average packet per interval.
  function Rate(s: Sched, c: Census, sender: bool): real {
    s.avgrtcppacksize as real / Deterministic(s, c, sender)
  }

  function TotalRate(members: seq<bool>, senderrate: real, otherrate: real): real {
    if members == [] then 0.0
    else (if members[0] then senderrate else otherrate) + TotalRate(members[1..], senderrate, otherrate)
  }

  function Weighted(k: real, n: real, a: real, b: real): real {
    k * a + (n - k) * b
  }

  lemma {:induction false} TotalRateSplits(members: seq<bool>, a: real, b: real)
    ensures CountSenders(members) <= |members|
    ensures TotalRate(members, a, b) == Weighted(CountSenders(members) as real, |members| as real, a, b)
  {
    if members != [] {
      TotalRateSplits(members[1..], a, b);
    }
  }

  // n packets of avg bytes per interval of at least the time they take in bw.
  lemma RateBound(n: real, avg: real, bw: real, interval: real)
    requires n >= 0.0 && avg >= 0.0 && bw > 0.0 && interval > 0.0 && interval >= Times(n, avg, bw)
    ensures n * (avg / interval) <= bw
  {
    var q := avg / bw;
    assert avg == q * bw;
    assert n * (avg / interval) == (n * q) * bw / interval;
    assert (n * q) * bw <= interval * bw;
    DivideBoth((n * q) * bw, interval * bw, interval);
    assert interval * bw / interval == bw;
  }

  lemma DivideBoth(a: real, b: real, c: real)
    requires a <= b && c > 0.0
    ensures a / c <= b / c
  {
  }

  lemma SharesAddUp(params: GoodParams)
    ensures SenderShare(params) + ReceiverShare(params) == params.bandwidth
  {
  }

  // k senders and n - k others, with intervals of at least the group times, stay
  // within the bandwidth.
  lemma GroupsFit(params: GoodParams, k: real, n: real, avg: real, ds: real, dr: real)
    requires 0.0 <= k <= n && n > 0.0 && avg >= 0.0 && ds > 0.0 && dr > 0.0
    requires ds >= GroupTime(params, avg, n, k, true) && dr >= GroupTime(params, avg, n, k, false)
    requires k / n > params.senderfraction ==> ds == dr
    ensures Weighted(k, n, avg / ds, avg / dr) <= params.bandwidth
  {
    if k / n <= params.senderfraction {
      SharesAddUp(params);
      RateBound(k, avg, SenderShare(params), ds);
      RateBound(n - k, avg, ReceiverShare(params), dr);
    } else {
      RateBound(n, avg, params.bandwidth, ds);
    }
  }

  // If every sender uses the sender interval and every other member the
  // receiver interval, all together stay within the RTCP bandwidth.
  lemma AggregateRateWithinBandwidth(s: Sched, members: seq<bool>, aresender: bool)
    ensures var c := Census(|members|, CountSenders(members), aresender);
            TotalRate(members, Rate(s, c, true), Rate(s, c, false)) <= s.params.bandwidth
  {
    var c := Census(|members|, CountSenders(members), aresender);
    TotalRateSplits(members, Rate(s, c, true), Rate(s, c, false));
    if members != [] {
      GroupsFit(s.params, c.senders as real, c.active as real, s.avgrtcppacksize as real,
                Deterministic(s, c, true), Deterministic(s, c, false));
    }
  }

  // ---- The scheduler object ----

  class RTCPScheduler {
    const rules: Rules
    const schedparams: GoodParams
    var headeroverhead: nat
    var avgrtcppacksize: nat
    var hassentrtcp: bool
    var firstcall: bool
    var nextrtcptime: real
    var prevrtcptime: real
    var pmembers: int
    var byescheduled: bool
    var byemembers: nat
    var avgbyepacketsize: nat
    var sendbyenow: bool

    function State(): Sched
      reads this
    {
      Sched(schedparams, headeroverhead, avgrtcppacksize, hassentrtcp, firstcall, nextrtcptime, prevrtcptime,
            pmembers, byescheduled, byemembers, avgbyepacketsize, sendbyenow)
    }

    constructor (params: GoodParams)
      ensures rules == Standard()
      ensures var s := State();
              && s.params == params && s.prevrtcptime == 0.0 && s.nextrtcptime == 0.0 && s.avgrtcppacksize == 1000
              && s.firstcall && !s.hassentrtcp && !s.byescheduled && !s.sendbyenow && s.headeroverhead == 0
    {
      rules, schedparams := Standard(), params;
      headeroverhead, avgrtcppacksize, hassentrtcp, firstcall := 0, 1000, false, true;
      nextrtcptime, prevrtcptime, byescheduled, sendbyenow := 0.0, 0.0, false, false;
      pmembers, byemembers, avgbyepacketsize := 0, 0, 0;
    }

    // The search for a BYE among the packets of a compound packet.
    method HasBye(packettypes: seq<int>) returns (isbye: bool)
      ensures isbye == (BYE_PACKET in packettypes)
    {
      isbye := false;
      var i := 0;
      while !isbye && i < |packettypes|
        invariant i <= |packettypes| && isbye == (BYE_PACKET in packettypes[..i])
      {
        isbye := packettypes[i] == BYE_PACKET;
        i := i + 1;
      }
    }

    method AnalyseIncoming(packettypes: seq<int>, length: nat)
      modifies this
      ensures State() == Incoming(old(State()), length, BYE_PACKET in packettypes)
    {
      var isbye := HasBye(packettypes);
      if !isbye {
        avgrtcppacksize := Average(avgrtcppacksize, headeroverhead + length);
      } else if byescheduled {
        avgbyepacketsize := Average(avgbyepacketsize, headeroverhead + length);
        byemembers := byemembers + 1;
      }
    }

    method AnalyseOutgoing(packettypes: seq<int>, length: nat)
      modifies this
      ensures State() == Outgoing(old(State()), length, BYE_PACKET in packettypes)
    {
      var isbye := HasBye(packettypes);
      if !isbye {
        avgrtcppacksize := Average(avgrtcppacksize, headeroverhead + length);
      }
      hassentrtcp := true;
    }

    function CalculateTransmissionInterval(c: Census, random: real): real
      reads this
    {
      rules.normal(State(), c, random)
    }

    function CalculateBYETransmissionInterval(random: real): real
      reads this
    {
      rules.bye(State(), random)
    }

    method CalculateNextRTCPTime(c: Census, now: real, random: real)
      modifies this`nextrtcptime
      ensures nextrtcptime == now + rules.normal(old(State()), c, random)
    {
      var interval := CalculateTransmissionInterval(c, random);
      nextrtcptime := now + interval;
    }

    method GetTransmissionDelay(c: Census, now: real, later: real, random: real, curtime: real) returns (diff: real)
      modifies this
      ensures State() == Delay(rules, old(State()), c, now, later, random)
      ensures diff == Max(nextrtcptime - curtime, 0.0)
    {
      if firstcall {
        firstcall := false;
        prevrtcptime := now;
        pmembers := c.active;
        CalculateNextRTCPTime(c, later, random);
      }
      if curtime > nextrtcptime {
        return 0.0;
      }
      diff := nextrtcptime;
      diff := diff - curtime;
    }

    method IsTime(c: Census, currenttime: real, later: real, random: real, random2: real) returns (istime: bool)
      modifies this
      ensures var a := IsTimeNow(rules, old(State()), c, currenttime, later, random, random2);
              State() == a.state && istime == a.istime
    {
      if firstcall {
        firstcall := false;
        prevrtcptime := currenttime;
        pmembers := c.active;
        CalculateNextRTCPTime(c, later, random);
        return false;
      }
      if currenttime < nextrtcptime {
        return false;
      }
      var checktime := 0.0;
      if !byescheduled {
        checktime := CalculateTransmissionInterval(c, random);
      } else {
        checktime := CalculateBYETransmissionInterval(random);
      }
      checktime := checktime + prevrtcptime;
      if checktime <= currenttime {
        byescheduled := false;
        prevrtcptime := currenttime;
        pmembers := c.active;
        CalculateNextRTCPTime(c, later, random2);
        return true;
      }
      nextrtcptime := checktime;
      pmembers := c.active;
      return false;
    }

    method PerformReverseReconsideration(members: int, tc: real)
      requires members < pmembers
      modifies this`nextrtcptime, this`prevrtcptime, this`pmembers
      ensures State() == MemberDecrease(old(State()), members, tc)
    {
      hide Share;
      if firstcall {
        return;
      }
      var tn_min_tc := nextrtcptime;
      tn_min_tc := if tn_min_tc > tc then tn_min_tc - tc else 0.0;
      var tc_min_tp := tc;
      tc_min_tp := if tc_min_tp > prevrtcptime then tc_min_tp - prevrtcptime else 0.0;
      if pmembers == 0 {
        pmembers := pmembers + 1;
      }
      var diff1 := Share(members, pmembers, tn_min_tc);
      var diff2 := Share(members, pmembers, tc_min_tp);
      nextrtcptime := tc;
      prevrtcptime := tc;
      nextrtcptime := nextrtcptime + diff1;
      prevrtcptime := prevrtcptime - diff2;
      pmembers := members;
    }

    method ActiveMemberDecrease(members: int, now: real)
      modifies this`nextrtcptime, this`prevrtcptime, this`pmembers
      ensures State() == MemberDecrease(old(State()), members, now)
    {
      if members < pmembers {
        PerformReverseReconsideration(members, now);
      }
    }

    method ScheduleBYEPacket(c: Census, packetsize: nat, now: real, random: real)
      modifies this
      ensures State() == ScheduleBye(rules, old(State()), c, packetsize, now, random)
    {
      if byescheduled {
        return;
      }
      StartBYEBackOff(c, packetsize, now);
      var interval := CalculateBYETransmissionInterval(random);
      nextrtcptime := prevrtcptime + interval;
    }

    method StartBYEBackOff(c: Census, packetsize: nat, now: real)
      modifies this
      ensures State() == StartBye(old(State()), c, packetsize, now)
    {
      if firstcall {
        firstcall := false;
        pmembers := c.active;
      }
      byescheduled := true;
      avgbyepacketsize := packetsize + headeroverhead;
      byemembers := 1;
      if schedparams.immediatebye && c.active < 50 {
        sendbyenow := true;
      } else {
        sendbyenow := false;
      }
      prevrtcptime := now;
    }
  }
}
