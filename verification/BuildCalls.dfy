// The calls of a builder: exactly when each is accepted, and that the finished
// packet carries exactly what the accepted calls have added.
module BuildCalls {
  import opened Types
  import opened RtcpPackets
  import opened SdesPacket
  import opened RtcpEncoding
  import opened RoundTrip
  import opened BuildModel

  // ---- When a call is accepted ----

  // The calls whose arguments are within their limits and for which there is
  // something to add to. Nothing here depends on sizes.
  predicate Permitted(b: Build, op: Op) {
    match op
    case StartReport(_) => b.sender.None?
    case AddBlock(_) => b.sender.Some?
    case AddSource(_) => true
    case AddItem(id, _) => b.chunks != [] && 1 <= id <= 7
    case AddPrivate(prefix, value) => b.chunks != [] && |prefix| + 1 + |value| <= 255
    case AddBye(bye) => |bye.ssrcs| <= 31
    case AddApp(app) => app.subtype <= 31 && |app.data| % 4 == 0 && |app.data| / 4 + 2 <= 65535
  }

  function ExtendLast(cs: seq<Chunk>, item: Item): seq<Chunk>
    requires cs != []
  {
    var i := |cs| - 1;
    cs[i := Chunk(cs[i].ssrc, cs[i].items + [item])]
  }

  // The build with what a call adds, whatever room there is.
  function Added(b: Build, op: Op): Build
    requires Permitted(b, op)
  {
    match op
    case StartReport(s) => b.(sender := Some(s))
    case AddBlock(block) => b.(blocks := b.blocks + [block])
    case AddSource(ssrc) => b.(chunks := b.chunks + [Chunk(ssrc, [])])
    case AddItem(id, data) => b.(chunks := ExtendLast(b.chunks, Item(id, data)))
    case AddPrivate(prefix, value) => b.(chunks := ExtendLast(b.chunks, Item(8, [|prefix|] + prefix + value)))
    case AddBye(bye) => b.(byes := b.byes + [bye])
    case AddApp(app) => b.(apps := b.apps + [app])
  }

  // There is room when the packet stays within its maximum. Two calls are looser:
  // the first source is taken to need nothing, and for a report on a packet that
  // has already outgrown its maximum the unsigned room wraps.
  predicate Room(b: Build, op: Op)
    requires Permitted(b, op)
  {
    if op.AddSource? && b.chunks == [] then Fits(b)
    else if op.StartReport? && !Fits(b) then true
    else Fits(Added(b, op))
  }

  // No build outgrows its maximum by more than a first source and a report.
  const OUTGROWN_BY := 40

  lemma ExtendIsWith(cs: seq<Chunk>, item: Item)
    requires cs != []
    ensures WithItem(cs, item) == ExtendLast(cs, item)
  {
  }

  lemma ItemAccepted(b: Build, item: Item)
    requires b.chunks != []
    ensures var added, r := b.(chunks := ExtendLast(b.chunks, item)), PutItem(b, item);
            if Fits(added) then r == Result(added, Ok) else r == Result(b, NotEnoughBytesLeft)
  {
    ExtendIsWith(b.chunks, item);
    ExtraItemExact(b.chunks, item);
  }

  lemma SourceAccepted(b: Build, ssrc: uint32)
    ensures var op := AddSource(ssrc);
            Apply(b, op) == if Room(b, op) then Result(Added(b, op), Ok) else Result(b, NotEnoughBytesLeft)
  {
    ExtraSourceExact(b.chunks, ssrc);
  }

  lemma ReportAccepted(b: Build, s: Sender)
    requires BuildOk(b) && b.sender.None? && 600 <= b.max < SIZE_MODULUS && Total(b) <= b.max + OUTGROWN_BY
    ensures var op := StartReport(s);
            Apply(b, op) == if Room(b, op) then Result(Added(b, op), Ok) else Result(b, NotEnoughBytesLeft)
  {
    var left := b.max - Total(b);
    assert SizeLeft(b) == left % SIZE_MODULUS;
    if left < 0 {
      assert left % SIZE_MODULUS == left + SIZE_MODULUS;
    } else {
      assert left % SIZE_MODULUS == left;
    }
  }

  lemma BlockAccepted(b: Build, block: ReportBlock)
    requires b.sender.Some?
    ensures var op := AddBlock(block);
            Apply(b, op) == if Room(b, op) then Result(Added(b, op), Ok) else Result(b, NotEnoughBytesLeft)
  {
    ExtraBlockExact(b.sender.value, |b.blocks|);
  }

  // The other refusals, each for its own reason.
  lemma RefusedBecause(b: Build, op: Op)
    requires OpOk(op)
    ensures var status := Apply(b, op).status;
            && (status == AlreadyGotReport <==> op.StartReport? && b.sender.Some?)
            && (status == ReportNotStarted <==> op.AddBlock? && b.sender.None?)
            && (status == NoCurrentSource <==> (op.AddItem? || op.AddPrivate?) && b.chunks == [])
            && (status == InvalidItemType <==> op.AddItem? && b.chunks != [] && !(1 <= op.id <= 7))
            && (status == TotalItemLengthTooBig <==>
                  op.AddPrivate? && b.chunks != [] && |op.prefix| + 1 + |op.value| > 255)
            && (status == TooManySsrcs <==> op.AddBye? && |op.bye.ssrcs| > 31)
            && (status == IllegalSubtype <==> op.AddApp? && op.app.subtype > 31)
            && (status == IllegalAppDataLength <==> op.AddApp? && op.app.subtype <= 31 && |op.app.data| % 4 != 0)
            && (status == AppDataLenTooBig <==>
                  op.AddApp? && op.app.subtype <= 31 && |op.app.data| % 4 == 0 && |op.app.data| / 4 + 2 > 65535)
  {
    hide Total, SizeLeft, ReportSize, SdesSizeWithExtraItem, SdesSizeWithExtraSource, AppSize, ByeSize, WithItem;
  }

  lemma LastAccepted(b: Build, op: Op, bye: Bye, app: App)
    requires Permitted(b, op) && (op == AddBye(bye) || op == AddApp(app))
    ensures Apply(b, op) == if Room(b, op) then Result(Added(b, op), Ok) else Result(b, NotEnoughBytesLeft)
  {
    LastAdds(b, bye, app);
  }

  // A permitted call is accepted if and only if there is room, and then adds just
  // what it says; every other call changes nothing. NotEnoughBytesLeft is only
  // ever the answer where there is no room.
  lemma CallAccepted(b: Build, op: Op)
    requires BuildOk(b) && OpOk(op) && 600 <= b.max < SIZE_MODULUS && Total(b) <= b.max + OUTGROWN_BY
    ensures var r := Apply(b, op);
            && (r.status == Ok <==> Permitted(b, op) && Room(b, op))
            && (r.status == NotEnoughBytesLeft <==> Permitted(b, op) && !Room(b, op))
            && r.build == if r.status == Ok then Added(b, op) else b
  {
    hide Fits, Total;
    RefusedBecause(b, op);
    match op
    case StartReport(s) =>
      if b.sender.None? {
        ReportAccepted(b, s);
      }
    case AddBlock(block) =>
      if b.sender.Some? {
        BlockAccepted(b, block);
      }
    case AddSource(ssrc) => SourceAccepted(b, ssrc);
    case AddItem(id, data) =>
      if Permitted(b, op) {
        ItemAccepted(b, Item(id, data));
      }
    case AddPrivate(prefix, value) =>
      if Permitted(b, op) {
        ItemAccepted(b, Item(PRIV, PrivateData(prefix, value)));
      }
    case AddBye(bye) =>
      if Permitted(b, op) {
        LastAccepted(b, op, bye, App(0, 0, [], []));
      }
    case AddApp(app) =>
      if Permitted(b, op) {
        LastAccepted(b, op, Bye([], []), app);
      }
  }

  lemma AddsAtMost(b: Build, op: Op)
    requires BuildOk(b) && Permitted(b, op)
    ensures op.StartReport? ==> Total(Added(b, op)) <= Total(b) + 28
    ensures op.AddSource? && b.chunks == [] ==> Total(Added(b, op)) == Total(b) + 12
  {
    if op.AddSource? {
      ExtraSourceExact(b.chunks, op.ssrc);
    }
  }

  // Until there is a report and a source, they are still to come.
  predicate Bounded(b: Build) {
    Total(b) <= b.max + (if b.chunks == [] then 0 else 12) + if b.sender.None? then 0 else 28
  }

  lemma CallBounded(b: Build, op: Op)
    requires BuildOk(b) && OpOk(op) && 600 <= b.max < SIZE_MODULUS && Bounded(b)
    ensures Bounded(Apply(b, op).build)
  {
    CallAccepted(b, op);
    if Apply(b, op).status == Ok {
      AddsAtMost(b, op);
    }
  }

  // Every build that calls can reach meets the conditions of CallAccepted.
  lemma {:induction false} RunBounded(max: nat, ops: seq<Op>)
    requires OpsOk(ops) && 600 <= max < SIZE_MODULUS
    ensures var b := Run(Start(max), ops); BuildOk(b) && b.max == max && Bounded(b)
  {
    RunKeeps(Start(max), ops);
    if ops != [] {
      var front := ops[..|ops| - 1];
      RunBounded(max, front);
      CallBounded(Run(Start(max), front), ops[|ops| - 1]);
    }
  }

  // A report on an outgrown packet is accepted: 616 bytes, at a maximum of 600.
  lemma LateReportRun()
    ensures var ops := [AddApp(LateApp()), AddSource(1), StartReport(ReceiverReport(1))];
            && OpsOk(ops) && Run(Start(600), ops).sender.Some? && Total(Run(Start(600), ops)) == 616
  {
    hide Apply, Total, Late;
    var one, two, three := AddApp(LateApp()), AddSource(1), StartReport(ReceiverReport(1));
    RunAppend(Start(600), [], one);
    RunAppend(Start(600), [one], two);
    RunAppend(Start(600), [one, two], three);
    assert [] + [one] == [one] && [one] + [two] == [one, two] && [one, two] + [three] == [one, two, three];
    assert OpOk([one, two, three][0]);
    LateCalls();
  }

  function LateApp(): App {
    App(0, 1, [0, 0, 0, 0], seq(584, i => 0))
  }

  function Late(n: nat): Build {
    Build(600, if n < 3 then None else Some(ReceiverReport(1)), [], if n < 2 then [] else [Chunk(1, [])],
          [LateApp()], [])
  }

  lemma LateCalls()
    ensures Apply(Start(600), AddApp(LateApp())).build == Late(1)
    ensures Apply(Late(1), AddSource(1)).build == Late(2)
    ensures Apply(Late(2), StartReport(ReceiverReport(1))).build == Late(3)
    ensures Late(3).sender.Some? && Total(Late(3)) == 616
  {
    assert [] + [LateApp()] == [LateApp()] && [LateApp()][..0] == [];
    ExtraSourceExact([], 1);
    assert [] + [Chunk(1, [])] == [Chunk(1, [])];
  }

  // ---- What a packet carries ----

  // The calls of a run that were accepted.
  function Accepted(b: Build, ops: seq<Op>): seq<Op> {
    if ops == [] then []
    else
      var front, last := ops[..|ops| - 1], ops[|ops| - 1];
      Accepted(b, front) + if Apply(Run(b, front), last).status == Ok then [last] else []
  }

  // What some calls add, in their order.
  function SenderIn(ops: seq<Op>): Option<Sender> {
    if ops == [] then None
    else if ops[|ops| - 1].StartReport? then Some(ops[|ops| - 1].sender)
    else SenderIn(ops[..|ops| - 1])
  }

  function BlocksIn(ops: seq<Op>): seq<ReportBlock> {
    if ops == [] then []
    else BlocksIn(ops[..|ops| - 1]) + if ops[|ops| - 1].AddBlock? then [ops[|ops| - 1].block] else []
  }

  function AppsIn(ops: seq<Op>): seq<App> {
    if ops == [] then []
    else AppsIn(ops[..|ops| - 1]) + if ops[|ops| - 1].AddApp? then [ops[|ops| - 1].app] else []
  }

  function ByesIn(ops: seq<Op>): seq<Bye> {
    if ops == [] then []
    else ByesIn(ops[..|ops| - 1]) + if ops[|ops| - 1].AddBye? then [ops[|ops| - 1].bye] else []
  }

  // Each source opens a chunk, and the items go to the chunk opened last.
  function ChunksIn(ops: seq<Op>): seq<Chunk> {
    if ops == [] then []
    else
      var cs := ChunksIn(ops[..|ops| - 1]);
      match ops[|ops| - 1]
      case AddSource(ssrc) => cs + [Chunk(ssrc, [])]
      case AddItem(id, data) => if cs != [] && 1 <= id <= 7 then ExtendLast(cs, Item(id, data)) else cs
      case AddPrivate(prefix, value) =>
        if cs != [] then ExtendLast(cs, Item(8, [|prefix|] + prefix + value)) else cs
      case _ => cs
  }

  // The build is what these calls add.
  predicate Carries(b: Build, ops: seq<Op>) {
    && b.sender == SenderIn(ops) && b.blocks == BlocksIn(ops) && b.chunks == ChunksIn(ops)
    && b.apps == AppsIn(ops) && b.byes == ByesIn(ops)
  }

  lemma CarriesNothing(max: nat)
    ensures Carries(Start(max), [])
  {
  }

  lemma CarriesMore(b: Build, ops: seq<Op>, op: Op)
    requires Carries(b, ops) && Permitted(b, op)
    ensures Carries(Added(b, op), ops + [op])
  {
    assert (ops + [op])[..|ops|] == ops;
  }

  lemma {:induction false} RunCarries(max: nat, ops: seq<Op>)
    requires OpsOk(ops) && 600 <= max < SIZE_MODULUS
    ensures Carries(Run(Start(max), ops), Accepted(Start(max), ops))
  {
    hide Apply, Carries, Permitted, Total, Room;
    CarriesNothing(max);
    if ops != [] {
      var front, last := ops[..|ops| - 1], ops[|ops| - 1];
      RunCarries(max, front);
      RunBounded(max, front);
      var b := Run(Start(max), front);
      CallAccepted(b, last);
      var a := Accepted(Start(max), front);
      if Apply(b, last).status == Ok {
        CarriesMore(b, a, last);
      } else {
        assert Accepted(Start(max), ops) == a;
      }
    }
  }

  // After any calls, reading the finished packet gives exactly what the accepted
  // calls have added, in their order.
  lemma AcceptedIsDelivered(max: nat, ops: seq<Op>)
    requires OpsOk(ops) && 600 <= max < SIZE_MODULUS && Run(Start(max), ops).sender.Some?
    ensures var b, a := Run(Start(max), ops), Accepted(Start(max), ops);
            && BuildOk(b)
            && var packets := Packets(ContentsOf(b));
               && SenderOfFirst(packets) == SenderIn(a)
               && ReadAll(packets) == Reading(Norms(BlocksIn(a)), ChunksIn(a), AppsIn(a), ByesIn(a))
  {
    RunCarries(max, ops);
    RunRoundTrip(max, ops);
  }

  // ---- The split into packets ----

  // 31 blocks or chunks go into each packet but the last.
  lemma {:induction false} ReportsSplitBy31(s: Sender, bs: seq<ReportBlock>)
    ensures |ReportPackets(s, bs)| == if bs == [] then 1 else (|bs| + 30) / 31
    decreases |bs|
  {
    if |bs| > 31 {
      ReportsSplitBy31(Later(s), bs[31..]);
    }
  }

  lemma {:induction false} ChunksSplitBy31(cs: seq<Chunk>)
    requires ChunksGood(cs)
    ensures |SdesPackets(cs)| == (|cs| + 30) / 31
    decreases |cs|
  {
    if |cs| > 31 {
      ChunksSplitBy31(cs[31..]);
    }
  }
}
