/**
 The single-producer handle against the multi-producer one: which sequences of batches each
 can reserve, and that states that have reserved the same batches have them at the same
 byte indices.
 */
module SdmaRefinement {
  import opened SdmaPackets
  import opened SdmaRing
  import opened SdmaQueue
  import opened SdmaQueueRuns
  import opened SdmaCompletion
  import opened SdmaSingleProducer

  /** The batches of the multi-producer log, in reservation order. */
  function OpsOf(log: seq<Entry>): (ops: seq<Op>)
    ensures |ops| == |log| && forall j :: 0 <= j < |log| ==> ops[j] == log[j].op
  {
    seq(|log|, j requires 0 <= j < |log| => log[j].op)
  }

  lemma {:induction false} MpLayout(c: Config, rs: seq<Region>, log: seq<Entry>, n: nat)
    requires ValidConfig(c) && Granted(c, rs, log) && Chained(c, rs) && Shaped(c, rs) && n <= |rs|
    ensures Boundary(c, rs, n) == LayoutEnd(c, c.start, OpsOf(log)[..n])
  {
    hide Pad; hide Size; hide ValidOp; hide Encodable; hide Grant;
    if n > 0 {
      MpLayout(c, rs, log, n - 1);
      var ops := OpsOf(log)[..n];
      assert ops[..|ops| - 1] == OpsOf(log)[..n - 1] && ops[|ops| - 1] == log[n - 1].op;
      assert rs[n - 1].base == Boundary(c, rs, n - 1);
      PadFacts(c, rs[n - 1].base, log[n - 1].op);
    }
  }

  lemma {:induction false} BatchesSnoc(log: seq<Entry>, e: Entry)
    ensures Batches(log + [e]) == Batches(log) + e.op.packets
  {
    if log == [] {
      assert (log + [e])[1..] == [];
    } else {
      assert (log + [e])[1..] == log[1..] + [e];
      BatchesSnoc(log[1..], e);
    }
  }

  lemma {:induction false} BatchesAre(log: seq<Entry>)
    ensures Batches(log) == AllPacketsOf(OpsOf(log))
  {
    if log != [] {
      var front, e := log[..|log| - 1], log[|log| - 1];
      assert log == front + [e];
      BatchesSnoc(front, e);
      BatchesAre(front);
      assert OpsOf(log)[..|log| - 1] == OpsOf(front);
    }
  }

  // ---------------------------------------------------------------- runs

  lemma ReachStep(c: Config, s: State, e: Event)
    requires Reachable(c, s) && Enabled(c, s, e)
    ensures Reachable(c, Step(c, s, e))
  {
    hide Step; hide Enabled; hide Init;
    var ss: seq<State>, es: seq<Event> :| IsRun(c, ss, es) && ss[|es|] == s;
    var n := Step(c, s, e);
    assert IsRun(c, ss + [n], es + [e]) && (ss + [n])[|es + [e]|] == n;
  }

  lemma {:induction false} ReachLeads(c: Config, s: State, es: seq<Event>, n: State)
    requires Reachable(c, s) && Leads(c, s, es, n)
    ensures Reachable(c, n) && |n.threads| == |s.threads|
    decreases |es|
  {
    hide Reachable; hide Enabled;
    if es != [] {
      ReachStep(c, s, es[0]);
      SameThreads(c, s, es[0]);
      hide Step;
      ReachLeads(c, Step(c, s, es[0]), es[1..], n);
    }
  }

  lemma SameThreads(c: Config, s: State, e: Event)
    requires Enabled(c, s, e)
    ensures |Step(c, s, e).threads| == |s.threads|
  {
    hide RunThread; hide Execute; hide CanRun;
  }

  // ---------------------------------------------------------------- what the multi-producer queue admits

  /** Every batch and its padding, where the layout puts it, take less than a ring. */
  predicate Admissible(c: Config, ops: seq<Op>)
    requires ValidConfig(c)
  {
    forall j :: 0 <= j < |ops| ==> RoomyAt(c, ops, j)
  }

  predicate RoomyAt(c: Config, ops: seq<Op>, j: nat)
    requires ValidConfig(c) && j < |ops|
  {
    Roomy(c, LayoutEnd(c, c.start, ops[..j]), ops[j])
  }

  predicate Roomy(c: Config, at: nat, op: Op)
    requires ValidConfig(c)
  {
    Pad(c, at, Bytes(op.packets)) + Bytes(op.packets) < c.ringBytes
  }

  lemma MultiAdmits(c: Config, m: State)
    requires Reachable(c, m)
    ensures ValidConfig(c) && Admissible(c, OpsOf(m.g.log))
  {
    hide Reachable; hide Pad; hide Size; hide ValidOp; hide Intact; hide Before; hide IndexOf; hide ThreadsOk;
    hide Grant;
    hide LayoutEnd;
    ReachableInv(c, m);
    var rs, ops := m.g.ring.regions, OpsOf(m.g.log);
    forall j | 0 <= j < |ops|
      ensures RoomyAt(c, ops, j)
    {
      MpLayout(c, rs, m.g.log, j);
      assert rs[j].base == Boundary(c, rs, j);
      PadFacts(c, rs[j].base, ops[j]);
    }
  }

  lemma LimitIsLayout(c: Config, m: State)
    requires QueueInv(c, m)
    ensures ValidConfig(c) && m.g.ring.limit == LayoutEnd(c, c.start, OpsOf(m.g.log))
  {
    hide Pad; hide Size; hide ValidOp; hide Intact; hide Before; hide IndexOf; hide ThreadsOk; hide Grant;
    hide LayoutEnd;
    var ops := OpsOf(m.g.log);
    MpLayout(c, m.g.ring.regions, m.g.log, |ops|);
    assert ops[..|ops|] == ops;
  }

  /** One thread at rest, everything reserved committed. */
  predicate AtEase(m: State) {
    |m.threads| == 1 && m.threads[0].pc == Idle && m.g.committed == |m.g.log|
  }

  lemma EngineDrains(c: Config, m: State) returns (n: State)
    requires Reachable(c, m) && AtEase(m)
    ensures Reachable(c, n) && AtEase(n) && n.g.log == m.g.log && n.g.ring.rptr == n.g.ring.limit == m.g.ring.limit
    decreases if m.g.ring.rptr < m.g.ring.limit then m.g.ring.limit - m.g.ring.rptr else 0
  {
    hide Reachable; hide QueueInv; hide Enabled; hide Step;
    ReachableInv(c, m);
    AllPublished(c, m);
    if m.g.ring.rptr == m.g.ring.limit {
      n := m;
    } else {
      EngineEnabled(c, m);
      HelperEngine(c, m);
      ReachStep(c, m, Engine);
      EngineKeeps(c, m);
      n := EngineDrains(c, Step(c, m, Engine));
    }
  }

  lemma EngineKeeps(c: Config, m: State)
    requires Enabled(c, m, Engine)
    ensures var n := Step(c, m, Engine); n.threads == m.threads && n.g.log == m.g.log && n.g.committed == m.g.committed
  {
    hide Execute; hide Decode; hide Window;
  }

  lemma AllPublished(c: Config, m: State)
    requires QueueInv(c, m) && AtEase(m)
    ensures m.g.ring.rptr <= m.g.ring.wptr == m.g.ring.limit
  {
    hide Intact; hide Granted; hide ThreadsOk; hide Size; hide Before; hide IndexOf;
    PointersOrdered(c, m.g.ring);
  }

  /** From rest, one thread reserves a batch that is roomy where the layout puts it. */
  lemma MultiReserves(c: Config, m: State, op: Op) returns (n: State)
    requires Reachable(c, m) && AtEase(m) && ValidConfig(c) && ValidOp(c, op)
    requires Roomy(c, LayoutEnd(c, c.start, OpsOf(m.g.log)), op)
    requires NewIndex(c, LayoutEnd(c, c.start, OpsOf(m.g.log)), op) < 0x1_0000_0000_0000_0000
    ensures Reachable(c, n) && |n.threads| == 1 && n.g.log == m.g.log + [Entry(0, op)]
    ensures n.threads[0].pc.Place? && HeldTicket(n.threads[0].pc) == Some(|m.g.log|) && n.g.committed == |m.g.log|
  {
    hide Reachable; hide QueueInv; hide Fits; hide NewIndex; hide ValidOp; hide LayoutEnd; hide OpsOf;
    hide Leads; hide Pad;
    var d := EngineDrains(c, m);
    ReachableInv(c, d);
    LimitIsLayout(c, d);
    GrantedWhenDrained(c, d, op);
    var b := Step(c, d, Begin(0, op));
    ReachStep(c, d, Begin(0, op));
    ReachableInv(c, b);
    var es, r := AloneReserves(c, b, 0, op);
    ReachLeads(c, b, es, r);
    n := r;
  }

  /** For every admissible sequence of batches a one-thread run of the queue reserves and commits it. */
  lemma {:induction false} MultiFollows(c: Config, ops: seq<Op>, buf: seq<U32>, mem: Memory) returns (m: State)
    requires ValidConfig(c) && |buf| == c.ringBytes / 4 && Submitted(c, ops) && Admissible(c, ops)
    ensures Reachable(c, m) && AtEase(m) && OpsOf(m.g.log) == ops
    decreases |ops|
  {
    hide Submitted; hide Admissible; hide LayoutEnd; hide QueueInv; hide Leads; hide ValidOp;
    if ops == [] {
      m := State(Shared(Empty(c, buf, mem), c.start, c.start, [], 0, 0), [Thread(Idle, 0, 0, None)]);
      var none: seq<Event> := [];
      assert IsRun(c, [m], none) && [m][|none|] == m;
    } else {
      hide Reachable;
      var front, op := ops[..|ops| - 1], ops[|ops| - 1];
      FrontToo(c, ops);
      var b := MultiFollows(c, front, buf, mem);
      var r := MultiReserves(c, b, op);
      ReachableInv(c, r);
      var es, n := HolderSubmits(c, r, 0);
      ReachLeads(c, r, es, n);
      m := n;
      assert OpsOf(m.g.log) == ops by { assert ops == front + [op]; }
    }
  }

  lemma FrontToo(c: Config, ops: seq<Op>)
    requires ValidConfig(c) && Submitted(c, ops) && Admissible(c, ops) && ops != []
    ensures var front, op := ops[..|ops| - 1], ops[|ops| - 1];
            && Submitted(c, front) && Admissible(c, front) && ValidOp(c, op)
            && Roomy(c, LayoutEnd(c, c.start, front), op)
            && NewIndex(c, LayoutEnd(c, c.start, front), op) < 0x1_0000_0000_0000_0000
  {
    hide LayoutEnd; hide ValidOp; hide NewIndex; hide Roomy; hide Size;
    SubmittedFront(c, ops);
    var front, last := ops[..|ops| - 1], |ops| - 1;
    assert RoomyAt(c, ops, last);
    forall j | 0 <= j < |front|
      ensures RoomyAt(c, front, j)
    {
      assert RoomyAt(c, ops, j) && front[..j] == ops[..j] && front[j] == ops[j];
    }
  }

  // ---------------------------------------------------------------- what the single producer admits

  /** From rest, the single producer reserves any batch smaller than the ring. */
  lemma SingleSubmits(c: Config, s: SpState, op: Op) returns (n: SpState)
    requires SpReachable(c, s) && s.pc.Resting? && ValidConfig(c) && ValidOp(c, op) && Bytes(op.packets) < c.ringBytes
    requires NewIndex(c, LayoutEnd(c, c.start, s.ops), op) < 0x1_0000_0000_0000_0000
    ensures SpReachable(c, n) && n.pc.Resting? && n.ops == s.ops + [op]
  {
    hide SpReachable; hide ValidOp; hide Size; hide NewIndex; hide LayoutEnd;
    SpReachableInv(c, s);
    assert SpEnabled(c, s, SpBegin(op)) by { SpBufferSize(c, s); }
    SpReachStep(c, s, SpBegin(op));
    n := SpFinishes(c, SpStep(c, s, SpBegin(op)));
  }

  lemma SpBufferSize(c: Config, s: SpState)
    requires SpInv(c, s)
    ensures |s.ring.buf| == c.ringBytes / 4
  {
    hide Laid; hide SpPcOk; hide Submitted; hide AllClear; hide Intact; hide Before; hide IndexOf; hide Size;
  }

  lemma {:induction false} SingleFollows(c: Config, ops: seq<Op>, buf: seq<U32>, mem: Memory) returns (s: SpState)
    requires ValidConfig(c) && |buf| == c.ringBytes / 4 && Submitted(c, ops)
    ensures SpReachable(c, s) && s.pc.Resting? && s.ops == ops
    decreases |ops|
  {
    hide ValidOp; hide Size; hide SpStep; hide SpEnabled;
    if ops == [] {
      s := SpState(Empty(c, buf, mem), c.start, Resting, [], [], 0);
      var none: seq<SpEvent> := [];
      assert SpIsRun(c, [s], none) && [s][|none|] == s;
    } else {
      hide SpReachable;
      var front, op := ops[..|ops| - 1], ops[|ops| - 1];
      SubmittedFront(c, ops);
      hide Submitted;
      var b := SingleFollows(c, front, buf, mem);
      s := SingleSubmits(c, b, op);
      assert ops == front + [op];
    }
  }

  lemma SubmittedFront(c: Config, ops: seq<Op>)
    requires ValidConfig(c) && Submitted(c, ops) && ops != []
    ensures var front, op := ops[..|ops| - 1], ops[|ops| - 1];
            && Submitted(c, front) && ValidOp(c, op) && Bytes(op.packets) < c.ringBytes
            && NewIndex(c, LayoutEnd(c, c.start, front), op) < 0x1_0000_0000_0000_0000
  {
    var front, last := ops[..|ops| - 1], |ops| - 1;
    assert ops[..last + 1] == ops && LayoutEnd(c, c.start, ops) == NewIndex(c, LayoutEnd(c, c.start, front), ops[last]);
    hide LayoutEnd; hide ValidOp; hide NewIndex; hide Size;
    assert SubmittedAt(c, ops, last);
    forall j | 0 <= j < |front|
      ensures SubmittedAt(c, front, j)
    {
      assert SubmittedAt(c, ops, j) && front[..j + 1] == ops[..j + 1] && front[j] == ops[j];
    }
  }

  /** The sequences of batches some run of the single-producer handle reserves, and of the other with one thread. */
  ghost predicate SingleReserves(c: Config, ops: seq<Op>) {
    exists s: SpState :: SpReachable(c, s) && s.ops == ops
  }

  ghost predicate MultiReservesAll(c: Config, ops: seq<Op>) {
    exists m: State :: Reachable(c, m) && |m.threads| == 1 && OpsOf(m.g.log) == ops
  }

  /** The single-producer handle reserves exactly the sequences of batches smaller than the ring. */
  lemma SingleIff(c: Config, ops: seq<Op>)
    requires ValidConfig(c)
    ensures SingleReserves(c, ops) <==> Submitted(c, ops)
  {
    hide SpReachable; hide Submitted;
    if SingleReserves(c, ops) {
      var s: SpState :| SpReachable(c, s) && s.ops == ops;
      SpReachableInv(c, s);
    }
    if Submitted(c, ops) {
      var s := SingleFollows(c, ops, Zeros(c.ringBytes / 4), map[]);
    }
  }

  /**
   What the single-producer handle reserves, the multi-producer one with one thread can
   reserve exactly when every batch and its padding take less than a ring.
   */
  lemma MultiIff(c: Config, s: SpState)
    requires SpReachable(c, s)
    ensures ValidConfig(c) && (MultiReservesAll(c, s.ops) <==> Admissible(c, s.ops))
  {
    hide SpReachable; hide Reachable; hide Admissible; hide OpsOf;
    SpReachableInv(c, s);
    SpBufferSize(c, s);
    if MultiReservesAll(c, s.ops) {
      var m: State :| Reachable(c, m) && |m.threads| == 1 && OpsOf(m.g.log) == s.ops;
      MultiAdmits(c, m);
    }
    if Admissible(c, s.ops) {
      var m := MultiFollows(c, s.ops, s.ring.buf, s.ring.mem);
    }
  }

  // ---------------------------------------------------------------- the matching run

  /** Two states, one of each handle, show an observer the same batches at the same places. */
  ghost predicate Matches(c: Config, s: SpState, m: State)
    requires SpInv(c, s) && QueueInv(c, m)
  {
    && OpsOf(m.g.log) == s.ops && |s.starts| == |m.g.ring.regions|
    && (forall j :: 0 <= j < |s.starts| ==>
          s.starts[j] == m.g.ring.regions[j].base + Pad(c, m.g.ring.regions[j].base, Bytes(s.ops[j].packets)))
    && Useful(Flatten(s.ring.regions)) == Useful(Flatten(m.g.ring.regions))
    && Useful(Flatten(s.ring.regions[..s.ring.published])) == Useful(Flatten(m.g.ring.regions[..m.g.ring.published]))
  }

  lemma SameLayout(c: Config, s: SpState, m: State)
    requires SpInv(c, s) && QueueInv(c, m) && OpsOf(m.g.log) == s.ops
    ensures |s.starts| == |m.g.ring.regions|
    ensures forall j :: 0 <= j < |s.starts| ==>
              s.starts[j] == m.g.ring.regions[j].base + Pad(c, m.g.ring.regions[j].base, Bytes(s.ops[j].packets))
    ensures Useful(Flatten(s.ring.regions)) == Useful(Flatten(m.g.ring.regions))
  {
    hide Intact; hide Size; hide ValidOp; hide Flatten; hide Useful; hide Pad; hide Before; hide IndexOf;
    hide ThreadsOk;
    hide Grant; hide Submitted; hide AllClear; hide SpPcOk;
    var rs := m.g.ring.regions;
    forall j | 0 <= j < |s.starts|
      ensures s.starts[j] == rs[j].base + Pad(c, rs[j].base, Bytes(s.ops[j].packets))
    {
      MpLayout(c, rs, m.g.log, j);
      assert rs[j].base == Boundary(c, rs, j);
    }
    UsefulRegions(c, rs, m.g.log);
    BatchesAre(m.g.log);
  }

  lemma SamePublished(c: Config, s: SpState, m: State)
    requires SpInv(c, s) && QueueInv(c, m) && OpsOf(m.g.log) == s.ops && m.g.ring.published == |Exposed(s)|
    ensures Useful(Flatten(s.ring.regions[..s.ring.published])) ==
            Useful(Flatten(m.g.ring.regions[..m.g.ring.published]))
  {
    hide Inv; hide Size; hide ValidOp; hide Flatten; hide Useful; hide ThreadsOk; hide Grant; hide Submitted;
    hide AllClear;
    hide SpPcOk; hide Laid; hide AllPacketsOf;
    ExposedStream(c, s);
    var n := m.g.ring.published;
    UsefulRegions(c, m.g.ring.regions[..n], m.g.log[..n]);
    BatchesAre(m.g.log[..n]);
    assert OpsOf(m.g.log[..n]) == s.ops[..n] == Exposed(s);
  }

  /**
   The batches the single-producer handle takes and the other never does, whatever its
   threads do: smaller than the ring, but not together with the padding in front of them.
   */
  lemma SingleBeyondMulti(c: Config, op: Op) returns (s: SpState)
    requires ValidConfig(c) && ValidOp(c, op) && Bytes(op.packets) < c.ringBytes && !Roomy(c, c.start, op)
    requires NewIndex(c, c.start, op) < 0x1_0000_0000_0000_0000
    ensures SpReachable(c, s) && s.ops == [op]
    ensures forall m: State :: Reachable(c, m) && m.g.log != [] ==> m.g.log[0].op != op
  {
    hide SpReachable; hide Reachable; hide ValidOp; hide Size; hide NewIndex; hide Roomy;
    OneSubmitted(c, op);
    hide Submitted;
    s := SingleFollows(c, [op], Zeros(c.ringBytes / 4), map[]);
    forall m: State | Reachable(c, m) && m.g.log != []
      ensures m.g.log[0].op != op
    {
      MultiAdmits(c, m);
      assert RoomyAt(c, OpsOf(m.g.log), 0) && OpsOf(m.g.log)[..0] == [];
    }
  }

  lemma OneSubmitted(c: Config, op: Op)
    requires ValidConfig(c) && ValidOp(c, op) && Bytes(op.packets) < c.ringBytes
    requires NewIndex(c, c.start, op) < 0x1_0000_0000_0000_0000
    ensures Submitted(c, [op])
  {
    hide ValidOp; hide Size; hide NewIndex;
    var ops := [op];
    assert ops[..1] == ops && ops[..0] == [];
    assert LayoutEnd(c, c.start, ops) == NewIndex(c, c.start, op);
    assert SubmittedAt(c, ops, 0);
  }

  /** For instance: a 28-byte copy into a ring of 32 bytes that starts at 16. */
  lemma SmallRingExample() returns (s: SpState)
    ensures var c, op := Config(PreOss7, 32, 16), Op([Copy(4096, 8192, 64)], false, false);
            && SpReachable(c, s) && s.ops == [op]
            && forall m: State :: Reachable(c, m) && m.g.log != [] ==> m.g.log[0].op != op
  {
    hide SpReachable; hide Reachable;
    var p := Copy(4096, 8192, 64);
    SizeOne(p);
    s := SingleBeyondMulti(Config(PreOss7, 32, 16), Op([p], false, false));
  }
}
