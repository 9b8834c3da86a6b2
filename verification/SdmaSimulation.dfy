/**
 The single-producer handle step by step: every run of it with admissible batches is
 followed by a run of the multi-producer queue with one thread, whose engine has always run
 the same packets up to NOPs and left the same memory.
 */
module SdmaSimulation {
  import opened SdmaPackets
  import opened SdmaRing
  import opened SdmaQueue
  import opened SdmaQueueRuns
  import opened SdmaCompletion
  import opened SdmaSingleProducer
  import opened SdmaRefinement

  // ---------------------------------------------------------------- where the useful packets sit

  /** The byte index of the packet with u useful ones before it, in packets laid out from at on. */
  function Where(at: nat, ps: seq<Packet>, u: nat): (r: nat)
    ensures r >= at
    decreases |ps|
  {
    if ps == [] then at
    else if ps[0].Nop? then Where(at + 4 * Dwords(ps[0]), ps[1..], u)
    else if u == 0 then at
    else Where(at + 4 * Dwords(ps[0]), ps[1..], u - 1)
  }

  lemma {:induction false} WhereAppend(at: nat, a: seq<Packet>, b: seq<Packet>, u: nat)
    ensures u < |Useful(a)| ==> Where(at, a + b, u) == Where(at, a, u)
    ensures u >= |Useful(a)| ==> Where(at, a + b, u) == Where(at + Bytes(a), b, u - |Useful(a)|)
    decreases |a|
  {
    hide Dwords;
    if a == [] {
      assert a + b == b && Useful(a) == [] && Bytes(a) == 0;
    } else {
      assert (a + b)[0] == a[0] && (a + b)[1..] == a[1..] + b;
      var next := at + 4 * Dwords(a[0]);
      assert |Useful(a)| == |Useful(a[1..])| + if a[0].Nop? then 0 else 1;
      assert Bytes(a) == 4 * Dwords(a[0]) + Bytes(a[1..]);
      hide Useful; hide Size;
      if a[0].Nop? {
        WhereAppend(next, a[1..], b, u);
      } else if u > 0 {
        WhereAppend(next, a[1..], b, u - 1);
      }
    }
  }

  /** The read pointer stands behind exactly what has been run. */
  lemma ReadIndex(c: Config, r: Ring)
    requires Inv(c, r)
    ensures r.rptr == c.start + Bytes(r.executed)
  {
    hide Size; hide Intact; hide Before; hide IndexOf; hide Flatten; hide Boundary; hide Ordered; hide Chained;
    WindowDecodes(c, r);
    FlattenLength(c, r.regions, 0, r.published);
    assert r.regions[0..r.published] == r.regions[..r.published];
    SizeAppend(r.executed, Pending(r));
    PointersOrdered(c, r);
    if r.region < r.published { WindowLength(c, r); } else { SizeEmpty(); }
    StartBoundary(c, r.regions);
  }

  lemma StartBoundary(c: Config, rs: seq<Region>)
    ensures Boundary(c, rs, 0) == c.start
  {
  }

  /** The next useful packet, found from the start of the stream and from the read pointer. */
  lemma NextSpot(c: Config, r: Ring)
    requires Inv(c, r)
    ensures Where(c.start, Flatten(r.regions[..r.published]), |Useful(r.executed)|) == Where(r.rptr, Pending(r), 0)
  {
    hide Inv; hide Where; hide Useful; hide Flatten;
    RingPosition(c, r);
    WindowDecodes(c, r);
    ReadIndex(c, r);
    WhereAppend(c.start, r.executed, Pending(r), |Useful(r.executed)|);
  }

  lemma RingPosition(c: Config, r: Ring)
    requires Inv(c, r)
    ensures Position(r.regions, r.published, r.region, r.packet)
  {
  }

  /** The packets of the multi-producer layout of a sequence of batches. */
  function Stream(c: Config, ops: seq<Op>): seq<Packet>
    requires ValidConfig(c)
    decreases |ops|
  {
    if ops == [] then []
    else
      var front := ops[..|ops| - 1];
      Stream(c, front) + Grant(c, LayoutEnd(c, c.start, front), ops[|ops| - 1])
  }

  lemma StreamSnoc(c: Config, ops: seq<Op>, op: Op)
    requires ValidConfig(c)
    ensures Stream(c, ops + [op]) == Stream(c, ops) + Grant(c, LayoutEnd(c, c.start, ops), op)
  {
    hide LayoutEnd; hide Grant;
    assert (ops + [op])[..|ops|] == ops;
  }

  lemma {:induction false} StreamFacts(c: Config, ops: seq<Op>)
    requires ValidConfig(c) && Submitted(c, ops)
    ensures LayoutEnd(c, c.start, ops) == c.start + Bytes(Stream(c, ops)) && LayoutEnd(c, c.start, ops) % 4 == 0
    ensures Useful(Stream(c, ops)) == AllPacketsOf(ops)
    decreases |ops|
  {
    hide Submitted; hide Grant; hide Pad; hide Size; hide ValidOp; hide Useful;
    if ops == [] {
      SizeEmpty();
      UsefulAll([]);
    } else {
      var front, op := ops[..|ops| - 1], ops[|ops| - 1];
      SubmittedFront(c, ops);
      StreamFacts(c, front);
      var at := LayoutEnd(c, c.start, front);
      PadFacts(c, at, op);
      SizeAppend(Stream(c, front), Grant(c, at, op));
      UsefulGrant(c, at, op);
      UsefulAppend(Stream(c, front), Grant(c, at, op));
    }
  }

  lemma {:induction false} MpStream(c: Config, rs: seq<Region>, log: seq<Entry>, n: nat)
    requires ValidConfig(c) && Granted(c, rs, log) && Chained(c, rs) && Shaped(c, rs) && n <= |rs|
    ensures Flatten(rs[..n]) == Stream(c, OpsOf(log)[..n])
  {
    hide Grant; hide ValidOp; hide LayoutEnd; hide Size; hide Encodable;
    if n == 0 {
      assert rs[..0] == [] && OpsOf(log)[..0] == [];
    } else {
      MpStream(c, rs, log, n - 1);
      MpLayout(c, rs, log, n - 1);
      assert rs[..n] == rs[..n - 1] + [rs[n - 1]] && OpsOf(log)[..n] == OpsOf(log)[..n - 1] + [log[n - 1].op];
      FlattenSnoc(rs[..n - 1], rs[n - 1]);
      StreamSnoc(c, OpsOf(log)[..n - 1], log[n - 1].op);
      assert rs[n - 1].base == Boundary(c, rs, n - 1);
    }
  }

  /** The single producer puts its useful packets where the multi-producer layout has them. */
  predicate SpotAt(c: Config, rs: seq<Region>, ops: seq<Op>, u: nat)
    requires ValidConfig(c)
  {
    Where(c.start, Flatten(rs), u) == Where(c.start, Stream(c, ops), u)
  }

  predicate Spots(c: Config, rs: seq<Region>, ops: seq<Op>)
    requires ValidConfig(c)
  {
    forall u :: 0 <= u < |AllPacketsOf(ops)| ==> SpotAt(c, rs, ops, u)
  }

  lemma PadSpots(c: Config, rs: seq<Region>, ops: seq<Op>, r: Region)
    requires ValidConfig(c) && Spots(c, rs, ops) && Useful(Flatten(rs)) == AllPacketsOf(ops)
    ensures Spots(c, rs + [r], ops)
  {
    hide Where; hide Stream; hide Useful; hide Flatten; hide AllPacketsOf;
    FlattenSnoc(rs, r);
    forall u | 0 <= u < |AllPacketsOf(ops)|
      ensures SpotAt(c, rs + [r], ops, u)
    {
      assert SpotAt(c, rs, ops, u);
      WhereAppend(c.start, Flatten(rs), r.packets, u);
    }
  }

  /** The same batch behind two streams, and a pad, that end at the same index. */
  lemma SameBatch(at: nat, a: seq<Packet>, b: seq<Packet>, pad: seq<Packet>, batch: seq<Packet>, u: nat)
    requires Useful(a) == Useful(b) && Useful(pad) == [] && Bytes(a) == Bytes(b) + Bytes(pad)
    requires u < |Useful(a)| ==> Where(at, a, u) == Where(at, b, u)
    ensures Where(at, a + batch, u) == Where(at, b + (pad + batch), u)
  {
    hide Where; hide Useful; hide Size;
    WhereAppend(at, a, batch, u);
    WhereAppend(at, b, pad + batch, u);
    if u >= |Useful(a)| { WhereAppend(at + Bytes(b), pad, batch, u - |Useful(a)|); }
  }

  lemma OpSpots(c: Config, rs: seq<Region>, ops: seq<Op>, op: Op)
    requires ValidConfig(c) && Spots(c, rs, ops) && Useful(Flatten(rs)) == AllPacketsOf(ops)
    requires Submitted(c, ops) && ValidOp(c, op) && Chained(c, rs)
    requires var from := LayoutEnd(c, c.start, ops);
             Boundary(c, rs, |rs|) == from + Pad(c, from, Bytes(op.packets))
    ensures Spots(c, rs + [Region(Boundary(c, rs, |rs|), op.packets)], ops + [op])
  {
    hide Where; hide Stream; hide Useful; hide Flatten; hide AllPacketsOf; hide LayoutEnd; hide Pad; hide PadPackets;
    hide Size; hide ValidOp; hide Submitted; hide Boundary; hide Chained;
    var r, from := Region(Boundary(c, rs, |rs|), op.packets), LayoutEnd(c, c.start, ops);
    var pad := PadPackets(Pad(c, from, Bytes(op.packets)));
    FlattenSnoc(rs, r);
    StreamSnoc(c, ops, op);
    StreamFacts(c, ops);
    assert Bytes(Flatten(rs)) == Bytes(Stream(c, ops)) + Bytes(pad) by {
      FlattenLength(c, rs, 0, |rs|);
      assert rs[0..|rs|] == rs;
      StartBoundary(c, rs);
      PadFacts(c, from, op);
      SizeAppend(pad, op.packets);
    }
    UsefulPad(Pad(c, from, Bytes(op.packets)));
    forall u | 0 <= u < |AllPacketsOf(ops + [op])|
      ensures SpotAt(c, rs + [r], ops + [op], u)
    {
      if u < |AllPacketsOf(ops)| { assert SpotAt(c, rs, ops, u); }
      SameBatch(c.start, Flatten(rs), Stream(c, ops), pad, op.packets, u);
    }
  }

  lemma SpotsStep(c: Config, s: SpState, e: SpEvent)
    requires SpInv(c, s) && SpEnabled(c, s, e) && Spots(c, s.ring.regions, s.ops)
    ensures Spots(c, SpStep(c, s, e).ring.regions, SpStep(c, s, e).ops)
  {
    hide Spots; hide Intact; hide Before; hide IndexOf; hide Ordered; hide Useful; hide Flatten; hide Size;
    hide ValidOp; hide LayoutEnd; hide LayoutStart; hide AllPacketsOf; hide Submitted; hide AllClear; hide Fits;
    hide Decode; hide Window; hide Slot; hide EncodeAll; hide ZeroNops; hide Exec;
    if e.SpRun? {
      match s.pc
      case PadTest(op, cur) =>
        PadSpots(c, s.ring.regions, s.ops, Region(s.ring.limit, ZeroNops(ToEnd(c, cur) / 4)));
      case RoomTest(op, cur) =>
        OpSpots(c, s.ring.regions, s.ops, op);
      case _ =>
    }
  }

  // ---------------------------------------------------------------- steps of the follower

  predicate Undisturbed(es: seq<Event>) { forall k :: 0 <= k < |es| ==> !es[k].Outside? }

  lemma EngineStep(c: Config, m: State)
    requires QueueInv(c, m) && m.g.ring.rptr < m.g.ring.wptr
    ensures Enabled(c, m, Engine) && Pending(m.g.ring) != []
    ensures var n, r := Step(c, m, Engine), m.g.ring;
            && QueueInv(c, n)
            && n == State(m.g.(ring := n.g.ring), m.threads)
            && n.g.ring.regions == r.regions && n.g.ring.published == r.published
            && n.g.ring.wptr == r.wptr && n.g.ring.limit == r.limit && r.rptr < n.g.ring.rptr <= r.wptr
            && n.g.ring.executed == r.executed + [Pending(r)[0]] && n.g.ring.mem == Exec(r.mem, Pending(r)[0])
  {
    hide Granted; hide ThreadsOk; hide Decode; hide Window; hide Intact; hide Before; hide IndexOf; hide Exec;
    hide Size; hide Shaped; hide Ordered; hide Chained; hide Flatten;
    EngineEnabled(c, m);
    ExecutePreserves(c, m.g.ring);
    PointersOrdered(c, m.g.ring);
    StepPreserves(c, m, Engine);
  }

  /** n is m but for the engine having run NOPs. */
  ghost predicate Skipped(m: State, n: State) {
    && n == State(m.g.(ring := n.g.ring), m.threads)
    && n.g.ring.regions == m.g.ring.regions && n.g.ring.published == m.g.ring.published
    && n.g.ring.wptr == m.g.ring.wptr && n.g.ring.limit == m.g.ring.limit
    && Useful(n.g.ring.executed) == Useful(m.g.ring.executed) && n.g.ring.mem == m.g.ring.mem
  }

  /** The next packet for the engine, if any, is a useful one. */
  predicate Poised(r: Ring) {
    Position(r.regions, r.published, r.region, r.packet) && (Pending(r) == [] || !Pending(r)[0].Nop?)
  }

  lemma NopIsIdle(mem: Memory, ps: seq<Packet>, p: Packet)
    requires p.Nop?
    ensures Exec(mem, p) == mem && Useful(ps + [p]) == Useful(ps)
  {
    UsefulAppend(ps, [p]);
    assert [p][1..] == [];
  }

  lemma EngineSkips(c: Config, m: State) returns (fs: seq<Event>, n: State)
    requires QueueInv(c, m)
    ensures Leads(c, m, fs, n) && Undisturbed(fs) && QueueInv(c, n) && Skipped(m, n) && Poised(n.g.ring)
    decreases if m.g.ring.rptr < m.g.ring.wptr then m.g.ring.wptr - m.g.ring.rptr else 0
  {
    hide QueueInv; hide Step; hide Enabled; hide Exec; hide Useful; hide Pending;
    RingOk(c, m);
    if m.g.ring.rptr < m.g.ring.wptr {
      EngineStep(c, m);
      var p := Pending(m.g.ring)[0];
      if p.Nop? {
        NopIsIdle(m.g.ring.mem, m.g.ring.executed, p);
        var rest: seq<Event>;
        rest, n := EngineSkips(c, Step(c, m, Engine));
        fs := [Engine] + rest;
        assert fs[1..] == rest;
        return;
      }
    }
    fs, n := [], m;
  }

  lemma RingOk(c: Config, m: State)
    requires QueueInv(c, m)
    ensures Inv(c, m.g.ring) && Position(m.g.ring.regions, m.g.ring.published, m.g.ring.region, m.g.ring.packet)
    ensures m.g.ring.rptr <= m.g.ring.wptr <= m.g.ring.limit
    ensures m.g.ring.rptr == m.g.ring.wptr <==> Pending(m.g.ring) == []
  {
    hide Granted; hide ThreadsOk; hide Intact; hide Before; hide IndexOf; hide Size; hide Flatten;
    PointersOrdered(c, m.g.ring);
  }

  lemma {:induction false} ThreadRuns(c: Config, m: State, es: seq<Event>, n: State)
    requires Leads(c, m, es, n) && forall k :: 0 <= k < |es| ==> es[k].Run?
    ensures n.g.ring.executed == m.g.ring.executed && n.g.ring.mem == m.g.ring.mem && |n.threads| == |m.threads|
    decreases |es|
  {
    hide Step; hide Enabled;
    if es != [] {
      ProducersKeepMemory(c, m, es[0]);
      SameThreads(c, m, es[0]);
      ThreadRuns(c, Step(c, m, es[0]), es[1..], n);
    }
  }

  // ---------------------------------------------------------------- the simulation

  /** The thread of the follower holds the batch being stored, or is at rest. */
  predicate Stage(s: SpState, m: State) {
    if s.pc.OpStore? || s.pc.OpWptr? then
      && |m.threads| == 1 && m.g.committed + 1 == |m.g.log| && m.g.log[m.g.committed].owner == 0
      && m.threads[0].pc.Place? && HeldTicket(m.threads[0].pc) == Some(m.g.committed)
    else AtEase(m)
  }

  ghost predicate Sim(c: Config, s: SpState, m: State) {
    && QueueInv(c, m) && OpsOf(m.g.log) == s.ops && Stage(s, m)
    && Useful(m.g.ring.executed) == Useful(s.ring.executed) && m.g.ring.mem == s.ring.mem
  }

  lemma SimPublished(c: Config, s: SpState, m: State)
    requires Sim(c, s, m)
    ensures m.g.ring.published == |Exposed(s)|
  {
    hide Inv; hide Granted; hide MemoryOk; hide Size; hide Useful;
    assert PcOk(c, m.g, 0, m.threads[0]);
  }

  /** The engines have the same useful packets ahead of them. */
  lemma SamePending(c: Config, s: SpState, m: State)
    requires SpInv(c, s) && Sim(c, s, m)
    ensures Inv(c, m.g.ring) && Useful(Pending(s.ring)) == Useful(Pending(m.g.ring))
  {
    hide QueueInv; hide SpInv; hide Inv; hide Useful; hide Flatten; hide Pending; hide Stage;
    RingOk(c, m);
    SpRingOk(c, s);
    SimPublished(c, s, m);
    SamePublished(c, s, m);
    WindowDecodes(c, s.ring);
    WindowDecodes(c, m.g.ring);
    UsefulAppend(s.ring.executed, Pending(s.ring));
    UsefulAppend(m.g.ring.executed, Pending(m.g.ring));
    SameBack(Useful(s.ring.executed), Useful(Pending(s.ring)), Useful(Pending(m.g.ring)));
  }

  lemma SameBack(a: seq<Packet>, b: seq<Packet>, d: seq<Packet>)
    requires a + b == a + d
    ensures b == d
  {
    assert b == (a + b)[|a|..] && d == (a + d)[|a|..];
  }

  lemma SpRingOk(c: Config, s: SpState)
    requires SpInv(c, s)
    ensures Inv(c, s.ring) && s.ring.published <= |s.ring.regions|
    ensures Position(s.ring.regions, s.ring.published, s.ring.region, s.ring.packet)
    ensures s.ring.rptr <= s.ring.wptr <= s.ring.limit && (s.ring.rptr == s.ring.wptr <==> Pending(s.ring) == [])
  {
    hide Intact; hide Before; hide IndexOf; hide Size; hide Flatten; hide SpPcOk; hide Laid; hide Submitted;
    hide AllClear;
    PointersOrdered(c, s.ring);
  }

  lemma SimSkips(c: Config, s: SpState, m: State, n: State)
    requires Sim(c, s, m) && QueueInv(c, n) && Skipped(m, n)
    ensures Sim(c, s, n)
  {
    hide QueueInv; hide Useful;
  }

  lemma UsefulHead(ps: seq<Packet>)
    requires ps != [] && !ps[0].Nop?
    ensures Useful(ps) != [] && Useful(ps)[0] == ps[0]
  {
  }

  lemma SpEngineRuns(c: Config, s: SpState)
    requires SpInv(c, s) && SpEnabled(c, s, SpEngine)
    ensures Inv(c, s.ring) && Pending(s.ring) != []
    ensures var n, p := SpStep(c, s, SpEngine), Pending(s.ring)[0];
            && n == s.(ring := n.ring) && n.ring.executed == s.ring.executed + [p] && n.ring.mem == Exec(s.ring.mem, p)
  {
    hide Intact; hide Before; hide IndexOf; hide Size; hide Flatten; hide SpPcOk; hide Laid; hide Submitted;
    hide AllClear; hide Decode; hide Window; hide Exec; hide Shaped; hide Ordered; hide Chained;
    SpRingOk(c, s);
    PointersOrdered(c, s.ring);
    ExecutePreserves(c, s.ring);
  }

  lemma SimEngine(c: Config, s: SpState, m: State) returns (fs: seq<Event>, n: State)
    requires SpInv(c, s) && SpEnabled(c, s, SpEngine) && Sim(c, s, m)
    ensures Leads(c, m, fs, n) && Undisturbed(fs) && Sim(c, SpStep(c, s, SpEngine), n)
  {
    hide SpInv; hide Inv; hide QueueInv; hide SpEnabled; hide SpStep; hide Step; hide Enabled; hide Exec; hide Useful;
    hide Pending; hide OpsOf;
    SpRingOk(c, s);
    SpEngineRuns(c, s);
    var p := Pending(s.ring)[0];
    if p.Nop? {
      NopIsIdle(s.ring.mem, s.ring.executed, p);
      fs, n := [], m;
    } else {
      var skips, b := EngineSkips(c, m);
      SimSkips(c, s, m, b);
      SamePending(c, s, b);
      UsefulHead(Pending(s.ring));
      RingOk(c, b);
      assert Pending(b.g.ring) != [] by { UsefulAll([]); }
      UsefulHead(Pending(b.g.ring));
      EngineStep(c, b);
      fs, n := skips + [Engine], Step(c, b, Engine);
      Chain(c, m, skips, b, Engine);
      UsefulAppend(s.ring.executed, [p]);
      UsefulAppend(b.g.ring.executed, [p]);
    }
  }

  /** Behind the next useful packet, the follower has the room the single producer has. */
  lemma RoomFollows(c: Config, s: SpState, m: State, op: Op)
    requires SpInv(c, s) && Sim(c, s, m) && Spots(c, s.ring.regions, s.ops) && Poised(m.g.ring)
    requires s.pc.RoomTest? && s.pc.op == op && Roomy(c, LayoutEnd(c, c.start, s.ops), op)
    requires s.pc.cur + Bytes(op.packets) < 0x1_0000_0000_0000_0000
    requires Fits(c, s.pc.cur + Bytes(op.packets), s.ring.rptr)
    ensures NewIndex(c, m.g.ring.limit, op) == s.pc.cur + Bytes(op.packets)
    ensures Fits(c, NewIndex(c, m.g.ring.limit, op), m.g.ring.rptr)
  {
    hide QueueInv; hide Inv; hide Useful; hide Flatten; hide Pending; hide Stage; hide Where; hide Stream; hide Size;
    hide LayoutEnd; hide Submitted; hide AllClear; hide Wrap; hide ValidOp; hide Spots; hide SubU64; hide OpsOf;
    LimitIsLayout(c, m);
    SpRingOk(c, s);
    RingOk(c, m);
    var upto := NewIndex(c, m.g.ring.limit, op);
    SubExact(upto, s.ring.rptr);
    AtLevel(c, s, m);
    SubExact(upto, m.g.ring.rptr);
    if Pending(m.g.ring) != [] {
      RoomBehind(c, s, m);
    }
  }

  lemma AtLevel(c: Config, s: SpState, m: State)
    requires SpInv(c, s) && Sim(c, s, m) && s.pc.RoomTest?
    ensures m.g.ring.published == |m.g.ring.regions| && m.g.ring.wptr == m.g.ring.limit
    ensures s.ring.published == |s.ring.regions| && s.ring.limit == s.pc.cur
  {
    hide Intact; hide Granted; hide ThreadsOk; hide Size; hide Before; hide IndexOf; hide Useful; hide Flatten;
    hide Laid; hide Submitted; hide AllClear;
    SimPublished(c, s, m);
  }

  /** An engine about to run a useful packet is not behind one that has that packet ahead. */
  lemma NotBehind(c: Config, a: Ring, b: Ring)
    requires Inv(c, a) && Inv(c, b) && |Useful(a.executed)| == |Useful(b.executed)| && Poised(b) && Pending(b) != []
    requires Where(c.start, Flatten(a.regions[..a.published]), |Useful(a.executed)|) ==
             Where(c.start, Flatten(b.regions[..b.published]), |Useful(a.executed)|)
    ensures a.rptr <= b.rptr
  {
    hide Inv; hide Useful; hide Flatten;
    RingPosition(c, a);
    NextSpot(c, a);
    NextSpot(c, b);
    hide Pending;
    assert Where(b.rptr, Pending(b), 0) == b.rptr;
  }

  lemma UsefulAhead(c: Config, r: Ring)
    requires Inv(c, r) && Poised(r) && Pending(r) != []
    ensures |Useful(r.executed)| < |Useful(Flatten(r.regions[..r.published]))|
  {
    hide Inv; hide Useful; hide Flatten; hide Pending;
    WindowDecodes(c, r);
    UsefulAppend(r.executed, Pending(r));
    UsefulHead(Pending(r));
  }

  lemma RoomBehind(c: Config, s: SpState, m: State)
    requires SpInv(c, s) && Sim(c, s, m) && Spots(c, s.ring.regions, s.ops) && Poised(m.g.ring)
    requires s.pc.RoomTest? && Pending(m.g.ring) != []
    ensures s.ring.rptr <= m.g.ring.rptr
  {
    hide QueueInv; hide SpInv; hide Inv; hide Useful; hide Flatten; hide Pending; hide Stage; hide Stream; hide Where;
    hide Poised; hide AllPacketsOf; hide OpsOf; hide Position;
    SpRingOk(c, s);
    RingOk(c, m);
    AtLevel(c, s, m);
    assert s.ring.regions[..s.ring.published] == s.ring.regions;
    assert m.g.ring.regions[..m.g.ring.published] == m.g.ring.regions;
    FollowerStream(c, m);
    UsefulAhead(c, m.g.ring);
    SpUseful(c, s);
    StreamUseful(c, s);
    assert SpotAt(c, s.ring.regions, s.ops, |Useful(m.g.ring.executed)|);
    NotBehind(c, s.ring, m.g.ring);
  }

  lemma StreamUseful(c: Config, s: SpState)
    requires SpInv(c, s)
    ensures ValidConfig(c) && Useful(Stream(c, s.ops)) == AllPacketsOf(s.ops)
  {
    hide Intact; hide Before; hide IndexOf; hide Size; hide SpPcOk; hide Laid; hide AllClear; hide Submitted;
    hide Useful; hide Stream; hide AllPacketsOf;
    StreamFacts(c, s.ops);
  }

  lemma FollowerStream(c: Config, m: State)
    requires QueueInv(c, m)
    ensures Flatten(m.g.ring.regions) == Stream(c, OpsOf(m.g.log))
  {
    hide Intact; hide ThreadsOk; hide Size; hide Before; hide IndexOf; hide Flatten; hide Stream; hide Ordered;
    hide Grant; hide ValidOp;
    var rs := m.g.ring.regions;
    MpStream(c, rs, m.g.log, |rs|);
    assert rs[..|rs|] == rs && OpsOf(m.g.log)[..|rs|] == OpsOf(m.g.log);
  }

  lemma SpUseful(c: Config, s: SpState)
    requires SpInv(c, s)
    ensures Useful(Flatten(s.ring.regions)) == AllPacketsOf(s.ops)
  {
    hide Inv; hide SpPcOk; hide Submitted; hide AllClear;
  }

  /** The single producer is granted the space of its batch. */
  predicate Granting(c: Config, s: SpState) {
    && s.pc.RoomTest? && SpEnabled(c, s, SpRun)
    && Fits(c, s.pc.cur + Bytes(s.pc.op.packets), s.ring.rptr)
  }

  lemma SimReserves(c: Config, s: SpState, m: State) returns (fs: seq<Event>, n: State)
    requires SpInv(c, s) && Sim(c, s, m) && Spots(c, s.ring.regions, s.ops) && Granting(c, s)
    requires Roomy(c, LayoutEnd(c, c.start, s.ops), s.pc.op)
    ensures Leads(c, m, fs, n) && Undisturbed(fs) && Sim(c, SpStep(c, s, SpRun), n)
  {
    hide QueueInv; hide Inv; hide Useful; hide Spots; hide NewIndex; hide Fits; hide LayoutEnd; hide Roomy; hide Size;
    hide ValidOp; hide Laid; hide Submitted; hide AllClear; hide Flatten; hide Leads; hide Wrap; hide Pending;
    var op := s.pc.op;
    var skips, b := EngineSkips(c, m);
    SimSkips(c, s, m, b);
    RoomFollows(c, s, b, op);
    var e := Begin(0, op);
    var b1 := Step(c, b, e);
    StepPreserves(c, b, e);
    var es: seq<Event>;
    es, n := AloneReserves(c, b1, 0, op);
    ThreadRuns(c, b1, es, n);
    fs := skips + ([e] + es);
    LeadsCons(c, b, e, es, n);
    Concat(c, m, skips, b, [e] + es, n);
    assert OpsOf(n.g.log) == s.ops + [op];
  }

  lemma LeadsCons(c: Config, m: State, e: Event, es: seq<Event>, n: State)
    requires Enabled(c, m, e) && Leads(c, Step(c, m, e), es, n)
    ensures Leads(c, m, [e] + es, n)
  {
    hide Step; hide Enabled;
    assert ([e] + es)[1..] == es;
  }

  lemma SimSubmits(c: Config, s: SpState, m: State) returns (fs: seq<Event>, n: State)
    requires SpInv(c, s) && SpEnabled(c, s, SpRun) && s.pc.OpWptr? && Sim(c, s, m)
    ensures Leads(c, m, fs, n) && Undisturbed(fs) && Sim(c, SpStep(c, s, SpRun), n)
  {
    hide QueueInv; hide SpInv; hide Useful; hide Size; hide ValidOp; hide Leads;
    fs, n := HolderSubmits(c, m, 0);
    ThreadRuns(c, m, fs, n);
  }

  /** The other steps of the single producer: the follower waits. */
  lemma SimWaits(c: Config, s: SpState, e: SpEvent, m: State)
    requires SpInv(c, s) && SpEnabled(c, s, e) && Sim(c, s, m)
    requires !e.SpEngine? && !(e.SpRun? && (s.pc.OpWptr? || Granting(c, s)))
    ensures Sim(c, SpStep(c, s, e), m) && SpStep(c, s, e).ops == s.ops
  {
    hide QueueInv; hide Inv; hide Useful; hide Size; hide ValidOp; hide Laid; hide Submitted; hide AllClear; hide Wrap;
    hide Fits; hide OpsOf; hide EncodeAll; hide Slot; hide ZeroNops; hide Storing;
  }

  lemma SimStep(c: Config, s: SpState, e: SpEvent, m: State) returns (fs: seq<Event>, n: State)
    requires SpInv(c, s) && SpEnabled(c, s, e) && Sim(c, s, m) && Spots(c, s.ring.regions, s.ops)
    requires Admissible(c, SpStep(c, s, e).ops)
    ensures Leads(c, m, fs, n) && Undisturbed(fs) && Sim(c, SpStep(c, s, e), n)
  {
    hide SpInv; hide Sim; hide Spots; hide Admissible; hide SpStep; hide SpEnabled; hide Roomy; hide LayoutEnd;
    if e.SpEngine? {
      fs, n := SimEngine(c, s, m);
    } else if e.SpRun? && s.pc.OpWptr? {
      fs, n := SimSubmits(c, s, m);
    } else if e.SpRun? && Granting(c, s) {
      GrantRoomy(c, s);
      fs, n := SimReserves(c, s, m);
    } else {
      fs, n := [], m;
      SimWaits(c, s, e, m);
    }
  }

  lemma GrantRoomy(c: Config, s: SpState)
    requires SpInv(c, s) && Granting(c, s) && Admissible(c, SpStep(c, s, SpRun).ops)
    ensures SpStep(c, s, SpRun).ops == s.ops + [s.pc.op]
    ensures Roomy(c, LayoutEnd(c, c.start, s.ops), s.pc.op) && Admissible(c, s.ops)
  {
    hide Inv; hide Laid; hide Submitted; hide AllClear; hide ValidOp; hide Size; hide Fits; hide Roomy; hide LayoutEnd;
    hide Admissible; hide Wrap;
    var ops := s.ops + [s.pc.op];
    SpStepPreserves(c, s, SpRun);
    FrontToo(c, ops);
    assert ops[..|ops| - 1] == s.ops;
  }

  lemma AdmissibleBefore(c: Config, s: SpState, e: SpEvent)
    requires SpInv(c, s) && SpEnabled(c, s, e) && Admissible(c, SpStep(c, s, e).ops)
    ensures Admissible(c, s.ops)
  {
    hide SpInv; hide Admissible; hide Size; hide EncodeAll; hide Slot; hide ZeroNops; hide Execute; hide ValidOp;
    hide Decode; hide Window; hide Wrap;
    if e.SpRun? && Granting(c, s) { GrantRoomy(c, s); }
  }

  /** The state both handles start from, with one thread. */
  function Start(c: Config, buf: seq<U32>, mem: Memory): State {
    State(Shared(Empty(c, buf, mem), c.start, c.start, [], 0, 0), [Thread(Idle, 0, 0, None)])
  }

  /**
   Refinement. Every run of the single-producer handle whose batches are admissible is
   followed by a run of the multi-producer queue with one thread, from the same buffer and
   memory and without outside help: at every moment it has reserved the same batches, put
   every one at the same byte index, exposes the same packets up to NOPs, and its engine has
   run the same packets up to NOPs and left the same memory.
   */
  lemma {:induction false} SingleRefinesMulti(c: Config, ss: seq<SpState>, es: seq<SpEvent>, i: nat)
    returns (fs: seq<Event>, m: State)
    requires ValidConfig(c) && SpIsRun(c, ss, es) && i < |ss| && Admissible(c, ss[i].ops)
    ensures var m0 := Start(c, ss[0].ring.buf, ss[0].ring.mem);
            Init(c, m0) && Leads(c, m0, fs, m) && Undisturbed(fs)
    ensures SpInv(c, ss[i]) && QueueInv(c, m) && Matches(c, ss[i], m)
    ensures Useful(m.g.ring.executed) == Useful(ss[i].ring.executed) && m.g.ring.mem == ss[i].ring.mem
  {
    hide SpInv; hide QueueInv; hide Useful; hide Admissible; hide SpStep; hide SpEnabled; hide Flatten; hide Pad;
    hide Init; hide Leads; hide SpInit; hide Stage;
    fs, m := Following(c, ss, es, i);
    SpRunKeepsInv(c, ss, es, i);
    assert Init(c, Start(c, ss[0].ring.buf, ss[0].ring.mem)) by { Starts(c, ss[0]); }
    SimPublished(c, ss[i], m);
    SameLayout(c, ss[i], m);
    SamePublished(c, ss[i], m);
  }

  lemma Starts(c: Config, s: SpState)
    requires SpInit(c, s)
    ensures var m := Start(c, s.ring.buf, s.ring.mem); Init(c, m) && Sim(c, s, m) && Spots(c, s.ring.regions, s.ops)
    ensures Leads(c, Start(c, s.ring.buf, s.ring.mem), [], Start(c, s.ring.buf, s.ring.mem))
  {
    hide QueueInv; hide Useful;
    InitHolds(c, Start(c, s.ring.buf, s.ring.mem));
  }

  lemma {:induction false} Following(c: Config, ss: seq<SpState>, es: seq<SpEvent>, i: nat)
    returns (fs: seq<Event>, m: State)
    requires ValidConfig(c) && SpIsRun(c, ss, es) && i < |ss| && Admissible(c, ss[i].ops)
    ensures Leads(c, Start(c, ss[0].ring.buf, ss[0].ring.mem), fs, m) && Undisturbed(fs)
    ensures Sim(c, ss[i], m) && Spots(c, ss[i].ring.regions, ss[i].ops)
  {
    hide SpInv; hide Sim; hide Spots; hide Admissible; hide SpStep; hide SpEnabled; hide Leads; hide Start; hide SpInit;
    if i == 0 {
      Starts(c, ss[0]);
      fs, m := [], Start(c, ss[0].ring.buf, ss[0].ring.mem);
    } else {
      var s, e := ss[i - 1], es[i - 1];
      SpRunKeepsInv(c, ss, es, i - 1);
      AdmissibleBefore(c, s, e);
      var front, b := Following(c, ss, es, i - 1);
      var more: seq<Event>;
      more, m := SimStep(c, s, e, b);
      SpotsStep(c, s, e);
      Concat(c, Start(c, ss[0].ring.buf, ss[0].ring.mem), front, b, more, m);
      fs := front + more;
    }
  }
}
