/**
 That the data arrives: what the engine has copied, and what waitSignal says about the bytes
 of the requests it covers.
 */
module SdmaDelivery {
  import opened SdmaPackets
  import opened SdmaRing
  import opened SdmaQueue
  import opened SdmaQueueRuns
  import opened SdmaCompletion
  import opened SdmaRequests

  predicate IsCopy(p: Packet) { p.Copy? || p.CopySignal? }

  /**
   Byte k of the copy at place q of the stream is left alone: its source by the packets before
   the copy, its destination by those behind it and by the signal of the copy itself.
   */
  predicate Unhurt(ps: seq<Packet>, q: nat, k: nat)
    requires q < |ps| && IsCopy(ps[q])
  {
    var p := ps[q];
    && (forall m :: 0 <= m < q ==> !Touches(ps[m], p.src + k))
    && (forall m :: q < m < |ps| ==> !Touches(ps[m], p.dst + k))
    && (p.CopySignal? ==> p.dst + k < p.addr || p.addr + 8 <= p.dst + k)
  }

  /** Before the copy its source byte is as at the start, and after it its destination byte is that. */
  predicate Arrives(start: Memory, mem: Memory, ran: nat, p: Packet, q: nat, k: nat)
    requires IsCopy(p)
  {
    ByteAt(mem, if ran <= q then p.src + k else p.dst + k) == ByteAt(start, p.src + k)
  }

  lemma PacketArrives(start: Memory, mem: Memory, ps: seq<Packet>, ran: nat, q: nat, k: nat)
    requires ran < |ps| && q < |ps| && IsCopy(ps[q]) && k < ps[q].size && Unhurt(ps, q, k)
    requires Arrives(start, mem, ran, ps[q], q, k)
    ensures Arrives(start, Exec(mem, ps[ran]), ran + 1, ps[q], q, k)
  {
    hide Exec; hide Touches;
    if ran == q {
      CopyMoves(mem, ps[q], k);
    } else {
      ExecFrame(mem, ps[ran], if ran < q then ps[q].src + k else ps[q].dst + k);
    }
  }

  /** How one step changes memory and what has been run. */
  lemma StepRuns(c: Config, s: State, e: Event)
    requires QueueInv(c, s) && Enabled(c, s, e)
    ensures var r, n := s.g.ring, Step(c, s, e).g.ring;
            if e.Engine? then |n.executed| == |r.executed| + 1 && r.executed < n.executed &&
                              n.mem == Exec(r.mem, n.executed[|r.executed|])
            else n.executed == r.executed && n.mem == if e.Outside? then r.mem[e.a := e.v] else r.mem
  {
    hide Inv; hide Granted; hide ThreadsOk; hide Decode; hide Window; hide Exec; hide RunThread;
    match e
    case Engine => ExecutePreserves(c, s.g.ring);
    case Outside(_, _) =>
    case _ => ProducersKeepMemory(c, s, e);
  }

  lemma {:induction false} CopyOnTheWay(c: Config, ss: seq<State>, es: seq<Event>, i: nat, ps: seq<Packet>, q: nat,
                                        k: nat)
    requires IsRun(c, ss, es) && i < |ss| && ss[i].g.ring.executed <= ps
    requires q < |ps| && IsCopy(ps[q]) && k < ps[q].size && Unhurt(ps, q, k)
    requires forall m :: 0 <= m < i && es[m].Outside? ==> es[m].a != ps[q].src + k && es[m].a != ps[q].dst + k
    ensures Arrives(ss[0].g.ring.mem, ss[i].g.ring.mem, |ss[i].g.ring.executed|, ps[q], q, k)
  {
    hide Step; hide Enabled; hide QueueInv; hide Unhurt;
    if i == 0 {
      StartsIdle(c, ss[0]);
    } else {
      RunKeepsInv(c, ss, es, i - 1);
      StepRuns(c, ss[i - 1], es[i - 1]);
      var before, after := ss[i - 1].g.ring, ss[i].g.ring;
      CopyOnTheWay(c, ss, es, i - 1, ps, q, k);
      if es[i - 1].Engine? {
        assert after.executed[|before.executed|] == ps[|before.executed|];
        PacketArrives(ss[0].g.ring.mem, before.mem, ps, |before.executed|, q, k);
      }
    }
  }

  lemma StartsIdle(c: Config, s: State)
    requires Init(c, s)
    ensures s.g.ring.executed == []
  {
  }

  /**
   Data arrives: along every run, a byte that a copy has brought over is the source byte of the
   initial memory, if no earlier packet wrote the source, no later one and no signal the
   destination, and nothing outside either.
   */
  lemma CopyArrives(c: Config, ss: seq<State>, es: seq<Event>, i: nat, q: nat, k: nat)
    requires IsRun(c, ss, es) && i < |ss| && q < |ss[i].g.ring.executed|
    requires var ps := ss[i].g.ring.executed;
             && IsCopy(ps[q]) && k < ps[q].size && Unhurt(ps, q, k)
             && forall m :: 0 <= m < i && es[m].Outside? ==> es[m].a != ps[q].src + k && es[m].a != ps[q].dst + k
    ensures var p := ss[i].g.ring.executed[q];
            ByteAt(ss[i].g.ring.mem, p.dst + k) == ByteAt(ss[0].g.ring.mem, p.src + k)
  {
    hide IsRun; hide Unhurt;
    CopyOnTheWay(c, ss, es, i, ss[i].g.ring.executed, q, k);
  }

  // ---------------------------------------------------------------- requests

  predicate OutsideCell(x: Option<U64>, b: int) { x.Some? ==> b < x.value || x.value + 8 <= b }

  /** The signal and the counter of a request do not lie on byte b. */
  predicate SignalsLeave(g: Generation, r: Request, b: int) {
    OutsideCell(Rounded(g, r).signal, b) && OutsideCell(Rounded(g, r).counter, b)
  }

  /** A request does not write byte b. */
  predicate Leaves(g: Generation, r: Request, b: int) {
    (r.put.Some? ==> b < r.put.value.dst || r.put.value.dst + r.put.value.size <= b) && SignalsLeave(g, r, b)
  }

  lemma BatchLeaves(g: Generation, r: Request, b: int, p: nat)
    requires ValidRequest(r) && p < |PlacedBatch(g, r)|
    ensures Leaves(g, r, b) ==> !Touches(PlacedBatch(g, r)[p], b)
    ensures SignalsLeave(g, r, b) && r.put.Some? && p > 0 ==> !Touches(PlacedBatch(g, r)[p], b)
    ensures SignalsLeave(g, r, b) && PlacedBatch(g, r)[p].CopySignal? ==>
              b < PlacedBatch(g, r)[p].addr || PlacedBatch(g, r)[p].addr + 8 <= b
  {
  }

  /** The packet at a place of a stream of regions, as a packet of one of them. */
  lemma {:induction false} FlattenFind(rs: seq<Region>, q: nat) returns (j: nat, p: nat)
    requires q < |Flatten(rs)|
    ensures j < |rs| && p < |rs[j].packets| && q == |Flatten(rs[..j])| + p && Flatten(rs)[q] == rs[j].packets[p]
  {
    if q < |rs[0].packets| {
      j, p := 0, q;
    } else {
      j, p := FlattenFind(rs[1..], q - |rs[0].packets|);
      j := j + 1;
      assert rs[..j][1..] == rs[1..][..j - 1];
    }
  }

  /** A packet reserved for requests, other than the copy of request j, leaves byte b alone. */
  lemma PacketLeaves(c: Config, g: Shared, rs: seq<Request>, j: nat, b: int, m: nat, p: nat)
    requires ValidConfig(c) && Granted(c, g.ring.regions, g.log) && Asked(c, g.log, rs)
    requires j < |rs| && rs[j].put.Some? && m < |rs| && p < |g.ring.regions[m].packets|
    requires m != j || p != FirstOfBatch(c, g.ring.regions[j], g.log[j].op)
    requires if m == j then SignalsLeave(c.gen, rs[m], b) else Leaves(c.gen, rs[m], b)
    ensures !Touches(g.ring.regions[m].packets[p], b)
  {
    hide ValidOp; hide Size; hide Pad; hide PlacedBatch; hide Leaves; hide SignalsLeave;
    var r := g.ring.regions[m];
    var pad := PadPackets(Pad(c, r.base, Bytes(g.log[m].op.packets)));
    if p >= |pad| { BatchLeaves(c.gen, rs[m], b, p - |pad|); }
  }

  /** Requests other than number j, and its own signals, leave a byte alone. */
  predicate AllLeave(g: Generation, rs: seq<Request>, j: nat, b: int) {
    forall m :: 0 <= m < |rs| ==> if m == j then SignalsLeave(g, rs[m], b) else Leaves(g, rs[m], b)
  }

  lemma StreamLeaves(c: Config, g: Shared, rs: seq<Request>, j: nat, b: int, q: nat, m: nat)
    requires SharedOk(c, g) && Asked(c, g.log, rs) && j < |rs| && rs[j].put.Some? && AllLeave(c.gen, rs, j, b)
    requires q == |Flatten(g.ring.regions[..j])| + FirstOfBatch(c, g.ring.regions[j], g.log[j].op)
    requires m < |g.ring.executed| && m != q
    ensures !Touches(g.ring.executed[m], b)
  {
    hide Granted; hide FirstOfBatch; hide Leaves; hide SignalsLeave; hide Flatten;
    ExecutedIsPrefix(c, g.ring);
    hide Inv;
    var n, p := FlattenFind(g.ring.regions, m);
    GrantedLength(c, g);
    PacketLeaves(c, g, rs, j, b, n, p);
  }

  lemma GrantedLength(c: Config, g: Shared)
    requires SharedOk(c, g)
    ensures |g.log| == |g.ring.regions| && Granted(c, g.ring.regions, g.log)
  {
    hide Inv;
  }

  lemma ExecutedIsPrefix(c: Config, r: Ring)
    requires Inv(c, r)
    ensures r.executed <= Flatten(r.regions)
  {
    hide Inv; hide Flatten;
    WindowDecodes(c, r);
    RegionsCover(c, r);
    FlattenSplit(r.regions, r.published);
  }

  lemma RegionsCover(c: Config, r: Ring)
    requires Inv(c, r)
    ensures r.published <= |r.regions| && Position(r.regions, r.published, r.region, r.packet)
  {
  }

  /**
   waitSignal on data. Along every run of requests as in PutSignalCovers, when waitSignal(a, n)
   returns, byte k of the destination of each covered request is byte k of its source in the
   initial memory, if the other requests, its own signal and counter, and writes from outside
   leave the two bytes alone.
   */
  lemma PutSignalDelivers(c: Config, ss: seq<State>, es: seq<Event>, i: nat, rs: seq<Request>, t: nat, a: int, n: nat,
                          j: nat, k: nat)
    requires IsRun(c, ss, es) && i < |ss| && Read64(ss[0].g.ring.mem, a) == 0
    requires forall m :: 0 <= m < |es| && es[m].Outside? ==> es[m].a < a || a + 8 <= es[m].a
    requires Asked(c, ss[i].g.log, rs) && (forall m :: 0 <= m < |rs| ==> Polite(c.gen, rs[m], a))
    requires WaitReturns(c, ss[i], t, a, n)
    requires j < |rs| && rs[j].put.Some? && IncrementsOf(c.gen, rs[..j], a) < n && k < rs[j].put.value.size
    requires var x, y := rs[j].put.value.src + k, rs[j].put.value.dst + k;
             && AllLeave(c.gen, rs, j, x) && AllLeave(c.gen, rs, j, y)
             && forall m :: 0 <= m < i && es[m].Outside? ==> es[m].a != x && es[m].a != y
    ensures ByteAt(ss[i].g.ring.mem, rs[j].put.value.dst + k) == ByteAt(ss[0].g.ring.mem, rs[j].put.value.src + k)
  {
    hide IsRun; hide Inv; hide WaitReturns; hide Polite; hide AllLeave; hide Asked; hide Flatten; hide ThreadsOk;
    hide Granted; hide Read64; hide FirstOfBatch; hide Touches; hide IncrementsOf; hide HasRun;
    PutSignalCovers(c, ss, es, i, rs, t, a, n, j);
    RunKeepsInv(c, ss, es, i);
    var g := ss[i].g;
    var first := FirstOfBatch(c, g.ring.regions[j], g.log[j].op);
    var q, ps := |Flatten(g.ring.regions[..j])| + first, g.ring.executed;
    assert IsCopy(ps[q]) && ps[q].src == rs[j].put.value.src && ps[q].dst == rs[j].put.value.dst;
    forall m | 0 <= m < |ps| && m != q
      ensures !Touches(ps[m], ps[q].src + k) && !Touches(ps[m], ps[q].dst + k)
    {
      StreamLeaves(c, g, rs, j, ps[q].src + k, q, m);
      StreamLeaves(c, g, rs, j, ps[q].dst + k, q, m);
    }
    OwnSignalLeaves(c, g, rs, j, ps[q].dst + k);
    CopyArrives(c, ss, es, i, q, k);
  }

  lemma OwnSignalLeaves(c: Config, g: Shared, rs: seq<Request>, j: nat, b: int)
    requires SharedOk(c, g) && Asked(c, g.log, rs) && j < |rs| && rs[j].put.Some? && AllLeave(c.gen, rs, j, b)
    ensures var first := FirstOfBatch(c, g.ring.regions[j], g.log[j].op);
            && first < |g.ring.regions[j].packets|
            && (g.ring.regions[j].packets[first].CopySignal? ==>
                var p := g.ring.regions[j].packets[first]; b < p.addr || p.addr + 8 <= b)
  {
    hide Inv; hide ValidOp; hide Size; hide Pad; hide PlacedBatch; hide Leaves; hide SignalsLeave; hide PadPackets;
    CopyStandsFirst(c, g, rs, j);
    BatchLeaves(c.gen, rs[j], b, 0);
  }
}
