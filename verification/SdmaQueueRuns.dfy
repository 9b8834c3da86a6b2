/**
 What holds along every run of the multi-producer queue: FIFO delivery, ring and store
 safety, and the publish order.
 */
module SdmaQueueRuns {
  import opened SdmaPackets
  import opened SdmaRing
  import opened SdmaQueue

  /** A run: an initial state and one enabled event per step, in any interleaving. */
  ghost predicate IsRun(c: Config, ss: seq<State>, es: seq<Event>) {
    && |ss| == |es| + 1 && Init(c, ss[0])
    && forall i :: 0 <= i < |es| ==> Enabled(c, ss[i], es[i]) && ss[i + 1] == Step(c, ss[i], es[i])
  }

  lemma {:induction false} RunKeepsInv(c: Config, ss: seq<State>, es: seq<Event>, i: nat)
    requires IsRun(c, ss, es) && i < |ss|
    ensures QueueInv(c, ss[i])
  {
    hide QueueInv; hide Init; hide Step; hide Enabled;
    if i == 0 {
      InitHolds(c, ss[0]);
    } else {
      RunKeepsInv(c, ss, es, i - 1);
      StepPreserves(c, ss[i - 1], es[i - 1]);
    }
  }

  /** The states some run leads to. */
  ghost predicate Reachable(c: Config, s: State) {
    exists ss: seq<State>, es: seq<Event> :: IsRun(c, ss, es) && ss[|es|] == s
  }

  lemma ReachableInv(c: Config, s: State)
    requires Reachable(c, s)
    ensures QueueInv(c, s)
  {
    hide QueueInv; hide Init; hide Step; hide Enabled;
    var ss: seq<State>, es: seq<Event> :| IsRun(c, ss, es) && ss[|es|] == s;
    RunKeepsInv(c, ss, es, |es|);
  }

  // ---------------------------------------------------------------- FIFO

  function Useful(ps: seq<Packet>): seq<Packet> {
    if ps == [] then [] else (if ps[0].Nop? then [] else [ps[0]]) + Useful(ps[1..])
  }

  /** The packets of a sequence of reservations, without their padding. */
  function Batches(log: seq<Entry>): seq<Packet> {
    if log == [] then [] else log[0].op.packets + Batches(log[1..])
  }

  lemma {:induction false} UsefulAppend(a: seq<Packet>, b: seq<Packet>)
    ensures Useful(a + b) == Useful(a) + Useful(b)
  {
    if a == [] {
      assert a + b == b;
    } else {
      assert (a + b)[1..] == a[1..] + b;
      UsefulAppend(a[1..], b);
    }
  }

  lemma {:induction false} UsefulAll(ps: seq<Packet>)
    requires forall i :: 0 <= i < |ps| ==> !ps[i].Nop?
    ensures Useful(ps) == ps
  {
    if ps != [] { UsefulAll(ps[1..]); }
  }

  lemma UsefulGrant(c: Config, base: nat, op: Op)
    requires ValidConfig(c) && ValidOp(c, op)
    ensures Useful(Grant(c, base, op)) == op.packets
  {
    hide Size; hide Encodable; hide Pad; hide PadPackets; hide Useful;
    var pad := Pad(c, base, Bytes(op.packets));
    UsefulAppend(PadPackets(pad), op.packets);
    UsefulAll(op.packets);
    UsefulPad(pad);
  }

  lemma UsefulPad(pad: nat)
    ensures Useful(PadPackets(pad)) == []
  {
  }

  lemma {:induction false} UsefulRegions(c: Config, rs: seq<Region>, log: seq<Entry>)
    requires ValidConfig(c) && Granted(c, rs, log)
    ensures Useful(Flatten(rs)) == Batches(log)
  {
    hide Size; hide ValidOp; hide Grant;
    if rs != [] {
      assert Granted(c, rs[1..], log[1..]);
      UsefulGrant(c, rs[0].base, log[0].op);
      UsefulAppend(rs[0].packets, Flatten(rs[1..]));
      UsefulRegions(c, rs[1..], log[1..]);
    }
  }

  /**
   FIFO refinement. At every moment of every run, what the engine has run followed by what
   an engine decodes between rptr and wptr is the padding and the batches of the published
   reservations in reservation order, each once; without the NOPs it is the batches alone.
   */
  lemma Fifo(c: Config, s: State)
    requires Reachable(c, s)
    ensures SharedOk(c, s.g)
    ensures var g := s.g; var r := g.ring;
            && r.rptr <= r.wptr
            && (forall j :: 0 <= j < |r.regions| ==> r.regions[j].packets == Grant(c, r.regions[j].base, g.log[j].op))
            && var window := DecodeAll(c.gen, Window(c, r));
               && window.Some?
               && r.executed + window.value == Flatten(r.regions[..r.published])
               && Useful(r.executed + window.value) == Batches(g.log[..r.published])
  {
    hide Size; hide ValidOp; hide Grant; hide Decode; hide Window; hide DecodeAll; hide Intact; hide ThreadsOk;
    ReachableInv(c, s);
    var g := s.g;
    WindowDecodes(c, g.ring);
    UsefulRegions(c, g.ring.regions[..g.ring.published], g.log[..g.ring.published]);
  }

  // ---------------------------------------------------------------- ring safety

  predicate NotAcross(c: Config, base: nat, ps: seq<Packet>, p: nat)
    requires ValidConfig(c) && p < |ps|
  {
    Wrap(c, base + Bytes(ps[..p])) + 4 * Dwords(ps[p]) <= c.ringBytes
  }

  /** Packets placed inside the room left before the ring end do not cross it. */
  lemma RoomForAll(c: Config, base: nat, ps: seq<Packet>, p: nat)
    requires ValidConfig(c) && Wrap(c, base) + Bytes(ps) <= c.ringBytes && p < |ps|
    ensures NotAcross(c, base, ps, p)
  {
    hide Size; hide Dwords; hide Wrap;
    SizeAt(ps, p);
    WrapAdvance(c, base, Bytes(ps[..p]));
  }

  /** Padding ends exactly at the ring end, and no packet of a grant crosses it. */
  lemma PaddedGrant(c: Config, base: nat, op: Op, p: nat)
    requires ValidConfig(c) && ValidOp(c, op) && base % 4 == 0 && Bytes(op.packets) <= c.ringBytes
    requires Pad(c, base, Bytes(op.packets)) > 0 && p < |Grant(c, base, op)|
    ensures NotAcross(c, base, Grant(c, base, op), p)
    ensures Wrap(c, base) + 4 * Dwords(Grant(c, base, op)[0]) == c.ringBytes
  {
    hide Size; hide Wrap; hide ValidOp; hide EncodeAll; hide PlacedWords; hide Encodable;
    var pad, ps := Pad(c, base, Bytes(op.packets)), Grant(c, base, op);
    PadFacts(c, base, op);
    var nop := Nop(pad / 4 - 1);
    assert ps == [nop] + op.packets;
    if p == 0 {
      assert ps[..0] == [];
      SizeEmpty();
    } else {
      assert ps[..p] == [nop] + op.packets[..p - 1];
      SizeAppend([nop], op.packets[..p - 1]);
      SizeOne(nop);
      WrapToStart(c, base, pad);
      RoomForAll(c, base + pad, op.packets, p - 1);
    }
  }

  lemma GrantNotAcross(c: Config, base: nat, op: Op, p: nat)
    requires ValidConfig(c) && ValidOp(c, op) && base % 4 == 0
    requires Bytes(Grant(c, base, op)) < c.ringBytes && p < |Grant(c, base, op)|
    ensures NotAcross(c, base, Grant(c, base, op), p)
  {
    hide Size; hide Wrap; hide ValidOp; hide NotAcross;
    PadFacts(c, base, op);
    if Pad(c, base, Bytes(op.packets)) == 0 {
      assert Grant(c, base, op) == op.packets;
      RoomForAll(c, base, op.packets, p);
    } else {
      PaddedGrant(c, base, op, p);
    }
  }

  /**
   Ring safety. Reservations are contiguous and pairwise disjoint, everything reserved is
   less than a ring ahead of the read pointer, and no packet crosses the ring end.
   */
  lemma RingSafe(c: Config, s: State)
    requires Reachable(c, s)
    ensures SharedOk(c, s.g)
    ensures var r := s.g.ring;
            && Chained(c, r.regions) && r.limit == Boundary(c, r.regions, |r.regions|)
            && (forall j, k :: 0 <= j < k < |r.regions| ==> End(r.regions[j]) <= r.regions[k].base)
            && r.rptr <= r.limit < r.rptr + c.ringBytes
            && (forall j, p :: 0 <= j < |r.regions| && 0 <= p < |r.regions[j].packets| ==>
                  NotAcross(c, r.regions[j].base, r.regions[j].packets, p))
  {
    hide Size; hide ValidOp; hide Grant; hide Intact; hide Before; hide IndexOf; hide NotAcross; hide ThreadsOk;
    ReachableInv(c, s);
    var r := s.g.ring;
    PointersOrdered(c, r);
    forall j, p | 0 <= j < |r.regions| && 0 <= p < |r.regions[j].packets|
      ensures NotAcross(c, r.regions[j].base, r.regions[j].packets, p)
    {
      GrantNotAcross(c, r.regions[j].base, s.g.log[j].op, p);
    }
  }

  /** The dword at index b is not overwritten by a store to index at. */
  predicate Spared(c: Config, at: nat, b: nat)
    requires ValidConfig(c)
  {
    Slot(c, b) != Slot(c, at)
  }

  /**
   Store safety. The dword a producer stores lies in its own reservation, not in any other,
   behind the write pointer, and overwrites no reserved dword the engine has not passed.
   */
  lemma StoreSafe(c: Config, s: State, t: nat)
    requires Reachable(c, s) && t < |s.threads| && s.threads[t].pc.Place?
    ensures SharedOk(c, s.g)
    ensures var r := s.g.ring; var pc := s.threads[t].pc; var at := pc.base + 4 * pc.k;
            && pc.ticket < |r.regions| && r.regions[pc.ticket].base <= at < End(r.regions[pc.ticket])
            && ClearOfOthers(r.regions, pc.ticket, at)
            && r.rptr <= r.wptr <= at < r.rptr + c.ringBytes
            && SparesReserved(c, r, at)
  {
    hide Size; hide Granted; hide Inv; hide Owned; hide MemoryOk; hide Reachable; hide ClearOfOthers;
    hide SparesReserved;
    ReachableInv(c, s);
    assert PcOk(c, s.g, t, s.threads[t]);
    var r, pc := s.g.ring, s.threads[t].pc;
    assert r.regions[pc.ticket].base == pc.base && r.placed[pc.ticket] == pc.k;
    StoreInFreeSpace(c, r, pc.ticket);
    StoreSpares(c, r, pc.ticket);
    OutsideOthers(c, r, pc.ticket, pc.k);
  }

  /** Index at lies in no region but number ticket. */
  predicate ClearOfOthers(rs: seq<Region>, ticket: nat, at: nat) {
    forall j :: 0 <= j < |rs| && j != ticket ==> at < rs[j].base || End(rs[j]) <= at
  }

  /** A store at index at overwrites no other reserved dword the engine has not passed. */
  predicate SparesReserved(c: Config, r: Ring, at: nat)
    requires ValidConfig(c)
  {
    forall b :: r.rptr <= b < r.limit && b % 4 == 0 && b != at ==> Spared(c, at, b)
  }

  lemma StoreSpares(c: Config, r: Ring, j: nat)
    requires Inv(c, r) && r.published <= j < |r.regions| && r.placed[j] < Size(r.regions[j].packets)
    ensures SparesReserved(c, r, r.regions[j].base + 4 * r.placed[j])
  {
    hide Inv; hide Size; hide Slot;
    StorePlace(c, r, j);
    var at := r.regions[j].base + 4 * r.placed[j];
    forall b | r.rptr <= b < r.limit && b % 4 == 0 && b != at
      ensures Spared(c, at, b)
    {
      if b < at { SlotDistinct(c, b, at); } else { SlotDistinct(c, at, b); }
    }
  }

  lemma StorePlace(c: Config, r: Ring, j: nat)
    requires Inv(c, r) && r.published <= j < |r.regions| && r.placed[j] < Size(r.regions[j].packets)
    ensures ValidConfig(c) && r.limit < r.rptr + c.ringBytes && |r.placed| == |r.regions|
    ensures var at := r.regions[j].base + 4 * r.placed[j]; at % 4 == 0 && r.rptr <= at < r.rptr + c.ringBytes
  {
    hide Size; hide Slot; hide Before; hide IndexOf; hide Intact; hide Ordered; hide Chained; hide Encodable;
    StoreInFreeSpace(c, r, j);
  }

  lemma OutsideOthers(c: Config, r: Ring, ticket: nat, k: nat)
    requires Inv(c, r) && ticket < |r.regions| && k < Size(r.regions[ticket].packets)
    ensures ClearOfOthers(r.regions, ticket, r.regions[ticket].base + 4 * k)
  {
    hide Size; hide Holds; hide Before; hide IndexOf;
  }

  // ---------------------------------------------------------------- publish order

  predicate Publishing(pc: Pc) { pc.StoreWptr? || pc.StoreDoorbell? || pc.StoreCommitted? }

  /** The wptr, doorbell and committedWptr stores are a critical section. */
  lemma PublishExclusive(c: Config, s: State, t: nat, u: nat)
    requires Reachable(c, s) && t < |s.threads| && u < |s.threads|
    requires Publishing(s.threads[t].pc) && Publishing(s.threads[u].pc)
    ensures t == u
  {
    hide Inv; hide Granted; hide Size; hide MemoryOk; hide Reachable;
    ReachableInv(c, s);
    assert PcOk(c, s.g, t, s.threads[t]) && PcOk(c, s.g, u, s.threads[u]);
  }

  /** wptr, doorbell and committedWptr sit on boundaries of reservations that are fully placed. */
  lemma OnPlacedBoundary(c: Config, s: State)
    requires Reachable(c, s)
    ensures var g := s.g; var r := g.ring;
            && g.committed <= g.rung <= r.published <= |r.regions| == |r.placed|
            && r.wptr == Boundary(c, r.regions, r.published)
            && g.doorbell == Boundary(c, r.regions, g.rung)
            && g.committedWptr == Boundary(c, r.regions, g.committed)
            && (forall j :: 0 <= j < r.published ==> r.placed[j] == Size(r.regions[j].packets))
  {
    hide Intact; hide Granted; hide Size; hide ThreadsOk; hide Before; hide IndexOf; hide Reachable;
    ReachableInv(c, s);
  }

  /** While anything is uncommitted, exactly one outstanding reservation has its turn, and is held. */
  lemma ExactlyOneTurn(c: Config, s: State)
    requires Reachable(c, s) && s.g.committedWptr < s.g.ring.limit
    ensures var g := s.g;
            && |g.log| == |g.ring.regions| && g.committed < |g.log| && g.log[g.committed].owner < |s.threads|
            && HeldTicket(s.threads[g.log[g.committed].owner].pc) == Some(g.committed)
            && (forall j :: g.committed <= j < |g.log| ==>
                  (g.ring.regions[j].base == g.committedWptr <==> j == g.committed))
  {
    hide Granted; hide Size; hide ThreadsOk; hide Intact; hide Before; hide IndexOf; hide Reachable;
    ReachableInv(c, s);
    var g := s.g;
    forall j | g.committed <= j < |g.log|
      ensures g.ring.regions[j].base == g.committedWptr <==> j == g.committed
    {
      TurnIffNext(c, g, g.log[j].owner, g.log[j].op, j, g.ring.regions[j].base);
    }
  }

  /** The pointers never move back. */
  lemma {:induction false} PointersGrow(c: Config, ss: seq<State>, es: seq<Event>, i: nat, k: nat)
    requires IsRun(c, ss, es) && i <= k < |ss|
    ensures ss[i].g.ring.wptr <= ss[k].g.ring.wptr && ss[i].g.doorbell <= ss[k].g.doorbell
    ensures ss[i].g.committedWptr <= ss[k].g.committedWptr
    ensures ss[i].g.ring.rptr <= ss[k].g.ring.rptr && ss[i].g.ring.limit <= ss[k].g.ring.limit
    ensures ss[i].g.ring.regions <= ss[k].g.ring.regions && ss[i].g.log <= ss[k].g.log
    decreases k
  {
    hide Step; hide Enabled; hide QueueInv; hide Init;
    if i < k {
      PointersGrow(c, ss, es, i, k - 1);
      RunKeepsInv(c, ss, es, k - 1);
      StepGrows(c, ss[k - 1], es[k - 1]);
    }
  }

  lemma StepGrows(c: Config, s: State, e: Event)
    requires QueueInv(c, s) && Enabled(c, s, e)
    ensures var s' := Step(c, s, e);
            && s.g.ring.wptr <= s'.g.ring.wptr && s.g.doorbell <= s'.g.doorbell
            && s.g.committedWptr <= s'.g.committedWptr
            && s.g.ring.rptr <= s'.g.ring.rptr && s.g.ring.limit <= s'.g.ring.limit
            && s.g.ring.regions <= s'.g.ring.regions && s.g.log <= s'.g.log
  {
    hide Size; hide Granted; hide Inv; hide Decode; hide Window; hide Exec; hide PlacedWords; hide Slot;
    hide Pad; hide Fits; hide Read64; hide MemoryOk;
    if e.Run? {
      var th := s.threads[e.t];
      assert PcOk(c, s.g, e.t, th);
      if Publishing(th.pc) {
        PublishGrows(c, s.g, e.t, th);
      }
    } else if e.Engine? {
      ExecutePreserves(c, s.g.ring);
    }
  }

  lemma InvOrdered(c: Config, r: Ring, j: nat)
    requires Inv(c, r) && j < |r.regions|
    ensures Ordered(c, r.regions) && r.wptr == Boundary(c, r.regions, r.published)
    ensures Boundary(c, r.regions, j + 1) == End(r.regions[j])
  {
    hide Size; hide Intact; hide Before; hide IndexOf;
  }

  lemma PublishGrows(c: Config, g: Shared, t: nat, th: Thread)
    requires SharedOk(c, g) && PcOk(c, g, t, th) && Publishing(th.pc)
    ensures NewIndex(c, th.pc.base, th.pc.op) >= g.ring.wptr >= g.doorbell >= g.committedWptr
  {
    hide Size; hide Granted; hide Inv; hide NewIndex; hide MemoryOk; hide Boundary; hide End;
    HeldRegion(c, g, t, th.pc.op, th.pc.ticket, th.pc.base);
    InvOrdered(c, g.ring, th.pc.ticket);
    BoundaryMonotone(c, g.ring.regions, g.committed, g.rung);
    BoundaryMonotone(c, g.ring.regions, g.rung, g.ring.published);
    BoundaryMonotone(c, g.ring.regions, g.ring.published, th.pc.ticket + 1);
  }
}
