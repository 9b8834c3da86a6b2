/**
 SdmaQueueHandle: any number of producers and the engine, one atomic load, store or
 compare-and-swap at a time.

 A producer runs ReserveQueueSpace (LoadIndex, Test, ReadHw, Cas), placePacket (Place, one
 dword per step) and submitPacket (AwaitTurn, StoreWptr, StoreDoorbell, StoreCommitted),
 or polls in quietAll and waitSignal. The shared cachedWptr is ring.limit. Steps are
 sequentially consistent; log, committed, rung and the tickets are history variables.
 */
module SdmaQueue {
  import opened Modular
  import opened SdmaPackets
  import opened SdmaRing

  /**
   One batch: its packets, whether ReserveQueueSpace was given the per-thread state
   (cached read index) and whether submitPacket was (maxWritePtr tracking).
   */
  datatype Op = Op(packets: seq<Packet>, cached: bool, tracked: bool)

  predicate ValidOp(c: Config, op: Op) {
    && op.packets != [] && AllEncodable(c.gen, op.packets)
    && (forall i :: 0 <= i < |op.packets| ==> !op.packets[i].Nop?)
    && Bytes(op.packets) <= 0x1_0000
  }

  /** Unsigned 64-bit subtraction. */
  function SubU64(a: nat, b: nat): nat { (a - b) % 0x1_0000_0000_0000_0000 }

  /** The test of CanWriteUpto against a read index. */
  predicate Fits(c: Config, upto: nat, hw: nat) { SubU64(upto, hw) < c.ringBytes }

  /** NOP bytes ReserveQueueSpace puts in front of a batch that would cross the ring end. */
  function Pad(c: Config, cur: nat, size: nat): nat
    requires ValidConfig(c)
  {
    if Wrap(c, cur) + size > c.ringBytes then c.ringBytes - Wrap(c, cur) else 0
  }

  /** new_index of ReserveQueueSpace, and the pendingWptr after the last placePacket. */
  function NewIndex(c: Config, cur: nat, op: Op): nat
    requires ValidConfig(c)
  {
    cur + Pad(c, cur, Bytes(op.packets)) + Bytes(op.packets)
  }

  function PadPackets(pad: nat): seq<Packet> { if pad < 4 then [] else [Nop(pad / 4 - 1)] }

  function Grant(c: Config, base: nat, op: Op): seq<Packet>
    requires ValidConfig(c)
  {
    PadPackets(Pad(c, base, Bytes(op.packets))) + op.packets
  }

  /** What placePacket stores for a batch: the padding, then the packets. */
  function PlacedWords(c: Config, base: nat, op: Op): seq<U32>
    requires ValidConfig(c) && AllEncodable(c.gen, op.packets)
  {
    PadWords(Pad(c, base, Bytes(op.packets)) / 4) + EncodeAll(c.gen, op.packets)
  }

  datatype Pc =
    | Idle
    | LoadIndex(op: Op)
    | Test(op: Op, cur: nat)
    | ReadHw(op: Op, cur: nat)
    | Cas(op: Op, cur: nat, hw: nat)
    | Place(op: Op, ticket: nat, base: nat, k: nat)
    | AwaitTurn(op: Op, ticket: nat, base: nat)
    | StoreWptr(op: Op, ticket: nat, base: nat)
    | StoreDoorbell(op: Op, ticket: nat, base: nat)
    | StoreCommitted(op: Op, ticket: nat, base: nat)
    | Quiet(target: nat, viaState: bool)
    | Await(addr: int, expected: nat)

  /** A producer with its SdmaQueueState; last is the ticket of its latest submission. */
  datatype Thread = Thread(pc: Pc, cachedHw: nat, maxWrite: nat, last: Option<nat>)

  datatype Entry = Entry(owner: nat, op: Op)

  datatype Shared = Shared(ring: Ring, doorbell: nat, committedWptr: nat,
                           log: seq<Entry>, committed: nat, rung: nat)

  datatype State = State(g: Shared, threads: seq<Thread>)

  datatype Event =
    | Begin(t: nat, op: Op)
    | BeginQuiet(t: nat, viaState: bool)
    | BeginWait(t: nat, addr: int, expected: nat)
    | Run(t: nat)
    | Engine
    | Outside(a: int, v: Byte)

  predicate Init(c: Config, s: State) {
    && ValidConfig(c)
    && |s.g.ring.buf| == c.ringBytes / 4
    && s.g == Shared(Empty(c, s.g.ring.buf, s.g.ring.mem), c.start, c.start, [], 0, 0)
    && forall t :: 0 <= t < |s.threads| ==> s.threads[t] == Thread(Idle, 0, 0, None)
  }

  // ---------------------------------------------------------------- steps of one producer

  /** One step of thread th with index t; the CAS is assumed not to pass 2^64. */
  predicate CanRun(c: Config, g: Shared, t: nat, th: Thread) {
    && ValidConfig(c) && |g.ring.buf| == c.ringBytes / 4
    && match th.pc
       case Idle => false
       case Cas(op, cur, hw) => NewIndex(c, cur, op) < 0x1_0000_0000_0000_0000
       case Place(op, ticket, base, k) =>
         AllEncodable(c.gen, op.packets) && k < |PlacedWords(c, base, op)| && ticket < |g.ring.placed|
       case StoreWptr(_, _, _) => g.ring.published < |g.ring.regions|
       case _ => true
  }

  function RunThread(c: Config, g: Shared, t: nat, th: Thread): (r: (Shared, Thread))
    requires CanRun(c, g, t, th)
  {
    match th.pc
    case LoadIndex(op) => (g, th.(pc := Test(op, g.ring.limit)))
    case Test(op, cur) =>
      if op.cached && Fits(c, NewIndex(c, cur, op), th.cachedHw)
      then (g, th.(pc := Cas(op, cur, th.cachedHw)))
      else (g, th.(pc := ReadHw(op, cur)))
    case ReadHw(op, cur) =>
      var hw := g.ring.rptr;
      (g, th.(cachedHw := if op.cached then hw else th.cachedHw,
              pc := if Fits(c, NewIndex(c, cur, op), hw) then Cas(op, cur, hw) else LoadIndex(op)))
    case Cas(op, cur, hw) =>
      if g.ring.limit == cur then
        (g.(ring := Reserve(g.ring, Grant(c, cur, op)).(limit := NewIndex(c, cur, op)), log := g.log + [Entry(t, op)]),
         th.(pc := Place(op, |g.log|, cur, 0)))
      else (g, th.(pc := LoadIndex(op)))
    case Place(op, ticket, base, k) =>
      var ws := PlacedWords(c, base, op);
      (g.(ring := g.ring.(buf := g.ring.buf[Slot(c, base + 4 * k) := ws[k]], placed := g.ring.placed[ticket := k + 1])),
       th.(pc := if k + 1 == |ws| then AwaitTurn(op, ticket, base) else Place(op, ticket, base, k + 1)))
    case AwaitTurn(op, ticket, base) =>
      (g, if g.committedWptr == base then th.(pc := StoreWptr(op, ticket, base)) else th)
    case StoreWptr(op, ticket, base) =>
      (g.(ring := Publish(g.ring).(wptr := NewIndex(c, base, op))), th.(pc := StoreDoorbell(op, ticket, base)))
    case StoreDoorbell(op, ticket, base) =>
      (g.(doorbell := NewIndex(c, base, op), rung := g.rung + 1), th.(pc := StoreCommitted(op, ticket, base)))
    case StoreCommitted(op, ticket, base) =>
      (g.(committedWptr := NewIndex(c, base, op), committed := g.committed + 1),
       th.(pc := Idle, last := Some(ticket), maxWrite := if op.tracked then NewIndex(c, base, op) else th.maxWrite))
    case Quiet(target, _) => (g, if g.ring.rptr < target then th else th.(pc := Idle))
    case Await(addr, expected) => (g, if Read64(g.ring.mem, addr) < expected then th else th.(pc := Idle))
  }

  predicate Enabled(c: Config, s: State, e: Event) {
    match e
    case Begin(t, op) => t < |s.threads| && s.threads[t].pc.Idle? && ValidOp(c, op)
    case BeginQuiet(t, _) => t < |s.threads| && s.threads[t].pc.Idle?
    case BeginWait(t, _, _) => t < |s.threads| && s.threads[t].pc.Idle?
    case Run(t) => t < |s.threads| && CanRun(c, s.g, t, s.threads[t])
    case Engine =>
      && ValidConfig(c) && |s.g.ring.buf| == c.ringBytes / 4 && s.g.ring.rptr < s.g.ring.wptr
      && s.g.ring.region < |s.g.ring.regions| && Decode(c.gen, Window(c, s.g.ring)).Some?
    case Outside(_, _) => true
  }

  function Step(c: Config, s: State, e: Event): State
    requires Enabled(c, s, e)
  {
    match e
    case Begin(t, op) => s.(threads := s.threads[t := s.threads[t].(pc := LoadIndex(op))])
    case BeginQuiet(t, viaState) =>
      var target := if viaState then s.threads[t].maxWrite else s.g.ring.wptr;
      s.(threads := s.threads[t := s.threads[t].(pc := Quiet(target, viaState))])
    case BeginWait(t, addr, expected) =>
      s.(threads := s.threads[t := s.threads[t].(pc := Await(addr, expected))])
    case Run(t) =>
      var (g, th) := RunThread(c, s.g, t, s.threads[t]);
      State(g, s.threads[t := th])
    case Engine => s.(g := s.g.(ring := Execute(c, s.g.ring)))
    case Outside(a, v) => s.(g := s.g.(ring := s.g.ring.(mem := s.g.ring.mem[a := v])))
  }

  // ---------------------------------------------------------------- invariant

  function HeldTicket(pc: Pc): Option<nat> {
    match pc
    case Place(_, ticket, _, _) => Some(ticket)
    case AwaitTurn(_, ticket, _) => Some(ticket)
    case StoreWptr(_, ticket, _) => Some(ticket)
    case StoreDoorbell(_, ticket, _) => Some(ticket)
    case StoreCommitted(_, ticket, _) => Some(ticket)
    case _ => None
  }

  /** Thread t holds reservation number ticket, which starts at base and is for op. */
  predicate Holding(g: Shared, t: nat, op: Op, ticket: nat, base: nat)
    requires |g.log| == |g.ring.regions|
  {
    g.committed <= ticket < |g.log| && g.log[ticket] == Entry(t, op) && g.ring.regions[ticket].base == base
  }

  predicate FullyPlaced(g: Shared, ticket: nat)
    requires |g.ring.placed| == |g.ring.regions| && ticket < |g.ring.regions|
  {
    g.ring.placed[ticket] == Size(g.ring.regions[ticket].packets)
  }

  predicate PcOk(c: Config, g: Shared, t: nat, th: Thread)
    requires ValidConfig(c) && |g.log| == |g.ring.regions| == |g.ring.placed|
  {
    match th.pc
    case Idle => true
    case LoadIndex(op) => ValidOp(c, op)
    case Test(op, cur) => ValidOp(c, op) && cur <= g.ring.limit
    case ReadHw(op, cur) => ValidOp(c, op) && cur <= g.ring.limit
    case Cas(op, cur, hw) =>
      ValidOp(c, op) && cur <= g.ring.limit && hw <= g.ring.rptr && Fits(c, NewIndex(c, cur, op), hw)
    case Place(op, ticket, base, k) =>
      && Holding(g, t, op, ticket, base) && g.ring.published <= ticket
      && g.ring.placed[ticket] == k < Size(g.ring.regions[ticket].packets)
    case AwaitTurn(op, ticket, base) =>
      Holding(g, t, op, ticket, base) && g.ring.published <= ticket && FullyPlaced(g, ticket)
    case StoreWptr(op, ticket, base) =>
      Holding(g, t, op, ticket, base) && FullyPlaced(g, ticket) && ticket == g.committed == g.rung == g.ring.published
    case StoreDoorbell(op, ticket, base) =>
      Holding(g, t, op, ticket, base) && ticket == g.committed == g.rung && g.ring.published == ticket + 1
    case StoreCommitted(op, ticket, base) =>
      Holding(g, t, op, ticket, base) && ticket == g.committed && g.rung == g.ring.published == ticket + 1
    case Quiet(target, viaState) =>
      if viaState then target == th.maxWrite
      else th.last.Some? && th.last.value < |g.log| ==> End(g.ring.regions[th.last.value]) <= target
    case Await(_, _) => true
  }

  /** What a thread remembers of its submissions. */
  predicate MemoryOk(g: Shared, t: nat, th: Thread)
    requires |g.log| == |g.ring.regions| && g.committed <= |g.log|
  {
    && th.cachedHw <= g.ring.rptr
    && (forall i :: 0 <= i < g.committed && g.log[i].owner == t ==> th.last.Some? && i <= th.last.value)
    && (forall i :: 0 <= i < g.committed && g.log[i].owner == t && g.log[i].op.tracked ==>
          End(g.ring.regions[i]) <= th.maxWrite)
    && match th.last
       case None => th.maxWrite == 0
       case Some(j) =>
         && j < g.committed && g.log[j].owner == t
         && (g.log[j].op.tracked ==> th.maxWrite == End(g.ring.regions[j]))
         && (!g.log[j].op.tracked ==> th.maxWrite < End(g.ring.regions[j]))
  }

  /** Each reservation holds its padding and its batch. */
  predicate Granted(c: Config, rs: seq<Region>, log: seq<Entry>)
    requires ValidConfig(c)
  {
    && |log| == |rs|
    && forall j :: 0 <= j < |rs| ==>
         && ValidOp(c, log[j].op) && rs[j].packets == Grant(c, rs[j].base, log[j].op)
         && Bytes(rs[j].packets) < c.ringBytes
  }

  predicate SharedOk(c: Config, g: Shared) {
    && ValidConfig(c) && |g.log| == |g.ring.regions| == |g.ring.placed|
    && Inv(c, g.ring)
    && Granted(c, g.ring.regions, g.log)
    && g.committed <= g.rung <= g.ring.published <= |g.log|
    && g.ring.published <= g.committed + 1
    && g.committedWptr == Boundary(c, g.ring.regions, g.committed)
    && g.doorbell == Boundary(c, g.ring.regions, g.rung)
  }

  /** Every reservation not yet committed is held by its owner. */
  predicate Owned(s: State) {
    forall j :: s.g.committed <= j < |s.g.log| ==>
      s.g.log[j].owner < |s.threads| && HeldTicket(s.threads[s.g.log[j].owner].pc) == Some(j)
  }

  predicate ThreadsOk(c: Config, s: State)
    requires SharedOk(c, s.g)
  {
    forall t :: 0 <= t < |s.threads| ==> PcOk(c, s.g, t, s.threads[t]) && MemoryOk(s.g, t, s.threads[t])
  }

  predicate QueueInv(c: Config, s: State) {
    SharedOk(c, s.g) && Owned(s) && ThreadsOk(c, s)
  }

  // ---------------------------------------------------------------- padding

  lemma PadFacts(c: Config, cur: nat, op: Op)
    requires ValidConfig(c) && ValidOp(c, op) && cur % 4 == 0
    ensures Pad(c, cur, Bytes(op.packets)) % 4 == 0
    ensures Pad(c, cur, Bytes(op.packets)) < Bytes(op.packets)
    ensures Grant(c, cur, op) != [] && AllEncodable(c.gen, Grant(c, cur, op))
    ensures cur + Bytes(Grant(c, cur, op)) == NewIndex(c, cur, op)
    ensures EncodeAll(c.gen, Grant(c, cur, op)) == PlacedWords(c, cur, op)
  {
    hide EncodeAll; hide Size; hide Wrap;
    var pad := Pad(c, cur, Bytes(op.packets));
    SizePositive(op.packets);
    PadAligned(c, cur, Bytes(op.packets));
    if pad == 0 {
      assert PadWords(0) == [] && [] + op.packets == op.packets;
      assert PlacedWords(c, cur, op) == EncodeAll(c.gen, op.packets);
    } else {
      var nop := Nop(pad / 4 - 1);
      assert Encodable(c.gen, nop);
      EncodeOne(c.gen, nop);
      EncodeAppend(c.gen, [nop], op.packets);
      SizeAppend([nop], op.packets);
      SizeOne(nop);
    }
  }

  lemma PadAligned(c: Config, cur: nat, size: nat)
    requires ValidConfig(c) && cur % 4 == 0 && size > 0
    ensures Pad(c, cur, size) % 4 == 0 && Pad(c, cur, size) < size
  {
    ModMultiple(cur, c.ringBytes, 4);
  }

  // ---------------------------------------------------------------- preservation

  lemma InitHolds(c: Config, s: State)
    requires Init(c, s)
    ensures QueueInv(c, s)
  {
    hide Inv;
    EmptyInv(c, s.g.ring.buf, s.g.ring.mem);
  }

  /** g' differs from g by what a step of the holder of ticket x, or of the engine, may change. */
  predicate Follows(g: Shared, g': Shared, x: nat) {
    && |g.log| == |g.ring.regions| == |g.ring.placed|
    && |g'.log| == |g'.ring.regions| == |g'.ring.placed|
    && g.log <= g'.log && g.ring.regions <= g'.ring.regions
    && (forall j :: 0 <= j < |g.log| && j != x ==> g'.ring.placed[j] == g.ring.placed[j])
    && g.ring.limit <= g'.ring.limit && g.ring.rptr <= g'.ring.rptr
    && (|| (g'.committed == g.committed && g'.rung == g.rung && g'.ring.published == g.ring.published)
        || (&& x == g.committed && g.committed <= g'.committed <= g.committed + 1
            && g'.ring.published <= g.committed + 1))
  }

  /** A step of another thread leaves PcOk of th alone. */
  lemma OtherPcOk(c: Config, g: Shared, g': Shared, x: nat, t: nat, th: Thread)
    requires ValidConfig(c) && Follows(g, g', x) && g.committed <= |g.log| && g'.committed <= |g'.log|
    requires PcOk(c, g, t, th) && MemoryOk(g, t, th) && HeldTicket(th.pc) != Some(x)
    ensures PcOk(c, g', t, th)
  {
    hide Size; hide Encodable; hide Wrap; hide Fits;
    assert forall j :: 0 <= j < |g.log| ==> g'.log[j] == g.log[j] && g'.ring.regions[j] == g.ring.regions[j];
  }

  lemma OtherMemoryOk(c: Config, g: Shared, g': Shared, x: nat, t: nat, th: Thread)
    requires Follows(g, g', x) && g.committed <= |g.log| && g'.committed <= |g'.log|
    requires g'.committed > g.committed ==> g'.log[g.committed].owner != t
    requires MemoryOk(g, t, th)
    ensures MemoryOk(g', t, th)
  {
    hide Size;
    assert forall j :: 0 <= j < |g.log| ==> g'.log[j] == g.log[j] && g'.ring.regions[j] == g.ring.regions[j];
  }

  /** Lifts a step of thread t, holding ticket x before or after it, to the whole state. */
  lemma Lift(c: Config, s: State, t: nat, g': Shared, th': Thread, x: nat)
    requires QueueInv(c, s) && t < |s.threads|
    requires SharedOk(c, g') && Follows(s.g, g', x)
    requires PcOk(c, g', t, th') && MemoryOk(g', t, th')
    requires x < |s.g.log| ==> s.g.log[x].owner == t
    requires g'.committed > s.g.committed ==> s.g.committed < |s.g.log| && x == s.g.committed
    requires |g'.log| == |s.g.log| || (|g'.log| == |s.g.log| + 1 && g'.log[|s.g.log|].owner == t &&
                                       HeldTicket(th'.pc) == Some(|s.g.log|) && HeldTicket(s.threads[t].pc) == None)
    requires |g'.log| == |s.g.log| ==>
               HeldTicket(th'.pc) == HeldTicket(s.threads[t].pc) ||
               (HeldTicket(th'.pc) == None && HeldTicket(s.threads[t].pc) == Some(x) && g'.committed == x + 1)
    ensures QueueInv(c, State(g', s.threads[t := th']))
  {
    hide Size; hide Inv; hide Granted; hide PcOk; hide MemoryOk;
    var s' := State(g', s.threads[t := th']);
    forall u | 0 <= u < |s'.threads|
      ensures PcOk(c, g', u, s'.threads[u]) && MemoryOk(g', u, s'.threads[u])
    {
      if u != t {
        var th := s.threads[u];
        assert PcOk(c, s.g, u, th) && MemoryOk(s.g, u, th);
        if HeldTicket(th.pc).Some? { HeldByOwner(c, s, u); }
        OtherPcOk(c, s.g, g', x, u, th);
        OtherMemoryOk(c, s.g, g', x, u, th);
      }
    }
    forall j | g'.committed <= j < |g'.log|
      ensures g'.log[j].owner < |s'.threads| && HeldTicket(s'.threads[g'.log[j].owner].pc) == Some(j)
    {
      if j < |s.g.log| {
        assert g'.log[j] == s.g.log[j];
      }
    }
  }

  lemma HeldByOwner(c: Config, s: State, u: nat)
    requires QueueInv(c, s) && u < |s.threads| && HeldTicket(s.threads[u].pc).Some?
    ensures var j := HeldTicket(s.threads[u].pc).value;
            s.g.committed <= j < |s.g.log| && s.g.log[j].owner == u
  {
    hide Inv; hide Granted; hide Size;
    assert PcOk(c, s.g, u, s.threads[u]);
  }

  /** A step that leaves the shared state alone and keeps the ticket of its thread. */
  lemma LocalStep(c: Config, s: State, t: nat, th': Thread)
    requires QueueInv(c, s) && t < |s.threads|
    requires PcOk(c, s.g, t, th') && MemoryOk(s.g, t, th')
    requires HeldTicket(th'.pc) == HeldTicket(s.threads[t].pc)
    ensures QueueInv(c, State(s.g, s.threads[t := th']))
  {
    hide Inv; hide Granted; hide PcOk; hide MemoryOk; hide Size;
    var held := HeldTicket(th'.pc);
    if held.Some? { HeldByOwner(c, s, t); }
    Lift(c, s, t, s.g, th', if held.Some? then held.value else |s.g.log|);
  }

  /**
   A grant made with a stale read index would also have been made with the real one at the
   moment the CAS succeeds.
   */
  lemma StaleGrantIsReal(c: Config, g: Shared, op: Op, cur: nat, hw: nat)
    requires SharedOk(c, g) && hw <= g.ring.rptr && g.ring.limit == cur
    requires ValidOp(c, op) && NewIndex(c, cur, op) < 0x1_0000_0000_0000_0000
    requires Fits(c, NewIndex(c, cur, op), hw)
    ensures Fits(c, NewIndex(c, cur, op), g.ring.rptr)
    ensures g.ring.rptr <= cur && NewIndex(c, cur, op) - g.ring.rptr < c.ringBytes
  {
    hide Size; hide Granted; hide Encodable; hide Pad; hide Inv; hide SubU64;
    PointersOrdered(c, g.ring);
    SubExact(NewIndex(c, cur, op), hw);
    SubExact(NewIndex(c, cur, op), g.ring.rptr);
  }

  lemma SubExact(a: nat, b: nat)
    requires b <= a < 0x1_0000_0000_0000_0000
    ensures SubU64(a, b) == a - b
  {
  }

  lemma GrantedAppend(c: Config, rs: seq<Region>, log: seq<Entry>, r: Region, e: Entry)
    requires ValidConfig(c) && Granted(c, rs, log)
    requires ValidOp(c, e.op) && r.packets == Grant(c, r.base, e.op) && Bytes(r.packets) < c.ringBytes
    ensures Granted(c, rs + [r], log + [e])
  {
    hide ValidOp; hide Grant; hide Size;
  }

  /** The shared state after a successful CAS. */
  function AfterCas(c: Config, g: Shared, t: nat, op: Op): Shared
    requires ValidConfig(c)
  {
    var cur := g.ring.limit;
    g.(ring := Reserve(g.ring, Grant(c, cur, op)).(limit := NewIndex(c, cur, op)), log := g.log + [Entry(t, op)])
  }

  lemma CasShared(c: Config, g: Shared, t: nat, op: Op, hw: nat)
    requires SharedOk(c, g) && ValidOp(c, op) && hw <= g.ring.rptr
    requires NewIndex(c, g.ring.limit, op) < 0x1_0000_0000_0000_0000 && Fits(c, NewIndex(c, g.ring.limit, op), hw)
    ensures SharedOk(c, AfterCas(c, g, t, op)) && Follows(g, AfterCas(c, g, t, op), |g.log|)
    ensures AfterCas(c, g, t, op).ring == Reserve(g.ring, Grant(c, g.ring.limit, op))
    ensures Size(Grant(c, g.ring.limit, op)) > 0
  {
    hide Size; hide Fits; hide Inv; hide Granted; hide Grant; hide ValidOp; hide NewIndex; hide Encodable;
    var cur := g.ring.limit;
    AlignedLimit(c, g.ring);
    PadFacts(c, cur, op);
    SizePositive(Grant(c, cur, op));
    StaleGrantIsReal(c, g, op, cur, hw);
    ReservePreserves(c, g.ring, Grant(c, cur, op));
    GrantedAppend(c, g.ring.regions, g.log, Region(cur, Grant(c, cur, op)), Entry(t, op));
    ReserveBoundaries(c, g.ring, Grant(c, cur, op), g.committed);
    ReserveBoundaries(c, g.ring, Grant(c, cur, op), g.rung);
  }

  lemma ReserveBoundaries(c: Config, r: Ring, packets: seq<Packet>, j: nat)
    requires j <= |r.regions|
    ensures Boundary(c, Reserve(r, packets).regions, j) == Boundary(c, r.regions, j)
  {
  }

  lemma AlignedLimit(c: Config, r: Ring)
    requires Inv(c, r)
    ensures r.limit % 4 == 0
  {
    hide Size; hide Encodable; hide Holds; hide Before; hide IndexOf;
    BoundaryAligned(c, r.regions, |r.regions|);
  }

  lemma CasSucceeds(c: Config, s: State, t: nat, op: Op, hw: nat)
    requires QueueInv(c, s) && t < |s.threads| && HeldTicket(s.threads[t].pc) == None
    requires ValidOp(c, op) && hw <= s.g.ring.rptr && Fits(c, NewIndex(c, s.g.ring.limit, op), hw)
    requires NewIndex(c, s.g.ring.limit, op) < 0x1_0000_0000_0000_0000
    ensures QueueInv(c, State(AfterCas(c, s.g, t, op),
                              s.threads[t := s.threads[t].(pc := Place(op, |s.g.log|, s.g.ring.limit, 0))]))
  {
    hide Size; hide Fits; hide Inv; hide Granted; hide Grant; hide ValidOp; hide NewIndex; hide MemoryOk;
    var th, g' := s.threads[t], AfterCas(c, s.g, t, op);
    CasShared(c, s.g, t, op, hw);
    assert g'.ring.regions[|s.g.log|] == Region(s.g.ring.limit, Grant(c, s.g.ring.limit, op));
    var th' := th.(pc := Place(op, |s.g.log|, s.g.ring.limit, 0));
    assert PcOk(c, g', t, th');
    assert MemoryOk(s.g, t, th);
    OtherMemoryOk(c, s.g, g', |s.g.log|, t, th);
    SameMemory(g', t, th, th');
    Lift(c, s, t, g', th', |s.g.log|);
  }

  lemma SameMemory(g: Shared, t: nat, th: Thread, th': Thread)
    requires |g.log| == |g.ring.regions| && g.committed <= |g.log| && MemoryOk(g, t, th)
    requires th' == th.(pc := th'.pc)
    ensures MemoryOk(g, t, th')
  {
    hide Size;
  }

  lemma CasStep(c: Config, s: State, t: nat)
    requires QueueInv(c, s) && Enabled(c, s, Run(t)) && s.threads[t].pc.Cas?
    ensures QueueInv(c, Step(c, s, Run(t)))
  {
    hide Size; hide Inv; hide Granted; hide Fits; hide Grant; hide ValidOp; hide NewIndex;
    var th := s.threads[t];
    var Cas(op, cur, hw) := th.pc;
    assert PcOk(c, s.g, t, th) && MemoryOk(s.g, t, th);
    if s.g.ring.limit == cur {
      CasSucceeds(c, s, t, op, hw);
    } else {
      LocalStep(c, s, t, th.(pc := LoadIndex(op)));
    }
  }

  /** The region of a held ticket is the grant its holder computes from its own locals. */
  lemma HeldRegion(c: Config, g: Shared, t: nat, op: Op, ticket: nat, base: nat)
    requires SharedOk(c, g) && Holding(g, t, op, ticket, base)
    ensures ValidOp(c, op) && base % 4 == 0
    ensures g.ring.regions[ticket] == Region(base, Grant(c, base, op))
    ensures End(g.ring.regions[ticket]) == NewIndex(c, base, op)
    ensures AllEncodable(c.gen, g.ring.regions[ticket].packets)
    ensures EncodeAll(c.gen, g.ring.regions[ticket].packets) == PlacedWords(c, base, op)
  {
    hide Size; hide Encodable; hide Wrap; hide Pad; hide EncodeAll; hide Intact; hide Before; hide IndexOf;
    PadFacts(c, base, op);
  }

  lemma PlaceStep(c: Config, s: State, t: nat)
    requires QueueInv(c, s) && Enabled(c, s, Run(t)) && s.threads[t].pc.Place?
    ensures QueueInv(c, Step(c, s, Run(t)))
  {
    hide Size; hide Granted; hide EncodeAll; hide PlacedWords; hide Slot; hide Inv; hide Grant; hide NewIndex;
    hide MemoryOk; hide ValidOp;
    var th := s.threads[t];
    var Place(op, ticket, base, k) := th.pc;
    assert PcOk(c, s.g, t, th) && MemoryOk(s.g, t, th);
    HeldRegion(c, s.g, t, op, ticket, base);
    var (g', th') := RunThread(c, s.g, t, th);
    PlaceIsStore(c, s.g, t, th);
    OtherMemoryOk(c, s.g, g', ticket, t, th);
    SameMemory(g', t, th, th');
    Lift(c, s, t, g', th', ticket);
  }

  /** Storing the next dword of a batch from its holder's locals is a Store of the ring. */
  lemma PlaceIsStore(c: Config, g: Shared, t: nat, th: Thread)
    requires SharedOk(c, g) && CanRun(c, g, t, th) && th.pc.Place? && PcOk(c, g, t, th)
    ensures var g' := RunThread(c, g, t, th).0;
            g'.ring == Store(c, g.ring, th.pc.ticket) && SharedOk(c, g') && Follows(g, g', th.pc.ticket)
  {
    hide Size; hide Granted; hide EncodeAll; hide PlacedWords; hide Slot; hide Inv; hide Grant; hide NewIndex;
    var Place(op, ticket, base, k) := th.pc;
    HeldRegion(c, g, t, op, ticket, base);
    StorePreserves(c, g.ring, ticket);
    var g' := RunThread(c, g, t, th).0;
    assert g'.ring == Store(c, g.ring, ticket);
  }

  lemma StoreWptrStep(c: Config, s: State, t: nat)
    requires QueueInv(c, s) && Enabled(c, s, Run(t)) && s.threads[t].pc.StoreWptr?
    ensures QueueInv(c, Step(c, s, Run(t)))
  {
    hide Size; hide ValidOp; hide Granted; hide EncodeAll; hide PlacedWords; hide MemoryOk;
    hide Slot; hide Intact; hide Before; hide IndexOf; hide Ordered; hide Chained; hide Grant; hide NewIndex;
    var th := s.threads[t];
    var StoreWptr(op, ticket, base) := th.pc;
    assert PcOk(c, s.g, t, th) && MemoryOk(s.g, t, th);
    HeldRegion(c, s.g, t, op, ticket, base);
    var (g', th') := RunThread(c, s.g, t, th);
    assert g'.ring == Publish(s.g.ring);
    PublishPreserves(c, s.g.ring);
    assert SharedOk(c, g') && Follows(s.g, g', ticket);
    OtherMemoryOk(c, s.g, g', ticket, t, th);
    SameMemory(g', t, th, th');
    Lift(c, s, t, g', th', ticket);
  }

  lemma StoreDoorbellStep(c: Config, s: State, t: nat)
    requires QueueInv(c, s) && Enabled(c, s, Run(t)) && s.threads[t].pc.StoreDoorbell?
    ensures QueueInv(c, Step(c, s, Run(t)))
  {
    hide Size; hide ValidOp; hide Granted; hide EncodeAll; hide PlacedWords; hide MemoryOk;
    hide Inv; hide Grant; hide NewIndex;
    var th := s.threads[t];
    var StoreDoorbell(op, ticket, base) := th.pc;
    assert PcOk(c, s.g, t, th) && MemoryOk(s.g, t, th);
    HeldRegion(c, s.g, t, op, ticket, base);
    var (g', th') := RunThread(c, s.g, t, th);
    assert SharedOk(c, g') && Follows(s.g, g', ticket);
    OtherMemoryOk(c, s.g, g', ticket, t, th);
    SameMemory(g', t, th, th');
    Lift(c, s, t, g', th', ticket);
  }

  /** Submissions of one thread end at growing indices. */
  lemma EarlierEnds(c: Config, g: Shared, i: nat, j: nat)
    requires SharedOk(c, g) && i < j < |g.ring.regions|
    ensures End(g.ring.regions[i]) < End(g.ring.regions[j])
  {
    hide Size; hide Encodable; hide Granted; hide Intact; hide Before; hide IndexOf; hide Chained;
    SizePositive(g.ring.regions[j].packets);
  }

  lemma StoreCommittedMemory(c: Config, s: State, t: nat)
    requires QueueInv(c, s) && Enabled(c, s, Run(t)) && s.threads[t].pc.StoreCommitted?
    ensures var (g', th') := RunThread(c, s.g, t, s.threads[t]);
            SharedOk(c, g') && MemoryOk(g', t, th')
  {
    hide Size; hide Encodable; hide Wrap; hide Pad; hide Granted; hide Fits; hide EncodeAll; hide PlacedWords;
    hide Inv; hide Grant; hide NewIndex;
    var th := s.threads[t];
    var StoreCommitted(op, ticket, base) := th.pc;
    assert PcOk(c, s.g, t, th) && MemoryOk(s.g, t, th);
    HeldRegion(c, s.g, t, op, ticket, base);
    var (g', th') := RunThread(c, s.g, t, th);
    assert SharedOk(c, g');
    forall i | 0 <= i < ticket
      ensures End(s.g.ring.regions[i]) < End(s.g.ring.regions[ticket])
    {
      EarlierEnds(c, s.g, i, ticket);
    }
    if th.last.None? { assert End(s.g.ring.regions[ticket]) > 0 by { EndPositive(c, s.g, ticket); } }
  }

  lemma EndPositive(c: Config, g: Shared, j: nat)
    requires SharedOk(c, g) && j < |g.ring.regions|
    ensures End(g.ring.regions[j]) > 0
  {
    hide Size; hide Encodable; hide Granted; hide Intact; hide Before; hide IndexOf; hide Chained;
    SizePositive(g.ring.regions[j].packets);
  }

  lemma StoreCommittedStep(c: Config, s: State, t: nat)
    requires QueueInv(c, s) && Enabled(c, s, Run(t)) && s.threads[t].pc.StoreCommitted?
    ensures QueueInv(c, Step(c, s, Run(t)))
  {
    hide Size; hide Inv; hide Granted; hide NewIndex; hide MemoryOk;
    var th := s.threads[t];
    assert PcOk(c, s.g, t, th);
    var (g', th') := RunThread(c, s.g, t, th);
    StoreCommittedMemory(c, s, t);
    Lift(c, s, t, g', th', th.pc.ticket);
  }

  lemma PollStep(c: Config, s: State, t: nat)
    requires QueueInv(c, s) && Enabled(c, s, Run(t))
    requires s.threads[t].pc.LoadIndex? || s.threads[t].pc.Test? || s.threads[t].pc.ReadHw? ||
             s.threads[t].pc.Quiet? || s.threads[t].pc.Await?
    ensures QueueInv(c, Step(c, s, Run(t)))
  {
    hide Size; hide Encodable; hide Wrap; hide Pad; hide Inv; hide Granted; hide Fits; hide Read64; hide NewIndex;
    hide ValidOp; hide End;
    var th := s.threads[t];
    assert PcOk(c, s.g, t, th) && MemoryOk(s.g, t, th);
    var (g', th') := RunThread(c, s.g, t, th);
    LocalStep(c, s, t, th');
  }

  /** The turn test: committedWptr equals the base of a held reservation exactly for the next ticket. */
  lemma TurnIffNext(c: Config, g: Shared, t: nat, op: Op, ticket: nat, base: nat)
    requires SharedOk(c, g) && Holding(g, t, op, ticket, base)
    ensures g.committedWptr == base <==> ticket == g.committed
  {
    hide Size; hide Encodable; hide Granted; hide Intact; hide Before; hide IndexOf;
    assert g.ring.regions[ticket].base == Boundary(c, g.ring.regions, ticket);
    if g.committed < ticket {
      var r := g.ring.regions[g.committed];
      assert r.base == Boundary(c, g.ring.regions, g.committed);
      SizePositive(r.packets);
      assert End(r) <= base;
    }
  }

  lemma AwaitTurnStep(c: Config, s: State, t: nat)
    requires QueueInv(c, s) && Enabled(c, s, Run(t)) && s.threads[t].pc.AwaitTurn?
    ensures QueueInv(c, Step(c, s, Run(t)))
  {
    hide Size; hide Inv; hide Granted;
    var th := s.threads[t];
    var AwaitTurn(op, ticket, base) := th.pc;
    assert PcOk(c, s.g, t, th) && MemoryOk(s.g, t, th);
    TurnIffNext(c, s.g, t, op, ticket, base);
    var (g', th') := RunThread(c, s.g, t, th);
    LocalStep(c, s, t, th');
  }

  lemma EngineStep(c: Config, s: State)
    requires QueueInv(c, s) && Enabled(c, s, Engine)
    ensures QueueInv(c, Step(c, s, Engine))
  {
    hide Size; hide Inv; hide Granted; hide PcOk; hide MemoryOk; hide Decode; hide Window; hide Exec;
    ExecutePreserves(c, s.g.ring);
    var s' := Step(c, s, Engine);
    EngineKeepsThreads(c, s, s');
  }

  /** A step of the engine, or an outside write, leaves every producer alone. */
  lemma EngineKeepsThreads(c: Config, s: State, s': State)
    requires QueueInv(c, s) && SharedOk(c, s'.g) && s'.threads == s.threads
    requires s'.g == s.g.(ring := s'.g.ring) && s'.g.ring.regions == s.g.ring.regions
    requires s'.g.ring.placed == s.g.ring.placed && s'.g.ring.published == s.g.ring.published
    requires s'.g.ring.limit == s.g.ring.limit && s.g.ring.rptr <= s'.g.ring.rptr
    ensures QueueInv(c, s')
  {
    hide Size; hide Inv; hide Granted; hide PcOk; hide MemoryOk;
    var x := |s.g.log|;
    forall u | 0 <= u < |s.threads|
      ensures PcOk(c, s'.g, u, s.threads[u]) && MemoryOk(s'.g, u, s.threads[u])
    {
      assert PcOk(c, s.g, u, s.threads[u]) && MemoryOk(s.g, u, s.threads[u]);
      if HeldTicket(s.threads[u].pc).Some? { HeldByOwner(c, s, u); }
      OtherPcOk(c, s.g, s'.g, x, u, s.threads[u]);
      OtherMemoryOk(c, s.g, s'.g, x, u, s.threads[u]);
    }
  }

  lemma OutsideStep(c: Config, s: State, a: int, v: Byte)
    requires QueueInv(c, s)
    ensures QueueInv(c, Step(c, s, Outside(a, v)))
  {
    hide Size; hide Granted; hide PcOk; hide MemoryOk; hide Before; hide IndexOf; hide WordAt; hide Slot;
    var s' := Step(c, s, Outside(a, v));
    forall j, k | 0 <= j < |s.g.ring.regions| && 0 <= k < s.g.ring.placed[j] &&
                  s.g.ring.rptr <= s.g.ring.regions[j].base + 4 * k
      ensures Holds(c, s'.g.ring, j, k)
    {
      assert Holds(c, s.g.ring, j, k);
    }
    EngineKeepsThreads(c, s, s');
  }

  lemma BeginStep(c: Config, s: State, e: Event)
    requires QueueInv(c, s) && Enabled(c, s, e) && (e.Begin? || e.BeginQuiet? || e.BeginWait?)
    ensures QueueInv(c, Step(c, s, e))
  {
    hide Size; hide Granted; hide Encodable; hide Inv;
    var th := s.threads[e.t];
    assert PcOk(c, s.g, e.t, th) && MemoryOk(s.g, e.t, th);
    if th.last.Some? { CommittedBelowWptr(c, s.g, th.last.value); }
    LocalStep(c, s, e.t, Step(c, s, e).threads[e.t]);
  }

  lemma CommittedBelowWptr(c: Config, g: Shared, j: nat)
    requires SharedOk(c, g) && j < g.committed
    ensures End(g.ring.regions[j]) <= g.ring.wptr
  {
    hide Size; hide Granted; hide Encodable; hide Intact; hide Before; hide IndexOf;
    BoundaryMonotone(c, g.ring.regions, j + 1, g.ring.published);
  }

  /** Every step of every producer, of the engine and of the outside world keeps the invariant. */
  lemma StepPreserves(c: Config, s: State, e: Event)
    requires QueueInv(c, s) && Enabled(c, s, e)
    ensures QueueInv(c, Step(c, s, e))
  {
    hide QueueInv; hide Step;
    match e
    case Engine => EngineStep(c, s);
    case Outside(a, v) => OutsideStep(c, s, a, v);
    case Run(t) =>
      match s.threads[t].pc {
        case Cas(_, _, _) => CasStep(c, s, t);
        case Place(_, _, _, _) => PlaceStep(c, s, t);
        case AwaitTurn(_, _, _) => AwaitTurnStep(c, s, t);
        case StoreWptr(_, _, _) => StoreWptrStep(c, s, t);
        case StoreDoorbell(_, _, _) => StoreDoorbellStep(c, s, t);
        case StoreCommitted(_, _, _) => StoreCommittedStep(c, s, t);
        case _ => PollStep(c, s, t);
      }
    case _ => BeginStep(c, s, e);
  }
}
