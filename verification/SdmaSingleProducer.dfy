/**
 SdmaQueueSingleProducerHandle: one producer, no CAS and no commit order. It pads the ring
 end as a submission of its own, with one-dword NOPs, and then tries again.

 The model shares the ring with the multi-producer handle. Its runs are shown to keep ring
 and store safety and FIFO delivery, to pad at most once per reservation, and to be able to
 bring every submission smaller than the ring to its end.
 */
module SdmaSingleProducer {
  import opened Modular
  import opened SdmaPackets
  import opened SdmaRing
  import opened SdmaQueue
  import opened SdmaQueueRuns

  datatype SpPc =
    | Resting
    | Top(op: Op)
    | PadTest(op: Op, cur: nat)
    | PadStore(op: Op, cur: nat, k: nat)
    | PadWptr(op: Op, cur: nat)
    | PadDoorbell(op: Op, cur: nat)
    | RoomTest(op: Op, cur: nat)
    | OpStore(op: Op, cur: nat, k: nat)
    | OpWptr(op: Op, cur: nat)
    | OpDoorbell(op: Op, cur: nat)

  /** ops and starts record the batches reserved and their indices, pads the pads of the current one. */
  datatype SpState = SpState(ring: Ring, doorbell: nat, pc: SpPc, ops: seq<Op>, starts: seq<nat>, pads: nat)

  datatype SpEvent = SpBegin(op: Op) | SpRun | SpEngine

  /** Bytes from an index to the ring end. */
  function ToEnd(c: Config, cur: nat): nat
    requires ValidConfig(c)
  {
    c.ringBytes - Wrap(c, cur)
  }

  /** The zero dwords of PadRingToEnd are one-dword NOPs. */
  function ZeroNops(n: nat): (ps: seq<Packet>)
    ensures |ps| == n
  {
    if n == 0 then [] else [Nop(0)] + ZeroNops(n - 1)
  }

  predicate SpInit(c: Config, s: SpState) {
    && ValidConfig(c) && |s.ring.buf| == c.ringBytes / 4
    && s == SpState(Empty(c, s.ring.buf, s.ring.mem), c.start, Resting, [], [], 0)
  }

  predicate SpEnabled(c: Config, s: SpState, e: SpEvent) {
    && ValidConfig(c) && |s.ring.buf| == c.ringBytes / 4
    && match e
       case SpBegin(op) => s.pc.Resting? && ValidOp(c, op)
       case SpRun =>
         (match s.pc
          case Resting => false
          case PadTest(_, cur) => cur + ToEnd(c, cur) < 0x1_0000_0000_0000_0000
          case RoomTest(op, cur) => cur + Bytes(op.packets) < 0x1_0000_0000_0000_0000
          case PadStore(_, cur, k) => k < ToEnd(c, cur) / 4 && s.ring.placed != []
          case OpStore(op, cur, k) =>
            AllEncodable(c.gen, op.packets) && k < Size(op.packets) && s.ring.placed != []
          case PadWptr(_, _) => s.ring.published < |s.ring.regions|
          case OpWptr(_, _) => s.ring.published < |s.ring.regions|
          case _ => true)
       case SpEngine =>
         && s.ring.rptr < s.ring.wptr && s.ring.region < |s.ring.regions|
         && Decode(c.gen, Window(c, s.ring)).Some?
  }

  /** The ring after storing one dword at a byte index, as dword k of the last reservation. */
  function Put(c: Config, r: Ring, at: nat, w: U32, k: nat): Ring
    requires ValidConfig(c) && |r.buf| == c.ringBytes / 4 && r.placed != []
  {
    r.(buf := r.buf[Slot(c, at) := w], placed := r.placed[|r.placed| - 1 := k + 1])
  }

  function SpStep(c: Config, s: SpState, e: SpEvent): SpState
    requires SpEnabled(c, s, e)
  {
    match e
    case SpBegin(op) => s.(pc := Top(op), pads := 0)
    case SpEngine => s.(ring := Execute(c, s.ring))
    case SpRun =>
      match s.pc
      case Top(op) =>
        var cur := s.ring.limit;
        s.(pc := if Wrap(c, cur) + Bytes(op.packets) > c.ringBytes then PadTest(op, cur) else RoomTest(op, cur))
      case PadTest(op, cur) =>
        if Fits(c, cur + ToEnd(c, cur), s.ring.rptr) then
          s.(ring := Reserve(s.ring, ZeroNops(ToEnd(c, cur) / 4)).(limit := cur + ToEnd(c, cur)),
             pc := PadStore(op, cur, 0), pads := s.pads + 1)
        else s.(pc := Top(op))
      case PadStore(op, cur, k) =>
        s.(ring := Put(c, s.ring, cur + 4 * k, 0, k),
           pc := if k + 1 == ToEnd(c, cur) / 4 then PadWptr(op, cur) else PadStore(op, cur, k + 1))
      case PadWptr(op, cur) =>
        s.(ring := Publish(s.ring).(wptr := cur + ToEnd(c, cur)), pc := PadDoorbell(op, cur))
      case PadDoorbell(op, cur) => s.(doorbell := cur + ToEnd(c, cur), pc := Top(op))
      case RoomTest(op, cur) =>
        if Fits(c, cur + Bytes(op.packets), s.ring.rptr) then
          s.(ring := Reserve(s.ring, op.packets), pc := OpStore(op, cur, 0),
             ops := s.ops + [op], starts := s.starts + [cur])
        else s.(pc := Top(op))
      case OpStore(op, cur, k) =>
        s.(ring := Put(c, s.ring, cur + 4 * k, EncodeAll(c.gen, op.packets)[k], k),
           pc := if k + 1 == Size(op.packets) then OpWptr(op, cur) else OpStore(op, cur, k + 1))
      case OpWptr(op, cur) =>
        s.(ring := Publish(s.ring).(wptr := cur + Bytes(op.packets)), pc := OpDoorbell(op, cur))
      case OpDoorbell(op, cur) => s.(doorbell := cur + Bytes(op.packets), pc := Resting)
  }

  // ---------------------------------------------------------------- layout shared with the other handle

  /** Where a sequence of batches ends when each is padded as ReserveQueueSpace pads it. */
  function LayoutEnd(c: Config, at: nat, ops: seq<Op>): nat
    requires ValidConfig(c)
    decreases |ops|
  {
    if ops == [] then at else NewIndex(c, LayoutEnd(c, at, ops[..|ops| - 1]), ops[|ops| - 1])
  }

  /** Where batch number j of the sequence starts, behind its padding. */
  function LayoutStart(c: Config, at: nat, ops: seq<Op>, j: nat): nat
    requires ValidConfig(c) && j < |ops|
  {
    var before := LayoutEnd(c, at, ops[..j]);
    before + Pad(c, before, Bytes(ops[j].packets))
  }

  function AllPacketsOf(ops: seq<Op>): seq<Packet>
    decreases |ops|
  {
    if ops == [] then [] else AllPacketsOf(ops[..|ops| - 1]) + ops[|ops| - 1].packets
  }

  // ---------------------------------------------------------------- invariant

  /** The last reservation is being stored: k dwords of packets from cur on. */
  predicate Storing(r: Ring, cur: nat, packets: seq<Packet>, k: nat) {
    && |r.placed| == |r.regions| > 0 && r.published == |r.regions| - 1
    && r.regions[|r.regions| - 1] == Region(cur, packets)
    && r.placed[|r.regions| - 1] == k <= Size(packets)
  }

  /** Everything reserved is published. */
  predicate Level(r: Ring) { r.published == |r.regions| }

  predicate SpPcOk(c: Config, s: SpState)
    requires ValidConfig(c)
  {
    match s.pc
    case Resting => Level(s.ring)
    case Top(op) => Level(s.ring) && ValidOp(c, op)
    case PadTest(op, cur) =>
      Level(s.ring) && ValidOp(c, op) && cur == s.ring.limit && Wrap(c, cur) + Bytes(op.packets) > c.ringBytes
    case PadStore(op, cur, k) =>
      ValidOp(c, op) && Storing(s.ring, cur, ZeroNops(ToEnd(c, cur) / 4), k) && k < ToEnd(c, cur) / 4 && s.pads >= 1
    case PadWptr(op, cur) =>
      ValidOp(c, op) && Storing(s.ring, cur, ZeroNops(ToEnd(c, cur) / 4), ToEnd(c, cur) / 4) && s.pads >= 1
    case PadDoorbell(op, cur) => ValidOp(c, op) && Level(s.ring) && s.pads >= 1
    case RoomTest(op, cur) =>
      Level(s.ring) && ValidOp(c, op) && cur == s.ring.limit && Wrap(c, cur) + Bytes(op.packets) <= c.ringBytes
    case OpStore(op, cur, k) =>
      && ValidOp(c, op) && Storing(s.ring, cur, op.packets, k) && k < Size(op.packets)
      && Wrap(c, cur) + Bytes(op.packets) <= c.ringBytes && s.ops != [] && s.ops[|s.ops| - 1] == op
    case OpWptr(op, cur) =>
      && ValidOp(c, op) && Storing(s.ring, cur, op.packets, Size(op.packets))
      && Wrap(c, cur) + Bytes(op.packets) <= c.ringBytes && s.ops != [] && s.ops[|s.ops| - 1] == op
    case OpDoorbell(op, cur) => ValidOp(c, op) && Level(s.ring)
  }

  /** The current reservation has not been granted yet. */
  predicate Reserving(pc: SpPc) {
    pc.Top? || pc.PadTest? || pc.PadStore? || pc.PadWptr? || pc.PadDoorbell? || pc.RoomTest?
  }

  /** The batches sit where the layout puts them; at most one pad precedes the next one. */
  predicate Laid(c: Config, s: SpState)
    requires ValidConfig(c)
  {
    var from := LayoutEnd(c, c.start, s.ops);
    && |s.starts| == |s.ops|
    && (forall j :: 0 <= j < |s.ops| ==> s.starts[j] == LayoutStart(c, c.start, s.ops, j))
    && Useful(Flatten(s.ring.regions)) == AllPacketsOf(s.ops)
    && (Reserving(s.pc) ==>
          && s.pads <= 1
          && s.ring.limit == (if s.pads == 0 then from else from + Pad(c, from, Bytes(s.pc.op.packets)))
          && (s.pads == 1 ==> Wrap(c, from) + Bytes(s.pc.op.packets) > c.ringBytes))
    && (!Reserving(s.pc) ==> s.ring.limit == from)
  }

  /** Batches smaller than the ring, none of which takes an index to 2^64. */
  predicate Submitted(c: Config, ops: seq<Op>)
    requires ValidConfig(c)
  {
    forall j :: 0 <= j < |ops| ==> SubmittedAt(c, ops, j)
  }

  predicate SubmittedAt(c: Config, ops: seq<Op>, j: nat)
    requires ValidConfig(c) && j < |ops|
  {
    && ValidOp(c, ops[j]) && Bytes(ops[j].packets) < c.ringBytes
    && LayoutEnd(c, c.start, ops[..j + 1]) < 0x1_0000_0000_0000_0000
  }

  /** No packet of a region crosses the ring end. */
  predicate Clear(c: Config, r: Region)
    requires ValidConfig(c)
  {
    forall p :: 0 <= p < |r.packets| ==> NotAcross(c, r.base, r.packets, p)
  }

  predicate AllClear(c: Config, rs: seq<Region>)
    requires ValidConfig(c)
  {
    forall j :: 0 <= j < |rs| ==> Clear(c, rs[j])
  }

  predicate SpInv(c: Config, s: SpState) {
    Inv(c, s.ring) && SpPcOk(c, s) && Laid(c, s) && Submitted(c, s.ops) && AllClear(c, s.ring.regions)
  }

  // ---------------------------------------------------------------- lemmas

  lemma {:induction false} ZeroNopsFacts(g: Generation, n: nat)
    ensures Size(ZeroNops(n)) == n && AllEncodable(g, ZeroNops(n))
    ensures EncodeAll(g, ZeroNops(n)) == Zeros(n)
    ensures Useful(ZeroNops(n)) == []
  {
    if n > 0 {
      ZeroNopsFacts(g, n - 1);
      assert ZeroNops(n)[1..] == ZeroNops(n - 1);
      ZeroNop(g);
      hide Words; hide Encodable;
      assert Zeros(n) == [0] + Zeros(n - 1);
    }
  }

  lemma ZeroNop(g: Generation)
    ensures Encodable(g, Nop(0)) && Words(g, Nop(0)) == [0]
  {
  }

  lemma SpInitHolds(c: Config, s: SpState)
    requires SpInit(c, s)
    ensures SpInv(c, s)
  {
    EmptyInv(c, s.ring.buf, s.ring.mem);
  }

  /** A put into the last reservation is a Store of the ring. */
  lemma PutIsStore(c: Config, r: Ring, cur: nat, packets: seq<Packet>, k: nat, w: U32)
    requires Inv(c, r) && Storing(r, cur, packets, k) && k < Size(packets) && AllEncodable(c.gen, packets)
    requires w == EncodeAll(c.gen, packets)[k]
    ensures Put(c, r, cur + 4 * k, w, k) == Store(c, r, |r.regions| - 1)
    ensures Inv(c, Put(c, r, cur + 4 * k, w, k))
    ensures Storing(Put(c, r, cur + 4 * k, w, k), cur, packets, k + 1)
  {
    hide Slot; hide Size; hide EncodeAll; hide Intact; hide Before; hide IndexOf; hide Ordered; hide Chained;
    StorePreserves(c, r, |r.regions| - 1);
  }

  lemma PublishLast(c: Config, r: Ring, cur: nat, packets: seq<Packet>)
    requires Inv(c, r) && Storing(r, cur, packets, Size(packets))
    ensures Inv(c, Publish(r)) && Level(Publish(r)) && Publish(r).wptr == cur + Bytes(packets) == r.limit
  {
    hide Slot; hide Size; hide Intact; hide Before; hide IndexOf; hide Ordered;
    PublishPreserves(c, r);
    assert r.regions[r.published].base == Boundary(c, r.regions, r.published);
  }

  /** A granted reservation keeps the ring and is the one being stored. */
  lemma ReserveLast(c: Config, r: Ring, packets: seq<Packet>)
    requires Inv(c, r) && Level(r) && packets != [] && AllEncodable(c.gen, packets)
    requires r.limit + Bytes(packets) < 0x1_0000_0000_0000_0000 && Fits(c, r.limit + Bytes(packets), r.rptr)
    ensures Inv(c, Reserve(r, packets)) && Storing(Reserve(r, packets), r.limit, packets, 0)
    ensures r.limit + Bytes(packets) - r.rptr < c.ringBytes && r.rptr <= r.limit
  {
    hide Slot; hide Size; hide Intact; hide Before; hide IndexOf; hide Ordered; hide Chained; hide SubU64;
    hide Encodable;
    PointersOrdered(c, r);
    SubExact(r.limit + Bytes(packets), r.rptr);
    ReservePreserves(c, r, packets);
  }

  lemma UsefulReserve(c: Config, r: Ring, packets: seq<Packet>)
    ensures Useful(Flatten(Reserve(r, packets).regions)) == Useful(Flatten(r.regions)) + Useful(packets)
  {
    FlattenSnoc(r.regions, Region(r.limit, packets));
    UsefulAppend(Flatten(r.regions), packets);
  }

  lemma LayoutSnoc(c: Config, ops: seq<Op>, op: Op)
    requires ValidConfig(c)
    ensures LayoutEnd(c, c.start, ops + [op]) == NewIndex(c, LayoutEnd(c, c.start, ops), op)
    ensures LayoutStart(c, c.start, ops + [op], |ops|) ==
            LayoutEnd(c, c.start, ops) + Pad(c, LayoutEnd(c, c.start, ops), Bytes(op.packets))
    ensures forall j :: 0 <= j < |ops| ==> LayoutStart(c, c.start, ops + [op], j) == LayoutStart(c, c.start, ops, j)
    ensures AllPacketsOf(ops + [op]) == AllPacketsOf(ops) + op.packets
  {
    hide Pad; hide NewIndex; hide Size;
    var all := ops + [op];
    assert all[..|all| - 1] == ops && all[..|ops|] == ops;
    forall j | 0 <= j < |ops|
      ensures LayoutStart(c, c.start, all, j) == LayoutStart(c, c.start, ops, j)
    {
      assert all[..j] == ops[..j] && all[j] == ops[j];
    }
  }

  lemma SpPadTest(c: Config, s: SpState)
    requires SpInv(c, s) && SpEnabled(c, s, SpRun) && s.pc.PadTest?
    ensures SpInv(c, SpStep(c, s, SpRun))
  {
    hide Inv; hide Size; hide ValidOp; hide Wrap; hide LayoutEnd; hide LayoutStart; hide AllPacketsOf; hide Useful;
    hide Flatten; hide ZeroNops; hide Submitted; hide Clear;
    var PadTest(op, cur) := s.pc;
    if Fits(c, cur + ToEnd(c, cur), s.ring.rptr) {
      var n := ToEnd(c, cur) / 4;
      AlignedLimit(c, s.ring);
      ModMultiple(cur, c.ringBytes, 4);
      ToEndAligned(c, cur);
      ZeroNopsFacts(c.gen, n);
      ReserveLast(c, s.ring, ZeroNops(n));
      UsefulReserve(c, s.ring, ZeroNops(n));
      RoomIsClear(c, Region(cur, ZeroNops(n)));
      if s.pads == 1 {
        var from := LayoutEnd(c, c.start, s.ops);
        WrapToStart(c, from, Pad(c, from, Bytes(op.packets)));
        assert false;
      }
    }
  }

  lemma RoomIsClear(c: Config, r: Region)
    requires ValidConfig(c) && Wrap(c, r.base) + Bytes(r.packets) <= c.ringBytes
    ensures Clear(c, r)
  {
    hide Size; hide Wrap; hide NotAcross;
    forall p | 0 <= p < |r.packets|
      ensures NotAcross(c, r.base, r.packets, p)
    {
      RoomForAll(c, r.base, r.packets, p);
    }
  }

  lemma ToEndAligned(c: Config, cur: nat)
    requires ValidConfig(c) && cur % 4 == 0
    ensures ToEnd(c, cur) % 4 == 0 && ToEnd(c, cur) > 0
  {
    ModMultiple(cur, c.ringBytes, 4);
  }

  lemma SpRoomTest(c: Config, s: SpState)
    requires SpInv(c, s) && SpEnabled(c, s, SpRun) && s.pc.RoomTest?
    ensures SpInv(c, SpStep(c, s, SpRun))
  {
    hide Inv; hide Size; hide Wrap; hide LayoutEnd; hide LayoutStart; hide AllPacketsOf; hide Useful; hide Flatten;
    hide Encodable; hide Clear; hide Submitted;
    var RoomTest(op, cur) := s.pc;
    if Fits(c, cur + Bytes(op.packets), s.ring.rptr) {
      var from := LayoutEnd(c, c.start, s.ops);
      SizePositive(op.packets);
      ReserveLast(c, s.ring, op.packets);
      UsefulReserve(c, s.ring, op.packets);
      UsefulAll(op.packets);
      LayoutSnoc(c, s.ops, op);
      RoomIsClear(c, Region(cur, op.packets));
      SubmittedSnoc(c, s.ops, op);
      assert cur == from + Pad(c, from, Bytes(op.packets));
    }
  }

  lemma SubmittedSnoc(c: Config, ops: seq<Op>, op: Op)
    requires ValidConfig(c) && Submitted(c, ops) && ValidOp(c, op) && Bytes(op.packets) < c.ringBytes
    requires LayoutEnd(c, c.start, ops + [op]) < 0x1_0000_0000_0000_0000
    ensures Submitted(c, ops + [op])
  {
    hide LayoutEnd; hide ValidOp; hide Size;
    var all := ops + [op];
    forall j | 0 <= j < |all|
      ensures SubmittedAt(c, all, j)
    {
      if j < |ops| {
        assert SubmittedAt(c, ops, j) && all[..j + 1] == ops[..j + 1] && all[j] == ops[j];
      } else {
        assert all[..j + 1] == all;
      }
    }
  }

  lemma SpStores(c: Config, s: SpState)
    requires SpInv(c, s) && SpEnabled(c, s, SpRun) && (s.pc.PadStore? || s.pc.OpStore?)
    ensures SpInv(c, SpStep(c, s, SpRun))
  {
    hide Inv; hide Size; hide ValidOp; hide Wrap; hide LayoutEnd; hide LayoutStart; hide AllPacketsOf; hide Useful;
    hide Flatten; hide Slot; hide EncodeAll; hide ZeroNops; hide Submitted; hide AllClear;
    match s.pc
    case PadStore(op, cur, k) =>
      ZeroNopsFacts(c.gen, ToEnd(c, cur) / 4);
      PutIsStore(c, s.ring, cur, ZeroNops(ToEnd(c, cur) / 4), k, 0);
    case OpStore(op, cur, k) =>
      PutIsStore(c, s.ring, cur, op.packets, k, EncodeAll(c.gen, op.packets)[k]);
  }

  lemma SpPublishes(c: Config, s: SpState)
    requires SpInv(c, s) && SpEnabled(c, s, SpRun) && (s.pc.PadWptr? || s.pc.OpWptr?)
    ensures SpInv(c, SpStep(c, s, SpRun))
  {
    hide Inv; hide Size; hide ValidOp; hide Wrap; hide LayoutEnd; hide LayoutStart; hide AllPacketsOf; hide Useful;
    hide Flatten; hide ZeroNops; hide Submitted; hide AllClear;
    match s.pc
    case PadWptr(op, cur) =>
      ZeroNopsFacts(c.gen, ToEnd(c, cur) / 4);
      PublishLast(c, s.ring, cur, ZeroNops(ToEnd(c, cur) / 4));
      assert cur % 4 == 0 by { LastAligned(c, s.ring); }
      ToEndAligned(c, cur);
    case OpWptr(op, cur) =>
      PublishLast(c, s.ring, cur, op.packets);
  }

  lemma LastAligned(c: Config, r: Ring)
    requires Inv(c, r) && |r.regions| > 0
    ensures r.regions[|r.regions| - 1].base % 4 == 0
  {
    hide Size; hide Intact; hide Before; hide IndexOf;
  }

  lemma SpOthers(c: Config, s: SpState, e: SpEvent)
    requires SpInv(c, s) && SpEnabled(c, s, e)
    requires e.SpBegin? || (e.SpRun? && (s.pc.Top? || s.pc.PadDoorbell? || s.pc.OpDoorbell?))
    ensures SpInv(c, SpStep(c, s, e))
  {
    hide Inv; hide Size; hide ValidOp; hide Wrap; hide LayoutEnd; hide LayoutStart; hide AllPacketsOf; hide Useful;
    hide Flatten; hide Submitted; hide AllClear;
  }

  lemma SpEngineStep(c: Config, s: SpState)
    requires SpInv(c, s) && SpEnabled(c, s, SpEngine)
    ensures SpInv(c, SpStep(c, s, SpEngine))
  {
    hide Inv; hide Size; hide ValidOp; hide Wrap; hide LayoutEnd; hide LayoutStart; hide AllPacketsOf; hide Useful;
    hide Flatten; hide Decode; hide Window; hide Exec; hide Submitted; hide AllClear;
    ExecutePreserves(c, s.ring);
  }

  lemma SpStepPreserves(c: Config, s: SpState, e: SpEvent)
    requires SpInv(c, s) && SpEnabled(c, s, e)
    ensures SpInv(c, SpStep(c, s, e))
  {
    hide SpInv; hide SpStep;
    if e.SpEngine? {
      SpEngineStep(c, s);
    } else if e.SpBegin? {
      SpOthers(c, s, e);
    } else {
      match s.pc
      case PadTest(_, _) => SpPadTest(c, s);
      case RoomTest(_, _) => SpRoomTest(c, s);
      case PadStore(_, _, _) => SpStores(c, s);
      case OpStore(_, _, _) => SpStores(c, s);
      case PadWptr(_, _) => SpPublishes(c, s);
      case OpWptr(_, _) => SpPublishes(c, s);
      case _ => SpOthers(c, s, e);
    }
  }

  ghost predicate SpIsRun(c: Config, ss: seq<SpState>, es: seq<SpEvent>) {
    && |ss| == |es| + 1 && SpInit(c, ss[0])
    && forall i :: 0 <= i < |es| ==> SpEnabled(c, ss[i], es[i]) && ss[i + 1] == SpStep(c, ss[i], es[i])
  }

  lemma {:induction false} SpRunKeepsInv(c: Config, ss: seq<SpState>, es: seq<SpEvent>, i: nat)
    requires SpIsRun(c, ss, es) && i < |ss|
    ensures SpInv(c, ss[i])
  {
    hide SpInv; hide SpStep; hide SpEnabled; hide SpInit;
    if i == 0 {
      SpInitHolds(c, ss[0]);
    } else {
      SpRunKeepsInv(c, ss, es, i - 1);
      SpStepPreserves(c, ss[i - 1], es[i - 1]);
    }
  }

  ghost predicate SpReachable(c: Config, s: SpState) {
    exists ss: seq<SpState>, es: seq<SpEvent> :: SpIsRun(c, ss, es) && ss[|es|] == s
  }

  lemma SpReachableInv(c: Config, s: SpState)
    requires SpReachable(c, s)
    ensures SpInv(c, s)
  {
    hide SpInv; hide SpStep; hide SpEnabled; hide SpInit;
    var ss: seq<SpState>, es: seq<SpEvent> :| SpIsRun(c, ss, es) && ss[|es|] == s;
    SpRunKeepsInv(c, ss, es, |es|);
  }

  // ---------------------------------------------------------------- what it guarantees

  /** The batches of which wptr covers the reservation. */
  function Exposed(s: SpState): seq<Op> {
    if (s.pc.OpStore? || s.pc.OpWptr?) && s.ops != [] then s.ops[..|s.ops| - 1] else s.ops
  }

  /**
   Ring safety and FIFO of the single-producer handle. Reservations are contiguous and
   disjoint, less than a ring ahead of the read pointer and clear of the ring end; what was
   run and what decodes between rptr and wptr make up the published reservations, which
   without NOPs are the exposed batches in order; and a reservation pads at most once.
   */
  lemma SpSafe(c: Config, s: SpState)
    requires SpReachable(c, s)
    ensures Inv(c, s.ring) && s.ring.rptr <= s.ring.limit < s.ring.rptr + c.ringBytes
    ensures forall j, k :: 0 <= j < k < |s.ring.regions| ==> End(s.ring.regions[j]) <= s.ring.regions[k].base
    ensures forall j, p :: 0 <= j < |s.ring.regions| && 0 <= p < |s.ring.regions[j].packets| ==>
              NotAcross(c, s.ring.regions[j].base, s.ring.regions[j].packets, p)
    ensures s.ring.rptr <= s.ring.wptr && DecodeAll(c.gen, Window(c, s.ring)) == Some(Pending(s.ring))
    ensures s.ring.executed + Pending(s.ring) == Flatten(s.ring.regions[..s.ring.published])
    ensures Useful(Flatten(s.ring.regions[..s.ring.published])) == AllPacketsOf(Exposed(s))
    ensures Useful(Flatten(s.ring.regions)) == AllPacketsOf(s.ops)
    ensures Reserving(s.pc) ==> s.pads <= 1
  {
    hide SpReachable; hide Intact; hide DecodeAll; hide Window; hide Size; hide ValidOp; hide Flatten; hide Useful;
    hide NotAcross; hide AllPacketsOf; hide Before; hide IndexOf;
    SpReachableInv(c, s);
    PointersOrdered(c, s.ring);
    WindowDecodes(c, s.ring);
    ExposedStream(c, s);
    forall j, p | 0 <= j < |s.ring.regions| && 0 <= p < |s.ring.regions[j].packets|
      ensures NotAcross(c, s.ring.regions[j].base, s.ring.regions[j].packets, p)
    {
      assert Clear(c, s.ring.regions[j]);
    }
  }

  lemma ExposedStream(c: Config, s: SpState)
    requires SpInv(c, s)
    ensures s.ring.published <= |s.ring.regions|
    ensures Useful(Flatten(s.ring.regions[..s.ring.published])) == AllPacketsOf(Exposed(s))
  {
    hide Size; hide Intact; hide Before; hide IndexOf; hide Useful; hide Flatten; hide ZeroNops; hide Encodable;
    hide LayoutEnd; hide LayoutStart; hide Submitted; hide AllClear; hide Wrap;
    var rs := s.ring.regions;
    if Level(s.ring) {
      assert rs[..s.ring.published] == rs;
    } else {
      var front, last := rs[..|rs| - 1], rs[|rs| - 1];
      assert rs == front + [last];
      FlattenSnoc(front, last);
      UsefulAppend(Flatten(front), last.packets);
      if s.pc.OpStore? || s.pc.OpWptr? {
        UsefulAll(last.packets);
        SameFront(Useful(Flatten(front)), AllPacketsOf(Exposed(s)), last.packets);
      } else {
        ZeroNopsFacts(c.gen, ToEnd(c, s.pc.cur) / 4);
      }
    }
  }

  lemma SameFront(a: seq<Packet>, b: seq<Packet>, tail: seq<Packet>)
    requires a + tail == b + tail
    ensures a == b
  {
    assert a == (a + tail)[..|a|] && b == (b + tail)[..|b|] && |a| == |b|;
  }

  predicate SpStoring(pc: SpPc) { pc.PadStore? || pc.OpStore? }

  /**
   Store safety. The dword stored lies in the reservation just made and in no other, behind
   wptr, and overwrites no reserved dword the engine has not passed; its buffer index is k
   past that of the first one, as the loops of the code compute it.
   */
  lemma SpStoreSafe(c: Config, s: SpState)
    requires SpReachable(c, s) && SpStoring(s.pc)
    ensures var r, at, last := s.ring, s.pc.cur + 4 * s.pc.k, |s.ring.regions| - 1;
            && ValidConfig(c) && last >= 0 && r.regions[last].base == s.pc.cur <= at < End(r.regions[last])
            && ClearOfOthers(r.regions, last, at)
            && r.rptr <= r.wptr <= at < r.rptr + c.ringBytes
            && SparesReserved(c, r, at)
            && Slot(c, at) == Slot(c, s.pc.cur) + s.pc.k
  {
    hide SpReachable; hide SpInv; hide Inv; hide Size; hide Slot; hide Wrap; hide ClearOfOthers; hide SparesReserved;
    SpReachableInv(c, s);
    SpStorePlace(c, s);
    var r, last := s.ring, |s.ring.regions| - 1;
    StoreInFreeSpace(c, r, last);
    StoreSpares(c, r, last);
    OutsideOthers(c, r, last, s.pc.k);
    SlotFollows(c, s.pc.cur, s.pc.k);
  }

  lemma SpStorePlace(c: Config, s: SpState)
    requires SpInv(c, s) && SpStoring(s.pc)
    ensures Inv(c, s.ring) && ValidConfig(c) && s.ring.regions != []
    ensures var r, last := s.ring, |s.ring.regions| - 1;
            && |r.placed| == |r.regions| && r.published == last && r.regions[last].base == s.pc.cur && s.pc.cur % 4 == 0
            && r.placed[last] == s.pc.k < Size(r.regions[last].packets)
            && Wrap(c, s.pc.cur) + 4 * s.pc.k < c.ringBytes
  {
    assert ValidConfig(c);
    hide Inv; hide Size; hide ValidOp; hide Laid; hide Submitted; hide AllClear; hide ZeroNops; hide Wrap;
    hide EncodeAll; hide Useful;
    var cur, k := s.pc.cur, s.pc.k;
    LastAligned(c, s.ring);
    if s.pc.PadStore? {
      ZeroNopsFacts(c.gen, ToEnd(c, cur) / 4);
      LastStored(s.ring, cur, ZeroNops(ToEnd(c, cur) / 4), k);
    } else {
      LastStored(s.ring, cur, s.pc.op.packets, k);
    }
  }

  lemma LastStored(r: Ring, cur: nat, packets: seq<Packet>, k: nat)
    requires Storing(r, cur, packets, k)
    ensures var last := |r.regions| - 1;
            && |r.placed| == |r.regions| > 0 && r.published == last && r.regions[last] == Region(cur, packets)
            && r.placed[last] == k
  {
    hide Size;
  }

  // ---------------------------------------------------------------- what it can reserve

  lemma SpReachStep(c: Config, s: SpState, e: SpEvent)
    requires SpReachable(c, s) && SpEnabled(c, s, e)
    ensures SpReachable(c, SpStep(c, s, e))
  {
    hide SpStep; hide SpEnabled; hide SpInit;
    var ss: seq<SpState>, es: seq<SpEvent> :| SpIsRun(c, ss, es) && ss[|es|] == s;
    var n := SpStep(c, s, e);
    assert SpIsRun(c, ss + [n], es + [e]) && (ss + [n])[|es + [e]|] == n;
  }

  /** The reservation in progress can end below 2^64, and its batch is smaller than the ring. */
  predicate Grantable(c: Config, s: SpState)
    requires ValidConfig(c)
  {
    Reserving(s.pc) ==>
      && Bytes(s.pc.op.packets) < c.ringBytes
      && NewIndex(c, LayoutEnd(c, c.start, s.ops), s.pc.op) < 0x1_0000_0000_0000_0000
  }

  /** How far the producer is from its next rest. */
  function Stage(s: SpState): nat {
    match s.pc
    case Resting => 0
    case OpDoorbell(_, _) => 1
    case OpWptr(_, _) => 2
    case OpStore(_, _, _) => 3
    case RoomTest(_, _) => 4
    case Top(_) => if s.pads == 0 then 10 else 5
    case PadDoorbell(_, _) => 6
    case PadWptr(_, _) => 7
    case PadStore(_, _, _) => 8
    case PadTest(_, _) => 9
  }

  function StoresLeft(c: Config, s: SpState): nat
    requires ValidConfig(c)
  {
    match s.pc
    case OpStore(op, _, k) => if k <= Size(op.packets) then Size(op.packets) - k else 0
    case PadStore(_, cur, k) => if k <= ToEnd(c, cur) / 4 then ToEnd(c, cur) / 4 - k else 0
    case _ => 0
  }

  /** What a step leaves of the submission in progress. */
  predicate GoesOn(c: Config, s: SpState, n: SpState)
    requires ValidConfig(c)
  {
    && Grantable(c, n)
    && (n.pc.Resting? ==> !Reserving(s.pc)) && (!Reserving(s.pc) ==> !Reserving(n.pc))
    && (!n.pc.Resting? && Reserving(s.pc) ==> n.pc.op == s.pc.op)
    && n.ops == (if Reserving(s.pc) && !Reserving(n.pc) then s.ops + [s.pc.op] else s.ops)
  }

  lemma EngineGoesOn(c: Config, s: SpState)
    requires SpInv(c, s) && s.ring.rptr < s.ring.wptr && Grantable(c, s)
    ensures SpEnabled(c, s, SpEngine)
    ensures var n := SpStep(c, s, SpEngine);
            GoesOn(c, s, n) && Stage(n) == Stage(s) && StoresLeft(c, n) == StoresLeft(c, s) && n.pc == s.pc &&
            n.ring.limit == s.ring.limit && n.ring.rptr > s.ring.rptr
  {
    hide Laid; hide Submitted; hide AllClear; hide SpPcOk; hide Decode; hide Window; hide Intact; hide Before;
    hide IndexOf; hide Size; hide NewIndex; hide LayoutEnd;
    ExecutePreserves(c, s.ring);
  }

  /** With the ring drained, the two space tests of a reservation succeed. */
  lemma TestsSucceed(c: Config, s: SpState)
    requires SpInv(c, s) && Grantable(c, s) && s.ring.rptr == s.ring.wptr && (s.pc.PadTest? || s.pc.RoomTest?)
    ensures s.pc.PadTest? ==>
              && s.pads == 0 && s.pc.cur + ToEnd(c, s.pc.cur) < 0x1_0000_0000_0000_0000
              && Fits(c, s.pc.cur + ToEnd(c, s.pc.cur), s.ring.rptr)
    ensures s.pc.RoomTest? ==>
              && s.pc.cur + Bytes(s.pc.op.packets) < 0x1_0000_0000_0000_0000
              && Fits(c, s.pc.cur + Bytes(s.pc.op.packets), s.ring.rptr)
  {
    hide Size; hide ValidOp; hide LayoutEnd; hide LayoutStart; hide Submitted; hide AllClear; hide Wrap;
    hide Intact; hide Before; hide IndexOf; hide Useful; hide Flatten; hide SubU64; hide AllPacketsOf;
    var from, cur := LayoutEnd(c, c.start, s.ops), s.pc.cur;
    assert s.ring.rptr == s.ring.limit == cur;
    if s.pads == 1 { WrapToStart(c, from, Pad(c, from, Bytes(s.pc.op.packets))); }
    if s.pc.PadTest? {
      SubExact(cur + ToEnd(c, cur), cur);
    } else {
      SubExact(cur + Bytes(s.pc.op.packets), cur);
    }
  }

  /** Where a successful test leads. */
  lemma TestLeads(c: Config, s: SpState)
    requires SpEnabled(c, s, SpRun)
    ensures var n := SpStep(c, s, SpRun);
            && (s.pc.PadTest? && Fits(c, s.pc.cur + ToEnd(c, s.pc.cur), s.ring.rptr) ==>
                  n.pc == PadStore(s.pc.op, s.pc.cur, 0) && n.ops == s.ops)
            && (s.pc.RoomTest? && Fits(c, s.pc.cur + Bytes(s.pc.op.packets), s.ring.rptr) ==>
                  n.pc == OpStore(s.pc.op, s.pc.cur, 0) && n.ops == s.ops + [s.pc.op])
  {
    hide Size; hide Fits; hide ZeroNops; hide ToEnd; hide Reserve; hide EncodeAll; hide Wrap; hide Put; hide Execute;
  }

  lemma TestEnabled(c: Config, s: SpState)
    requires SpInv(c, s) && Grantable(c, s) && s.ring.rptr == s.ring.wptr && (s.pc.PadTest? || s.pc.RoomTest?)
    ensures SpEnabled(c, s, SpRun)
  {
    TestsSucceed(c, s);
    assert ValidConfig(c) && |s.ring.buf| == c.ringBytes / 4;
    hide SpInv; hide Size; hide Fits; hide ToEnd; hide Grantable;
  }

  lemma ReserveGoesOn(c: Config, s: SpState)
    requires SpInv(c, s) && Grantable(c, s) && s.ring.rptr == s.ring.wptr && (s.pc.PadTest? || s.pc.RoomTest?)
    ensures SpEnabled(c, s, SpRun)
    ensures var n := SpStep(c, s, SpRun); GoesOn(c, s, n) && Stage(n) < Stage(s)
  {
    assert ValidConfig(c);
    hide SpInv; hide SpEnabled; hide SpStep; hide Size; hide LayoutEnd; hide Fits; hide NewIndex; hide ToEnd;
    TestsSucceed(c, s);
    TestEnabled(c, s);
    TestLeads(c, s);
  }

  lemma TopGoesOn(c: Config, s: SpState)
    requires SpInv(c, s) && Grantable(c, s) && (s.pc.Top? || s.pc.PadDoorbell? || s.pc.OpDoorbell?)
    ensures SpEnabled(c, s, SpRun)
    ensures var n := SpStep(c, s, SpRun); GoesOn(c, s, n) && Stage(n) < Stage(s)
  {
    hide Size; hide ValidOp; hide LayoutEnd; hide LayoutStart; hide Submitted; hide AllClear; hide Wrap;
    hide Intact; hide Before; hide IndexOf; hide Useful; hide Flatten; hide AllPacketsOf;
    if s.pc.Top? && s.pads == 1 {
      var from := LayoutEnd(c, c.start, s.ops);
      WrapToStart(c, from, Pad(c, from, Bytes(s.pc.op.packets)));
    }
  }

  lemma StoreGoesOn(c: Config, s: SpState)
    requires SpInv(c, s) && Grantable(c, s)
    requires s.pc.PadStore? || s.pc.OpStore? || s.pc.PadWptr? || s.pc.OpWptr?
    ensures SpEnabled(c, s, SpRun)
    ensures var n := SpStep(c, s, SpRun);
            GoesOn(c, s, n) && (Stage(n) < Stage(s) || (Stage(n) == Stage(s) && StoresLeft(c, n) < StoresLeft(c, s)))
  {
    hide Size; hide LayoutEnd; hide LayoutStart; hide Submitted; hide AllClear; hide Wrap; hide Laid; hide Encodable;
    hide Intact; hide Before; hide IndexOf; hide ZeroNops; hide NewIndex; hide ToEnd; hide Slot; hide EncodeAll;
  }

  /** A submission in progress can be brought to its end by the producer and the engine alone. */
  lemma SpFinishes(c: Config, s: SpState) returns (n: SpState)
    requires SpReachable(c, s) && ValidConfig(c) && !s.pc.Resting? && Grantable(c, s)
    ensures SpReachable(c, n) && n.pc.Resting?
    ensures n.ops == if Reserving(s.pc) then s.ops + [s.pc.op] else s.ops
    decreases Stage(s), StoresLeft(c, s), if s.ring.rptr < s.ring.limit then s.ring.limit - s.ring.rptr else 0
  {
    hide SpReachable; hide SpInv; hide SpStep; hide SpEnabled; hide Stage; hide StoresLeft; hide Grantable;
    SpReachableInv(c, s);
    var e := if s.ring.rptr < s.ring.wptr then SpEngine else SpRun;
    if e.SpEngine? {
      EngineGoesOn(c, s);
      BelowLimit(c, s);
    } else {
      RunGoesOn(c, s);
    }
    SpReachStep(c, s, e);
    var m := SpStep(c, s, e);
    if m.pc.Resting? {
      n := m;
    } else {
      n := SpFinishes(c, m);
    }
  }

  lemma BelowLimit(c: Config, s: SpState)
    requires SpInv(c, s)
    ensures s.ring.rptr <= s.ring.wptr <= s.ring.limit
  {
    hide Inv; hide Laid; hide SpPcOk; hide Submitted; hide AllClear;
    PointersOrdered(c, s.ring);
  }

  lemma RunGoesOn(c: Config, s: SpState)
    requires SpInv(c, s) && Grantable(c, s) && s.ring.rptr >= s.ring.wptr && !s.pc.Resting?
    ensures SpEnabled(c, s, SpRun)
    ensures var n := SpStep(c, s, SpRun);
            GoesOn(c, s, n) && (Stage(n) < Stage(s) || (Stage(n) == Stage(s) && StoresLeft(c, n) < StoresLeft(c, s)))
  {
    hide SpInv; hide SpEnabled; hide SpStep; hide Grantable; hide GoesOn; hide Stage; hide StoresLeft;
    BelowLimit(c, s);
    match s.pc
    case PadTest(_, _) => ReserveGoesOn(c, s);
    case RoomTest(_, _) => ReserveGoesOn(c, s);
    case Top(_) => TopGoesOn(c, s);
    case PadDoorbell(_, _) => TopGoesOn(c, s);
    case OpDoorbell(_, _) => TopGoesOn(c, s);
    case _ => StoreGoesOn(c, s);
  }
}
