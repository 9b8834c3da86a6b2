/**
 The SDMA ring as its producers and the engine see it: a buffer of dwords addressed by
 absolute byte indices, the regions reserved in it so far, how much of each has been
 stored, how far they are published, and where the engine is.

 The four operations below (Reserve, Store, Publish, Execute) are the only ways a queue
 handle or the engine changes the ring; both handles are built on them. Indices are
 unbounded: the 64-bit wrap-around of the real counters is outside the model.
 */
module SdmaRing {
  import opened Modular
  import opened SdmaPackets

  /** Engine generation, ring size in bytes and the write index the queue started at. */
  datatype Config = Config(gen: Generation, ringBytes: nat, start: nat)

  predicate ValidConfig(c: Config) {
    c.ringBytes > 0 && c.ringBytes % 4 == 0 && c.start % 4 == 0
  }

  /** WrapIntoRing. */
  function Wrap(c: Config, index: nat): (w: nat)
    requires ValidConfig(c)
    ensures w < c.ringBytes
  {
    index % c.ringBytes
  }

  /** The dword of the buffer that holds the dword at a byte index. */
  function Slot(c: Config, index: nat): (k: nat)
    requires ValidConfig(c)
    ensures k < c.ringBytes / 4
  {
    SlotInRange(c, index);
    Wrap(c, index) / 4
  }

  lemma SlotInRange(c: Config, index: nat)
    requires ValidConfig(c)
    ensures Wrap(c, index) / 4 < c.ringBytes / 4
  {
  }

  /** Inside the room left before the ring end, wrapping commutes with advancing. */
  lemma WrapAdvance(c: Config, a: nat, d: nat)
    requires ValidConfig(c) && Wrap(c, a) + d < c.ringBytes
    ensures Wrap(c, a + d) == Wrap(c, a) + d
  {
    ModAdvance(a, d, c.ringBytes);
  }

  /** Inside the room left, slots follow each other. */
  lemma SlotFollows(c: Config, at: nat, i: nat)
    requires ValidConfig(c) && at % 4 == 0 && Wrap(c, at) + 4 * i < c.ringBytes
    ensures Slot(c, at + 4 * i) == Slot(c, at) + i
  {
    WrapAdvance(c, at, 4 * i);
  }

  /** Advancing by exactly the room left leads to the start of the ring. */
  lemma WrapToStart(c: Config, a: nat, d: nat)
    requires ValidConfig(c) && Wrap(c, a) + d == c.ringBytes
    ensures Wrap(c, a + d) == 0
  {
    ModWrap(a, d, c.ringBytes);
  }

  /** Two dword indices less than a ring apart never share a slot. */
  lemma SlotDistinct(c: Config, a: nat, b: nat)
    requires ValidConfig(c) && a % 4 == 0 && b % 4 == 0
    requires a < b < a + c.ringBytes
    ensures Slot(c, a) != Slot(c, b)
  {
    ModMultiple(a, c.ringBytes, 4);
    ModMultiple(b, c.ringBytes, 4);
    ModDistinct(a, b, c.ringBytes);
  }

  // ---------------------------------------------------------------- regions

  /** A reserved byte range and the packets that fill it. */
  datatype Region = Region(base: nat, packets: seq<Packet>)

  function Bytes(ps: seq<Packet>): nat { 4 * Size(ps) }

  function End(r: Region): nat { r.base + Bytes(r.packets) }

  /** Start of the j-th region, or of the free space behind the last one. */
  function Boundary(c: Config, rs: seq<Region>, j: nat): nat
    requires j <= |rs|
  {
    if j == 0 then c.start else End(rs[j - 1])
  }

  function WordAt(c: Config, r: Region, k: nat): U32
    requires AllEncodable(c.gen, r.packets) && k < Size(r.packets)
  {
    EncodeAll(c.gen, r.packets)[k]
  }

  function Flatten(rs: seq<Region>): seq<Packet> {
    if rs == [] then [] else rs[0].packets + Flatten(rs[1..])
  }

  /**
   The ring. regions lists every reservation in order, placed how many dwords of each have
   been stored, published how many of them wptr covers; (region, packet) is the packet the
   engine reads next and executed everything it has run.
   */
  datatype Ring = Ring(buf: seq<U32>, rptr: nat, wptr: nat, limit: nat,
                       regions: seq<Region>, placed: seq<nat>, published: nat,
                       region: nat, packet: nat, executed: seq<Packet>, mem: Memory)

  function Empty(c: Config, buf: seq<U32>, mem: Memory): Ring {
    Ring(buf, c.start, c.start, c.start, [], [], 0, 0, 0, [], mem)
  }

  predicate Shaped(c: Config, rs: seq<Region>) {
    forall j :: 0 <= j < |rs| ==>
      rs[j].packets != [] && AllEncodable(c.gen, rs[j].packets) && rs[j].base % 4 == 0
  }

  /** Reservations are contiguous: each starts where the previous one ends. */
  predicate Chained(c: Config, rs: seq<Region>) {
    forall j {:trigger Boundary(c, rs, j)} :: 0 <= j < |rs| ==> rs[j].base == Boundary(c, rs, j)
  }

  predicate Ordered(c: Config, rs: seq<Region>) {
    && (forall j :: 0 <= j < |rs| ==> c.start <= rs[j].base)
    && (forall i, j :: 0 <= i < j < |rs| ==> End(rs[i]) <= rs[j].base)
  }

  predicate Stored(rs: seq<Region>, placed: seq<nat>, published: nat) {
    && |placed| == |rs|
    && (forall j :: 0 <= j < |rs| ==> placed[j] <= Size(rs[j].packets))
    && published <= |rs|
    && (forall j :: 0 <= j < published ==> placed[j] == Size(rs[j].packets))
  }

  /** The k-th dword of region j is in its place. */
  predicate Holds(c: Config, s: Ring, j: nat, k: nat)
    requires ValidConfig(c) && |s.buf| == c.ringBytes / 4
    requires j < |s.regions| && AllEncodable(c.gen, s.regions[j].packets) && k < Size(s.regions[j].packets)
  {
    s.buf[Slot(c, s.regions[j].base + 4 * k)] == WordAt(c, s.regions[j], k)
  }

  /** Every stored dword the engine has not passed is still in the buffer. */
  predicate Intact(c: Config, s: Ring)
    requires ValidConfig(c) && |s.buf| == c.ringBytes / 4
    requires Shaped(c, s.regions) && Stored(s.regions, s.placed, s.published)
  {
    forall j, k :: 0 <= j < |s.regions| && 0 <= k < s.placed[j] && s.rptr <= s.regions[j].base + 4 * k ==>
      Holds(c, s, j, k)
  }

  /** A packet position: region r and packet p of it, or the boundary behind the last region. */
  predicate Position(rs: seq<Region>, published: nat, r: nat, p: nat) {
    && r <= published <= |rs|
    && (r == published ==> p == 0)
    && (r < published ==> p < |rs[r].packets|)
  }

  /** The byte index of a packet position. */
  function IndexOf(c: Config, rs: seq<Region>, r: nat, p: nat): nat
    requires r <= |rs| && (p > 0 ==> r < |rs| && p <= |rs[r].packets|)
  {
    Boundary(c, rs, r) + if p == 0 then 0 else Bytes(rs[r].packets[..p])
  }

  /** The packets before a position. */
  function Before(rs: seq<Region>, r: nat, p: nat): seq<Packet>
    requires r <= |rs| && (p > 0 ==> r < |rs| && p <= |rs[r].packets|)
  {
    Flatten(rs[..r]) + if p == 0 then [] else rs[r].packets[..p]
  }

  predicate Inv(c: Config, s: Ring) {
    && ValidConfig(c)
    && |s.buf| == c.ringBytes / 4
    && Shaped(c, s.regions) && Chained(c, s.regions) && Ordered(c, s.regions)
    && s.limit == Boundary(c, s.regions, |s.regions|)
    && Stored(s.regions, s.placed, s.published)
    && s.wptr == Boundary(c, s.regions, s.published)
    && Position(s.regions, s.published, s.region, s.packet)
    && s.rptr == IndexOf(c, s.regions, s.region, s.packet)
    && s.executed == Before(s.regions, s.region, s.packet)
    && s.limit - s.rptr < c.ringBytes
    && Intact(c, s)
  }

  // ---------------------------------------------------------------- operations

  function Reserve(s: Ring, packets: seq<Packet>): Ring {
    s.(limit := s.limit + Bytes(packets),
       regions := s.regions + [Region(s.limit, packets)],
       placed := s.placed + [0])
  }

  /** The producer of region j stores its next dword. */
  function Store(c: Config, s: Ring, j: nat): Ring
    requires Inv(c, s) && s.published <= j < |s.regions| && s.placed[j] < Size(s.regions[j].packets)
  {
    var k := s.placed[j];
    s.(buf := s.buf[Slot(c, s.regions[j].base + 4 * k) := WordAt(c, s.regions[j], k)],
       placed := s.placed[j := k + 1])
  }

  /** wptr moves past the next region. */
  function Publish(s: Ring): Ring
    requires s.published < |s.regions|
  {
    s.(published := s.published + 1, wptr := End(s.regions[s.published]))
  }

  /** The dwords between the read and the write pointer. */
  function Window(c: Config, s: Ring): (ws: seq<U32>)
    requires ValidConfig(c) && |s.buf| == c.ringBytes / 4 && s.rptr <= s.wptr
  {
    seq((s.wptr - s.rptr) / 4, i requires 0 <= i => s.buf[Slot(c, s.rptr + 4 * i)])
  }

  /** The engine decodes and runs the packet at its read pointer. */
  function Execute(c: Config, s: Ring): Ring
    requires ValidConfig(c) && |s.buf| == c.ringBytes / 4 && s.rptr <= s.wptr
    requires s.region < |s.regions|
    requires Decode(c.gen, Window(c, s)).Some?
  {
    var (p, n) := Decode(c.gen, Window(c, s)).value;
    var last := s.packet + 1 == |s.regions[s.region].packets|;
    s.(rptr := s.rptr + 4 * n, executed := s.executed + [p], mem := Exec(s.mem, p),
       region := if last then s.region + 1 else s.region,
       packet := if last then 0 else s.packet + 1)
  }

  // ---------------------------------------------------------------- invariance

  lemma EmptyInv(c: Config, buf: seq<U32>, mem: Memory)
    requires ValidConfig(c) && |buf| == c.ringBytes / 4
    ensures Inv(c, Empty(c, buf, mem))
  {
  }

  lemma BoundaryMonotone(c: Config, rs: seq<Region>, i: nat, j: nat)
    requires Ordered(c, rs) && i <= j <= |rs|
    ensures Boundary(c, rs, i) <= Boundary(c, rs, j)
  {
    if i == 0 && j > 0 {
      assert c.start <= rs[j - 1].base;
    }
  }

  /** A packet position inside a region lies before the end of the region. */
  lemma PositionInRegion(c: Config, rs: seq<Region>, r: nat, p: nat)
    requires Chained(c, rs) && r < |rs| && p < |rs[r].packets|
    ensures rs[r].base <= IndexOf(c, rs, r, p) == rs[r].base + Bytes(rs[r].packets[..p])
    ensures IndexOf(c, rs, r, p) + 4 * Dwords(rs[r].packets[p]) <= End(rs[r])
  {
    SizeAt(rs[r].packets, p);
    if p == 0 { assert rs[r].packets[..0] == []; }
  }

  /** The read pointer never passes the write pointer, nor the write pointer the limit. */
  lemma PointersOrdered(c: Config, s: Ring)
    requires Inv(c, s)
    ensures s.rptr <= s.wptr <= s.limit
    ensures s.region < s.published <==> s.rptr < s.wptr
  {
    hide Size; hide Dwords; hide Encodable; hide Slot; hide Holds; hide Before;
    BoundaryMonotone(c, s.regions, s.published, |s.regions|);
    if s.region < s.published {
      PositionInRegion(c, s.regions, s.region, s.packet);
      BoundaryMonotone(c, s.regions, s.region + 1, s.published);
    }
  }

  /** Appending a region at the end of the chain. */
  lemma AppendRegion(c: Config, rs: seq<Region>, r: Region)
    requires Shaped(c, rs) && Chained(c, rs) && Ordered(c, rs)
    requires r.base == Boundary(c, rs, |rs|) && r.base % 4 == 0
    requires r.packets != [] && AllEncodable(c.gen, r.packets)
    ensures Shaped(c, rs + [r]) && Chained(c, rs + [r]) && Ordered(c, rs + [r])
    ensures Boundary(c, rs + [r], |rs| + 1) == End(r)
  {
    hide Size; hide Encodable;
    var t := rs + [r];
    forall j | 0 <= j < |t|
      ensures t[j].base == Boundary(c, t, j)
    {
      if j < |rs| { assert rs[j].base == Boundary(c, rs, j); }
    }
    forall i | 0 <= i < |rs|
      ensures End(rs[i]) <= r.base
    {
      BoundaryMonotone(c, rs, i + 1, |rs|);
    }
    BoundaryMonotone(c, rs, 0, |rs|);
  }

  lemma ReservePreserves(c: Config, s: Ring, packets: seq<Packet>)
    requires Inv(c, s) && packets != [] && AllEncodable(c.gen, packets)
    requires s.limit + Bytes(packets) - s.rptr < c.ringBytes
    ensures Inv(c, Reserve(s, packets))
  {
    hide Size; hide Dwords; hide Encodable; hide Slot; hide WordAt; hide Flatten;
    hide Shaped; hide Chained; hide Ordered;
    var t := Reserve(s, packets);
    BoundaryAligned(c, s.regions, |s.regions|);
    AppendRegion(c, s.regions, Region(s.limit, packets));
    assert forall j :: 0 <= j < |s.regions| ==> t.regions[j] == s.regions[j] && t.placed[j] == s.placed[j];
    assert t.regions[..t.region] == s.regions[..s.region];
    ReserveIntact(c, s, packets);
  }

  lemma BoundaryAligned(c: Config, rs: seq<Region>, j: nat)
    requires ValidConfig(c) && Shaped(c, rs) && j <= |rs|
    ensures Boundary(c, rs, j) % 4 == 0
  {
    hide Size; hide Encodable;
    if j > 0 {
      var base := rs[j - 1].base;
      hide Shaped;
      assert (base + 4 * Size(rs[j - 1].packets)) % 4 == base % 4;
    }
  }

  lemma ReserveIntact(c: Config, s: Ring, packets: seq<Packet>)
    requires Inv(c, s)
    requires Shaped(c, Reserve(s, packets).regions)
    requires Stored(Reserve(s, packets).regions, Reserve(s, packets).placed, s.published)
    ensures Intact(c, Reserve(s, packets))
  {
    hide Size; hide Encodable; hide Slot; hide WordAt; hide Before; hide IndexOf;
    hide Chained; hide Ordered; hide Boundary;
    var t := Reserve(s, packets);
    forall j, k | 0 <= j < |t.regions| && 0 <= k < t.placed[j] && t.rptr <= t.regions[j].base + 4 * k
      ensures Holds(c, t, j, k)
    {
      assert t.regions[j] == s.regions[j] && t.placed[j] == s.placed[j];
      assert Holds(c, s, j, k);
    }
  }

  /**
   A store lands behind everything the engine may still read: at or past wptr, and less
   than a ring ahead of the read pointer.
   */
  lemma StoreInFreeSpace(c: Config, s: Ring, j: nat)
    requires Inv(c, s) && s.published <= j < |s.regions| && s.placed[j] < Size(s.regions[j].packets)
    ensures s.rptr <= s.wptr <= s.regions[j].base + 4 * s.placed[j] < s.rptr + c.ringBytes
  {
    hide Size; hide Dwords; hide Encodable; hide Slot; hide Holds; hide Before;
    PointersOrdered(c, s);
    BoundaryMonotone(c, s.regions, s.published, j);
    BoundaryMonotone(c, s.regions, j + 1, |s.regions|);
  }

  /** Different dwords of the reservations, less than a ring apart, are in different slots. */
  lemma DwordsApart(c: Config, rs: seq<Region>, i: nat, k: nat, j: nat, l: nat)
    requires ValidConfig(c) && Shaped(c, rs) && Ordered(c, rs) && i < |rs| && j < |rs|
    requires k < Size(rs[i].packets) && l < Size(rs[j].packets)
    requires i != j || k != l
    requires rs[i].base + 4 * k < rs[j].base + 4 * l + c.ringBytes
    requires rs[j].base + 4 * l < rs[i].base + 4 * k + c.ringBytes
    ensures Slot(c, rs[i].base + 4 * k) != Slot(c, rs[j].base + 4 * l)
  {
    hide Size; hide Encodable; hide Slot;
    var a, b := rs[i].base + 4 * k, rs[j].base + 4 * l;
    if i < j {
      assert End(rs[i]) <= rs[j].base;
    } else if j < i {
      assert End(rs[j]) <= rs[i].base;
    }
    if a < b { SlotDistinct(c, a, b); } else { SlotDistinct(c, b, a); }
  }

  /** Every dword of a reservation lies before the limit. */
  lemma DwordBelowLimit(c: Config, s: Ring, i: nat, k: nat)
    requires Inv(c, s) && i < |s.regions| && k < Size(s.regions[i].packets)
    ensures s.regions[i].base + 4 * k < s.limit < s.rptr + c.ringBytes
  {
    hide Size; hide Dwords; hide Encodable; hide Slot; hide Holds; hide Before;
    BoundaryMonotone(c, s.regions, i + 1, |s.regions|);
  }

  lemma StorePreserves(c: Config, s: Ring, j: nat)
    requires Inv(c, s) && s.published <= j < |s.regions| && s.placed[j] < Size(s.regions[j].packets)
    ensures Inv(c, Store(c, s, j))
  {
    hide Size; hide Dwords; hide Encodable; hide Slot; hide WordAt; hide Before; hide IndexOf; hide Boundary;
    var t := Store(c, s, j);
    assert Stored(t.regions, t.placed, t.published);
    StoreInFreeSpace(c, s, j);
    forall i, k | 0 <= i < |t.regions| && 0 <= k < t.placed[i] && t.rptr <= t.regions[i].base + 4 * k
      ensures Holds(c, t, i, k)
    {
      if i != j || k != s.placed[j] {
        assert Holds(c, s, i, k);
        DwordBelowLimit(c, s, i, k);
        DwordsApart(c, s.regions, i, k, j, s.placed[j]);
      }
    }
  }

  lemma PublishPreserves(c: Config, s: Ring)
    requires Inv(c, s) && s.published < |s.regions|
    requires s.placed[s.published] == Size(s.regions[s.published].packets)
    ensures Inv(c, Publish(s))
  {
    hide Size; hide Dwords; hide Encodable; hide Slot; hide WordAt; hide Before; hide IndexOf;
    var t := Publish(s);
    forall j, k | 0 <= j < |t.regions| && 0 <= k < t.placed[j] && t.rptr <= t.regions[j].base + 4 * k
      ensures Holds(c, t, j, k)
    {
      assert Holds(c, s, j, k);
    }
  }

  /** The next packet of the engine, as the reservations say. */
  function Expected(s: Ring): Packet
    requires s.region < |s.regions| && s.packet < |s.regions[s.region].packets|
  {
    s.regions[s.region].packets[s.packet]
  }

  /** A packet of a region, dword by dword, in the encoding of the region. */
  lemma PacketWords(c: Config, r: Region, p: nat, i: nat)
    requires AllEncodable(c.gen, r.packets) && p < |r.packets| && i < Dwords(r.packets[p])
    ensures Size(r.packets[..p]) + i < Size(r.packets)
    ensures WordAt(c, r, Size(r.packets[..p]) + i) == Words(c.gen, r.packets[p])[i]
  {
    hide Size; hide Dwords; hide Encodable; hide Words; hide EncodeAll;
    var off, n := Size(r.packets[..p]), Dwords(r.packets[p]);
    EncodeAt(c.gen, r.packets, p);
    assert EncodeAll(c.gen, r.packets)[off..][..n][i] == EncodeAll(c.gen, r.packets)[off + i];
  }

  /** In front of the write pointer the buffer holds the packet that was reserved there. */
  lemma WindowPrefix(c: Config, s: Ring)
    requires Inv(c, s) && s.region < s.published
    ensures s.rptr <= s.wptr
    ensures Words(c.gen, Expected(s)) <= Window(c, s)
  {
    hide Size; hide Dwords; hide Encodable; hide Slot; hide WordAt; hide Before; hide Words;
    PointersOrdered(c, s);
    var r, p := s.regions[s.region], Expected(s);
    var off := Size(r.packets[..s.packet]);
    PositionInRegion(c, s.regions, s.region, s.packet);
    BoundaryMonotone(c, s.regions, s.region + 1, s.published);
    var ws := Window(c, s);
    assert |ws| >= Dwords(p);
    forall i | 0 <= i < Dwords(p)
      ensures ws[i] == Words(c.gen, p)[i]
    {
      PacketWords(c, r, s.packet, i);
      assert Holds(c, s, s.region, off + i);
      assert s.rptr + 4 * i == r.base + 4 * (off + i);
    }
  }

  /** The engine always decodes the packet that was reserved where it reads. */
  lemma EngineReads(c: Config, s: Ring)
    requires Inv(c, s) && s.rptr < s.wptr
    ensures s.region < s.published <= |s.regions| && s.packet < |s.regions[s.region].packets|
    ensures Decode(c.gen, Window(c, s)) == Some((Expected(s), Dwords(Expected(s))))
  {
    hide Size; hide Dwords; hide Encodable; hide Slot; hide Holds; hide Before; hide Decode; hide Words;
    PointersOrdered(c, s);
    WindowPrefix(c, s);
    DecodeWords(c.gen, Expected(s), Window(c, s));
  }

  lemma {:induction false} FlattenSnoc(rs: seq<Region>, r: Region)
    ensures Flatten(rs + [r]) == Flatten(rs) + r.packets
  {
    if rs == [] {
      assert [r][1..] == [];
      assert rs + [r] == [r];
    } else {
      assert (rs + [r])[1..] == rs[1..] + [r];
      FlattenSnoc(rs[1..], r);
    }
  }

  /** Moving on by one packet. */
  lemma NextPosition(c: Config, rs: seq<Region>, r: nat, p: nat)
    requires Chained(c, rs) && r < |rs| && p < |rs[r].packets|
    ensures var last := p + 1 == |rs[r].packets|;
            var r', p' := if last then r + 1 else r, if last then 0 else p + 1;
            && IndexOf(c, rs, r', p') == IndexOf(c, rs, r, p) + 4 * Dwords(rs[r].packets[p])
            && Before(rs, r', p') == Before(rs, r, p) + [rs[r].packets[p]]
  {
    var ps := rs[r].packets;
    SizeAt(ps, p);
    if p == 0 { assert ps[..0] == []; }
    assert ps[..p + 1] == ps[..p] + [ps[p]];
    if p + 1 == |ps| {
      assert ps[..p + 1] == ps;
      assert rs[..r + 1] == rs[..r] + [rs[r]];
      FlattenSnoc(rs[..r], rs[r]);
    }
  }

  lemma ExecutePreserves(c: Config, s: Ring)
    requires Inv(c, s) && s.rptr < s.wptr
    ensures s.region < |s.regions| && Decode(c.gen, Window(c, s)).Some?
    ensures Inv(c, Execute(c, s))
    ensures Execute(c, s).executed == s.executed + [Expected(s)]
    ensures Execute(c, s).mem == Exec(s.mem, Expected(s))
    ensures s.rptr < Execute(c, s).rptr <= s.wptr
  {
    hide Size; hide Dwords; hide Encodable; hide Slot; hide Intact; hide Before; hide Decode; hide IndexOf;
    hide Exec; hide Window; hide Ordered;
    EngineReads(c, s);
    var t := Execute(c, s);
    NextPosition(c, s.regions, s.region, s.packet);
    PositionInRegion(c, s.regions, s.region, s.packet);
    BoundaryMonotone(c, s.regions, s.region + 1, s.published);
    assert Position(t.regions, t.published, t.region, t.packet);
    StillIntact(c, s, t);
  }

  lemma StillIntact(c: Config, s: Ring, t: Ring)
    requires ValidConfig(c) && |s.buf| == c.ringBytes / 4 && Shaped(c, s.regions)
    requires Stored(s.regions, s.placed, s.published) && Intact(c, s)
    requires t.buf == s.buf && t.regions == s.regions && t.placed == s.placed && t.published == s.published
    requires s.rptr <= t.rptr
    ensures Intact(c, t)
  {
    hide Size; hide Encodable; hide Slot; hide WordAt;
    forall j, k | 0 <= j < |t.regions| && 0 <= k < t.placed[j] && t.rptr <= t.regions[j].base + 4 * k
      ensures Holds(c, t, j, k)
    {
      assert Holds(c, s, j, k);
    }
  }

  // ---------------------------------------------------------------- what the window holds

  /** The packets the engine has still to run: those of the published regions past its cursor. */
  function Pending(s: Ring): seq<Packet>
    requires Position(s.regions, s.published, s.region, s.packet)
  {
    if s.region == s.published then []
    else s.regions[s.region].packets[s.packet..] + Flatten(s.regions[s.region + 1..s.published])
  }

  lemma {:induction false} FlattenEncodable(c: Config, rs: seq<Region>)
    requires Shaped(c, rs)
    ensures AllEncodable(c.gen, Flatten(rs))
  {
    if rs != [] { FlattenEncodable(c, rs[1..]); }
  }

  lemma {:induction false} FlattenLength(c: Config, rs: seq<Region>, j: nat, n: nat)
    requires Chained(c, rs) && j <= n <= |rs|
    ensures Boundary(c, rs, j) + 4 * Size(Flatten(rs[j..n])) == Boundary(c, rs, n)
    decreases n - j
  {
    hide Size;
    if j == n {
      assert rs[j..n] == [];
      SizeEmpty();
    } else {
      assert rs[j..n][0] == rs[j] && rs[j..n][1..] == rs[j + 1..n];
      SizeAppend(rs[j].packets, Flatten(rs[j + 1..n]));
      FlattenLength(c, rs, j + 1, n);
      assert rs[j].base == Boundary(c, rs, j);
    }
  }

  /** The dwords of region j, ahead of the engine, in the buffer. */
  lemma RegionWords(c: Config, s: Ring, j: nat, i: nat)
    requires Inv(c, s) && s.region < j < s.published && i < Size(s.regions[j].packets)
    ensures s.buf[Slot(c, Boundary(c, s.regions, j) + 4 * i)] == EncodeAll(c.gen, s.regions[j].packets)[i]
  {
    hide Size; hide Dwords; hide Encodable; hide Slot; hide Before; hide EncodeAll;
    PositionInRegion(c, s.regions, s.region, s.packet);
    BoundaryMonotone(c, s.regions, s.region + 1, j);
    assert Holds(c, s, j, i);
  }

  /** From a region boundary on, the buffer up to wptr holds the encoding of the regions. */
  lemma {:induction false} PublishedWords(c: Config, s: Ring, j: nat, i: nat)
    requires Inv(c, s) && s.region < j <= s.published && i < Size(Flatten(s.regions[j..s.published]))
    ensures AllEncodable(c.gen, Flatten(s.regions[j..s.published]))
    ensures s.buf[Slot(c, Boundary(c, s.regions, j) + 4 * i)] == EncodeAll(c.gen, Flatten(s.regions[j..s.published]))[i]
    decreases s.published - j
  {
    hide Size; hide Encodable; hide Slot; hide Before; hide IndexOf; hide EncodeAll; hide Holds; hide Ordered;
    var rest := s.regions[j..s.published];
    FlattenEncodable(c, rest);
    if j == s.published {
      assert rest == [];
      SizeEmpty();
    } else {
      var r := s.regions[j];
      assert rest[0] == r && rest[1..] == s.regions[j + 1..s.published];
      var tail := Flatten(rest[1..]);
      FlattenEncodable(c, rest[1..]);
      SizeAppend(r.packets, tail);
      EncodeAppend(c.gen, r.packets, tail);
      var n := Size(r.packets);
      if i < n {
        RegionWords(c, s, j, i);
      } else {
        PublishedWords(c, s, j + 1, i - n);
        assert r.base == Boundary(c, s.regions, j);
        assert Boundary(c, s.regions, j) + 4 * i == Boundary(c, s.regions, j + 1) + 4 * (i - n);
      }
    }
  }

  lemma SizeEmpty()
    ensures Size([]) == 0
  {
  }

  /** The rest of the region the engine is in, dword by dword. */
  lemma CurrentWords(c: Config, s: Ring, i: nat)
    requires Inv(c, s) && s.region < s.published
    requires i < Size(s.regions[s.region].packets[s.packet..])
    ensures AllEncodable(c.gen, s.regions[s.region].packets[s.packet..])
    ensures s.buf[Slot(c, s.rptr + 4 * i)] == EncodeAll(c.gen, s.regions[s.region].packets[s.packet..])[i]
  {
    hide Size; hide Dwords; hide Encodable; hide Slot; hide Before; hide EncodeAll; hide Ordered;
    var r := s.regions[s.region];
    var done, head := r.packets[..s.packet], r.packets[s.packet..];
    PositionInRegion(c, s.regions, s.region, s.packet);
    assert r.packets == done + head;
    SizeAppend(done, head);
    EncodeAppend(c.gen, done, head);
    assert Holds(c, s, s.region, Size(done) + i);
    assert s.rptr + 4 * i == r.base + 4 * (Size(done) + i);
  }

  lemma WindowLength(c: Config, s: Ring)
    requires Inv(c, s) && s.region < s.published
    ensures s.rptr + 4 * Size(Pending(s)) == s.wptr
    ensures s.rptr + 4 * Size(s.regions[s.region].packets[s.packet..]) == Boundary(c, s.regions, s.region + 1)
  {
    hide Size; hide Dwords; hide Encodable; hide Slot; hide Holds; hide Before; hide EncodeAll; hide Ordered;
    hide Flatten;
    var r := s.regions[s.region];
    var done, head := r.packets[..s.packet], r.packets[s.packet..];
    PositionInRegion(c, s.regions, s.region, s.packet);
    assert r.packets == done + head;
    SizeAppend(done, head);
    FlattenLength(c, s.regions, s.region + 1, s.published);
    SizeAppend(head, Flatten(s.regions[s.region + 1..s.published]));
  }

  lemma WindowIsEncoding(c: Config, s: Ring)
    requires Inv(c, s) && s.region < s.published
    ensures s.rptr <= s.wptr && AllEncodable(c.gen, Pending(s))
    ensures Window(c, s) == EncodeAll(c.gen, Pending(s))
  {
    hide Size; hide Dwords; hide Encodable; hide Slot; hide Holds; hide Before; hide EncodeAll; hide Flatten;
    hide IndexOf; hide Boundary;
    WindowLength(c, s);
    var head, tail := s.regions[s.region].packets[s.packet..], Flatten(s.regions[s.region + 1..s.published]);
    FlattenEncodable(c, s.regions[s.region + 1..s.published]);
    EncodeAppend(c.gen, head, tail);
    SizeAppend(head, tail);
    var ws, es := Window(c, s), EncodeAll(c.gen, head + tail);
    assert |ws| == |es|;
    forall i | 0 <= i < |ws|
      ensures ws[i] == es[i]
    {
      if i < Size(head) {
        CurrentWords(c, s, i);
      } else {
        PublishedWords(c, s, s.region + 1, i - Size(head));
        assert s.rptr + 4 * i == Boundary(c, s.regions, s.region + 1) + 4 * (i - Size(head));
      }
    }
  }

  /**
   FIFO: decoding the dwords between rptr and wptr gives exactly the packets of the
   published regions that the engine has not run, and with those already run it makes up
   all packets of the published regions, in reservation order, each once.
   */
  lemma WindowDecodes(c: Config, s: Ring)
    requires Inv(c, s)
    ensures s.rptr <= s.wptr
    ensures DecodeAll(c.gen, Window(c, s)) == Some(Pending(s))
    ensures s.executed + Pending(s) == Flatten(s.regions[..s.published])
  {
    hide Size; hide Dwords; hide Encodable; hide Slot; hide Holds; hide EncodeAll; hide Decode;
    PointersOrdered(c, s);
    if s.region < s.published {
      WindowIsEncoding(c, s);
      DecodeEncodeAll(c.gen, Pending(s));
      AllPackets(s.regions[..s.published], s.region, s.packet);
      assert s.regions[..s.published][..s.region] == s.regions[..s.region];
      assert s.regions[..s.published][s.region + 1..] == s.regions[s.region + 1..s.published];
    } else {
      assert Window(c, s) == [];
    }
  }

  lemma AllPackets(rs: seq<Region>, r: nat, p: nat)
    requires r < |rs| && p < |rs[r].packets|
    ensures Flatten(rs) == Flatten(rs[..r]) + rs[r].packets[..p] + (rs[r].packets[p..] + Flatten(rs[r + 1..]))
  {
    FlattenSplit(rs, r);
    var ps := rs[r].packets;
    assert ps == ps[..p] + ps[p..];
    assert rs[r..][0] == rs[r] && rs[r..][1..] == rs[r + 1..];
  }

  lemma {:induction false} FlattenSplit(rs: seq<Region>, k: nat)
    requires k <= |rs|
    ensures Flatten(rs) == Flatten(rs[..k]) + Flatten(rs[k..])
  {
    if k > 0 {
      assert rs[..k][1..] == rs[1..][..k - 1] && rs[k..] == rs[1..][k - 1..];
      FlattenSplit(rs[1..], k - 1);
    } else {
      assert rs[..0] == [] && rs[0..] == rs;
    }
  }

  /** A region ends at or before the read pointer exactly when all its packets have run. */
  lemma ConsumedIff(c: Config, s: Ring, j: nat)
    requires Inv(c, s) && j < |s.regions|
    ensures End(s.regions[j]) <= s.rptr <==> j < s.region
  {
    hide Size; hide Dwords; hide Encodable; hide Slot; hide Holds; hide Before;
    if j < s.region {
      BoundaryMonotone(c, s.regions, j + 1, s.region);
    } else if s.region < s.published {
      PositionInRegion(c, s.regions, s.region, s.packet);
      BoundaryMonotone(c, s.regions, s.region + 1, j + 1);
    } else {
      SizePositive(s.regions[j].packets);
      BoundaryMonotone(c, s.regions, s.region, j);
    }
  }

  lemma SizePositive(ps: seq<Packet>)
    requires ps != []
    ensures Size(ps) > 0
  {
  }
}
