/**
 SDMA packets: how the packet constructors lay their fields out in dwords, how an
 engine of either generation reads dwords back, and what a packet does to memory.

 The constructors follow the bit-field layouts of the packet structures, including the
 fields that are narrower than the value stored in them: the 30-bit copy count, the
 14-bit NOP count and the fused signal address, whose low three bits are not stored.
 */
module SdmaPackets {
  type U32 = x: int | 0 <= x < 0x1_0000_0000
  type U64 = x: int | 0 <= x < 0x1_0000_0000_0000_0000
  type Byte = x: int | 0 <= x < 256

  datatype Option<+T> = None | Some(value: T)

  /** Packet format an engine understands, chosen at build time by XIO_SDMA_OSS7. */
  datatype Generation = PreOss7 | Oss7

  datatype Packet =
    | Nop(count: nat)
    | Copy(src: U64, dst: U64, size: nat)
    | Atomic(addr: U64, delta: U64)
    | CopySignal(src: U64, dst: U64, size: nat, addr: U64, delta: U64)

  const OP_NOP := 0
  const OP_COPY := 1
  const OP_ATOMIC := 10
  const ATOMIC_ADD64 := 47
  const SIGNAL_ADD64 := 111
  const MAX_COPY := 0x4000_0000
  const MAX_NOP := 0x4000

  // ---------------------------------------------------------------- constructors

  function Lo(x: U64): U32 { x % 0x1_0000_0000 }
  function Hi(x: U64): U32 { x / 0x1_0000_0000 }
  function Join(lo: U32, hi: U32): U64 { hi * 0x1_0000_0000 + lo }

  /** The value a 30-bit field keeps of size - 1. */
  function CountField(size: nat): U32
    requires size > 0
  {
    (size - 1) % 0x4000_0000
  }

  /** CopyLinearPacket. Its assertion admits sizes up to 4 GiB. */
  function CopyWords(src: U64, dst: U64, size: nat): (ws: seq<U32>)
    requires 0 < size <= 0x1_0000_0000
  {
    [OP_COPY, CountField(size), 0, Lo(src), Hi(src), Lo(dst), Hi(dst)]
  }

  /** AtomicAddPacket<uint64_t>. */
  function AtomicWords(addr: U64, delta: U64): (ws: seq<U32>) {
    [OP_ATOMIC + ATOMIC_ADD64 * 0x200_0000, Lo(addr), Hi(addr), Lo(delta), Hi(delta), 0, 0, 0]
  }

  /** A 19-dword copy with its signal bit set: bits 31..3 of the signal address are kept. */
  function SignalWords(src: U64, dst: U64, size: nat, signal: U64, data: U64): (ws: seq<U32>)
    requires 0 < size <= MAX_COPY
  {
    [OP_COPY + 0x8000_0000, 0, 0, 0, 0, 0, 0, 0,
     CountField(size), 0, Lo(src), Hi(src), Lo(dst), Hi(dst),
     SIGNAL_ADD64, signal / 8 % 0x2000_0000 * 8, Hi(signal), Lo(data), Hi(data)]
  }

  /**
   CreateCopyWaitSignalPacketMI4 with the wait disabled, as put_signal_counter_impl calls
   it: a null address clears the signal bit.
   */
  function CopySignalWords(src: U64, dst: U64, size: nat, signal: U64, data: U64): (ws: seq<U32>)
    requires 0 < size <= MAX_COPY
  {
    if signal != 0 then SignalWords(src, dst, size, signal, data)
    else [OP_COPY, 0, 0, 0, 0, 0, 0, 0, CountField(size), 0, Lo(src), Hi(src), Lo(dst), Hi(dst), 0, 0, 0, 0, 0]
  }

  function Zeros(n: nat): (ws: seq<U32>)
    ensures |ws| == n
  {
    seq(n, _ => 0)
  }

  /** The padding placePacket writes: a NOP header counting the remaining dwords, then zeros. */
  function PadWords(dwords: nat): (ws: seq<U32>)
    ensures |ws| == dwords
  {
    if dwords == 0 then [] else [(dwords - 1) % 0x1_0000 * 0x1_0000] + Zeros(dwords - 1)
  }

  // ---------------------------------------------------------------- encoding and decoding

  /** The packets whose fields fit the format of generation g. */
  predicate Encodable(g: Generation, p: Packet) {
    match p
    case Nop(n) => n < MAX_NOP
    case Copy(_, _, size) => 0 < size <= MAX_COPY
    case Atomic(_, _) => true
    case CopySignal(_, _, size, addr, _) =>
      g == Oss7 && 0 < size <= MAX_COPY && addr % 8 == 0
  }

  predicate AllEncodable(g: Generation, ps: seq<Packet>) {
    forall i :: 0 <= i < |ps| ==> Encodable(g, ps[i])
  }

  /** Length of a packet in dwords, as asserted of its structure. */
  function Dwords(p: Packet): (n: nat)
    ensures n > 0
  {
    match p
    case Nop(n) => n + 1
    case Copy(_, _, _) => 7
    case Atomic(_, _) => 8
    case CopySignal(_, _, _, _, _) => 19
  }

  function Size(ps: seq<Packet>): nat {
    if ps == [] then 0 else Dwords(ps[0]) + Size(ps[1..])
  }

  function Words(g: Generation, p: Packet): (ws: seq<U32>)
    requires Encodable(g, p)
    ensures |ws| == Dwords(p)
  {
    match p
    case Nop(n) => PadWords(n + 1)
    case Copy(src, dst, size) => CopyWords(src, dst, size)
    case Atomic(addr, delta) => AtomicWords(addr, delta)
    case CopySignal(src, dst, size, addr, delta) => SignalWords(src, dst, size, addr, delta)
  }

  function EncodeAll(g: Generation, ps: seq<Packet>): (ws: seq<U32>)
    requires AllEncodable(g, ps)
    ensures |ws| == Size(ps)
  {
    if ps == [] then [] else Words(g, ps[0]) + EncodeAll(g, ps[1..])
  }

  /**
   What an engine of generation g makes of the dwords at its read pointer: a packet and
   its length, or nothing when it does not know the header. Before OSS7 the top header
   bits are reserved in a copy; an OSS7 engine takes bit 31 as "19-dword copy with signal".
   */
  function Decode(g: Generation, ws: seq<U32>): (r: Option<(Packet, nat)>)
    ensures r.Some? ==> 0 < r.value.1 <= |ws|
  {
    if ws == [] then None
    else
      var op, sub := ws[0] % 0x100, ws[0] / 0x100 % 0x100;
      if op == OP_NOP then
        var n := ws[0] / 0x1_0000 % 0x4000;
        if n < |ws| then Some((Nop(n), n + 1)) else None
      else if op == OP_COPY && sub == 0 && (g == PreOss7 || ws[0] < 0x4000_0000) then
        if |ws| < 7 then None
        else Some((Copy(Join(ws[3], ws[4]), Join(ws[5], ws[6]), ws[1] % 0x4000_0000 + 1), 7))
      else if op == OP_COPY && sub == 0 && g == Oss7 && ws[0] / 0x4000_0000 == 2 then
        if |ws| < 19 || ws[14] % 0x80 != SIGNAL_ADD64 then None
        else Some((CopySignal(Join(ws[10], ws[11]), Join(ws[12], ws[13]), ws[8] % 0x4000_0000 + 1,
                              Join(ws[15] / 8 * 8, ws[16]), Join(ws[17], ws[18])), 19))
      else if op == OP_ATOMIC && ws[0] / 0x200_0000 == ATOMIC_ADD64 then
        if |ws| < 8 then None
        else Some((Atomic(Join(ws[1], ws[2]), Join(ws[3], ws[4])), 8))
      else None
  }

  function DecodeAll(g: Generation, ws: seq<U32>): (r: Option<seq<Packet>>)
    decreases |ws|
  {
    if ws == [] then Some([])
    else match Decode(g, ws)
      case None => None
      case Some(head) =>
        match DecodeAll(g, ws[head.1..])
        case None => None
        case Some(rest) => Some([head.0] + rest)
  }

  lemma JoinSplit(x: U64)
    ensures Join(Lo(x), Hi(x)) == x
  {
  }

  /** Bits 63..3 of an address survive the two fused signal-address dwords. */
  lemma AlignedSignal(addr: U64)
    ensures var w := addr / 8 % 0x2000_0000 * 8;
            w < 0x1_0000_0000 && w / 8 * 8 == w && Join(w, Hi(addr)) == addr - addr % 8
  {
    var w := addr / 8 % 0x2000_0000 * 8;
    assert w == Lo(addr) - addr % 8;
  }

  lemma CountSurvives(size: nat)
    requires 0 < size <= MAX_COPY
    ensures CountField(size) % 0x4000_0000 + 1 == size
  {
  }

  lemma DecodeNop(g: Generation, n: nat, ws: seq<U32>)
    requires n < MAX_NOP && PadWords(n + 1) <= ws
    ensures Decode(g, ws) == Some((Nop(n), n + 1))
  {
    assert ws[0] == PadWords(n + 1)[0] == n * 0x1_0000;
  }

  lemma DecodeCopy(g: Generation, src: U64, dst: U64, size: nat, ws: seq<U32>)
    requires 0 < size <= MAX_COPY && CopyWords(src, dst, size) <= ws
    ensures Decode(g, ws) == Some((Copy(src, dst, size), 7))
  {
    var w := CopyWords(src, dst, size);
    assert ws[0] == w[0] && ws[1] == w[1] && ws[3] == w[3] && ws[4] == w[4] && ws[5] == w[5] && ws[6] == w[6];
    JoinSplit(src); JoinSplit(dst);
  }

  lemma DecodeAtomic(g: Generation, addr: U64, delta: U64, ws: seq<U32>)
    requires AtomicWords(addr, delta) <= ws
    ensures Decode(g, ws) == Some((Atomic(addr, delta), 8))
  {
    var w := AtomicWords(addr, delta);
    assert ws[0] == w[0] && ws[1] == w[1] && ws[2] == w[2] && ws[3] == w[3] && ws[4] == w[4];
    JoinSplit(addr); JoinSplit(delta);
  }

  /** What an OSS7 engine reads out of a fused packet: the signal address, rounded down to 8. */
  lemma DecodeFused(src: U64, dst: U64, size: nat, signal: U64, data: U64, ws: seq<U32>)
    requires 0 < size <= MAX_COPY && SignalWords(src, dst, size, signal, data) <= ws
    ensures Decode(Oss7, ws) == Some((CopySignal(src, dst, size, signal - signal % 8, data), 19))
  {
    var w := SignalWords(src, dst, size, signal, data);
    assert ws[0] == w[0] == 0x8000_0001 && ws[8] == w[8] == CountField(size) && ws[14] == w[14] == SIGNAL_ADD64;
    assert ws[10] == w[10] == Lo(src) && ws[11] == w[11] == Hi(src);
    assert ws[12] == w[12] == Lo(dst) && ws[13] == w[13] == Hi(dst);
    assert ws[15] == w[15] == signal / 8 % 0x2000_0000 * 8 && ws[16] == w[16] == Hi(signal);
    assert ws[17] == w[17] == Lo(data) && ws[18] == w[18] == Hi(data);
    hide SignalWords;
    JoinSplit(src); JoinSplit(dst); JoinSplit(data);
    AlignedSignal(signal);
    CountSurvives(size);
    hide Lo; hide Hi; hide Join; hide CountField;
  }

  /** An encoded packet is read back whatever follows it: the encoding is prefix-free. */
  lemma DecodeWords(g: Generation, p: Packet, ws: seq<U32>)
    requires Encodable(g, p) && Words(g, p) <= ws
    ensures Decode(g, ws) == Some((p, |Words(g, p)|))
  {
    match p
    case Nop(n) => DecodeNop(g, n, ws);
    case Copy(src, dst, size) => DecodeCopy(g, src, dst, size, ws);
    case Atomic(addr, delta) => DecodeAtomic(g, addr, delta, ws);
    case CopySignal(src, dst, size, addr, delta) => DecodeFused(src, dst, size, addr, delta, ws);
  }

  lemma {:induction false} EncodeAppend(g: Generation, a: seq<Packet>, b: seq<Packet>)
    requires AllEncodable(g, a) && AllEncodable(g, b)
    ensures AllEncodable(g, a + b) && EncodeAll(g, a + b) == EncodeAll(g, a) + EncodeAll(g, b)
  {
    hide Encodable; hide Words; hide Dwords;
    if a == [] {
      assert a + b == b;
    } else {
      assert (a + b)[1..] == a[1..] + b;
      EncodeAppend(g, a[1..], b);
    }
  }

  lemma {:induction false} SizeAppend(a: seq<Packet>, b: seq<Packet>)
    ensures Size(a + b) == Size(a) + Size(b)
  {
    if a == [] {
      assert a + b == b;
    } else {
      assert (a + b)[1..] == a[1..] + b;
      SizeAppend(a[1..], b);
    }
  }

  lemma SizeOne(p: Packet)
    ensures Size([p]) == Dwords(p)
  {
    assert [p][1..] == [];
  }

  /** Splits the size of a batch at one of its packets. */
  lemma SizeAt(ps: seq<Packet>, k: nat)
    requires k < |ps|
    ensures Size(ps[..k + 1]) == Size(ps[..k]) + Dwords(ps[k])
    ensures Size(ps) == Size(ps[..k + 1]) + Size(ps[k + 1..])
  {
    assert ps[..k + 1] == ps[..k] + [ps[k]];
    SizeAppend(ps[..k], [ps[k]]);
    SizeOne(ps[k]);
    assert ps == ps[..k + 1] + ps[k + 1..];
    SizeAppend(ps[..k + 1], ps[k + 1..]);
  }

  /** Where the words of the k-th packet sit in the encoding of a batch. */
  lemma EncodeAt(g: Generation, ps: seq<Packet>, k: nat)
    requires AllEncodable(g, ps) && k < |ps|
    ensures Size(ps[..k]) + Dwords(ps[k]) <= Size(ps)
    ensures EncodeAll(g, ps)[Size(ps[..k])..][..Dwords(ps[k])] == Words(g, ps[k])
  {
    SizeAt(ps, k);
    var a, b := ps[..k], ps[k..];
    assert ps == a + b;
    EncodeAppend(g, a, b);
    assert EncodeAll(g, ps)[Size(a)..] == EncodeAll(g, b);
    assert EncodeAll(g, b) == Words(g, b[0]) + EncodeAll(g, b[1..]);
  }

  lemma EncodeOne(g: Generation, p: Packet)
    requires Encodable(g, p)
    ensures AllEncodable(g, [p]) && EncodeAll(g, [p]) == Words(g, p)
  {
    assert [p][1..] == [];
  }

  /** Decoding a stream of encoded packets gives back exactly those packets. */
  lemma {:induction false} DecodeEncodeAll(g: Generation, ps: seq<Packet>)
    requires AllEncodable(g, ps)
    ensures DecodeAll(g, EncodeAll(g, ps)) == Some(ps)
  {
    hide Decode; hide Encodable; hide Words; hide Dwords;
    if ps != [] {
      var ws := EncodeAll(g, ps);
      DecodeWords(g, ps[0], ws);
      assert ws[|Words(g, ps[0])|..] == EncodeAll(g, ps[1..]);
      DecodeEncodeAll(g, ps[1..]);
      assert [ps[0]] + ps[1..] == ps;
    }
  }

  /** The constructors leave every reserved dword zero, and without a signal the whole signal part. */
  lemma ReservedAreZero(src: U64, dst: U64, size: nat, signal: U64, data: U64)
    requires 0 < size <= MAX_COPY
    ensures var w := CopyWords(src, dst, size); |w| == 7 && w[2] == 0
    ensures var w := AtomicWords(signal, data); |w| == 8 && forall i :: 5 <= i < 8 ==> w[i] == 0
    ensures var w := CopySignalWords(src, dst, size, signal, data);
            && |w| == 19 && (forall i :: 1 <= i < 8 ==> w[i] == 0) && w[9] == 0
            && w[8] == CopyWords(src, dst, size)[1]
            && (forall i :: 3 <= i < 7 ==> w[i + 7] == CopyWords(src, dst, size)[i])
            && (signal == 0 ==> w[0] == CopyWords(src, dst, size)[0] && forall i :: 14 <= i < 19 ==> w[i] == 0)
  {
  }

  /** An engine takes dwords for a packet only by their operation, and for an add only by its code. */
  lemma DecodedByHeader(g: Generation, ws: seq<U32>)
    requires Decode(g, ws).Some?
    ensures var p := Decode(g, ws).value.0;
            && ws != [] && (p.Nop? <==> ws[0] % 0x100 == OP_NOP)
            && (p.Copy? || p.CopySignal? ==> ws[0] % 0x100 == OP_COPY && (p.CopySignal? ==> g == Oss7))
            && (p.Atomic? ==> ws[0] % 0x100 == OP_ATOMIC && ws[0] / 0x200_0000 == ATOMIC_ADD64)
  {
  }

  /** A copy packet says what was asked of it exactly when the size fits the 30-bit count. */
  lemma CopyCountExact(g: Generation, src: U64, dst: U64, size: nat)
    requires 0 < size <= 0x1_0000_0000
    ensures Decode(g, CopyWords(src, dst, size)) == Some((Copy(src, dst, size), 7)) <==> size <= MAX_COPY
  {
    JoinSplit(src); JoinSplit(dst);
    var r := Decode(g, CopyWords(src, dst, size));
    assert r.Some? && r.value.0.Copy? && r.value.0.size == CountField(size) + 1;
  }

  /** A fused packet names its signal exactly when the signal is eight-byte aligned. */
  lemma FusedSignalExact(src: U64, dst: U64, size: nat, signal: U64, data: U64)
    requires 0 < size <= MAX_COPY && signal != 0
    ensures Decode(Oss7, CopySignalWords(src, dst, size, signal, data)) ==
            Some((CopySignal(src, dst, size, signal - signal % 8, data), 19))
    ensures (Decode(Oss7, CopySignalWords(src, dst, size, signal, data)) ==
             Some((CopySignal(src, dst, size, signal, data), 19))) <==> signal % 8 == 0
  {
    DecodeFused(src, dst, size, signal, data, CopySignalWords(src, dst, size, signal, data));
  }

  /**
   An engine before OSS7 never runs a fused packet as one: it takes the first seven dwords
   as a linear copy from the zeroed wait fields and carries on in the middle of the packet.
   */
  lemma FusedMisreadBeforeOss7(src: U64, dst: U64, size: nat, signal: U64, data: U64, rest: seq<U32>)
    requires 0 < size <= MAX_COPY
    ensures Decode(PreOss7, CopySignalWords(src, dst, size, signal, data) + rest) == Some((Copy(0, 0, 1), 7))
  {
    var ws := CopySignalWords(src, dst, size, signal, data) + rest;
    assert ws[0] == (if signal != 0 then OP_COPY + 0x8000_0000 else OP_COPY);
    assert ws[1] == ws[3] == ws[4] == ws[5] == ws[6] == 0;
  }

  // ---------------------------------------------------------------- effect on memory

  /** Byte-addressed memory; bytes never written read as zero. */
  type Memory = map<int, Byte>

  function ByteAt(m: Memory, a: int): Byte { if a in m then m[a] else 0 }

  /** The byte a copy from src to dst moves to address a. */
  function Moved(m: Memory, src: int, dst: int, a: int): Byte { ByteAt(m, src + (a - dst)) }

  function CopyBytes(m: Memory, src: int, dst: int, size: nat): Memory {
    m + (map a | dst <= a < dst + size :: Moved(m, src, dst, a))
  }

  /** The little-endian 64-bit value at address a. */
  function Read64(m: Memory, a: int): U64 {
    ByteAt(m, a) + 0x100 * ByteAt(m, a + 1) + 0x1_0000 * ByteAt(m, a + 2) +
    0x100_0000 * ByteAt(m, a + 3) + 0x1_0000_0000 * ByteAt(m, a + 4) +
    0x100_0000_0000 * ByteAt(m, a + 5) + 0x1_0000_0000_0000 * ByteAt(m, a + 6) +
    0x100_0000_0000_0000 * ByteAt(m, a + 7)
  }

  function Write64(m: Memory, a: int, v: U64): Memory {
    m[a := v % 0x100][a + 1 := v / 0x100 % 0x100][a + 2 := v / 0x1_0000 % 0x100]
     [a + 3 := v / 0x100_0000 % 0x100][a + 4 := v / 0x1_0000_0000 % 0x100]
     [a + 5 := v / 0x100_0000_0000 % 0x100][a + 6 := v / 0x1_0000_0000_0000 % 0x100]
     [a + 7 := v / 0x100_0000_0000_0000 % 0x100]
  }

  function AtomicAdd(m: Memory, a: int, delta: U64): Memory {
    Write64(m, a, (Read64(m, a) + delta) % 0x1_0000_0000_0000_0000)
  }

  function Exec(m: Memory, p: Packet): Memory {
    match p
    case Nop(_) => m
    case Copy(src, dst, size) => CopyBytes(m, src, dst, size)
    case Atomic(addr, delta) => AtomicAdd(m, addr, delta)
    case CopySignal(src, dst, size, addr, delta) => AtomicAdd(CopyBytes(m, src, dst, size), addr, delta)
  }

  function ExecAll(m: Memory, ps: seq<Packet>): Memory
    decreases |ps|
  {
    if ps == [] then m else ExecAll(Exec(m, ps[0]), ps[1..])
  }

  /** Every byte reads the same after either, whatever memory they start from. */
  ghost predicate SameEffect(x: seq<Packet>, y: seq<Packet>) {
    forall m: Memory, a: int :: ByteAt(ExecAll(m, x), a) == ByteAt(ExecAll(m, y), a)
  }

  /** A 64-bit store is read back at its address. */
  lemma ReadBack64(m: Memory, a: int, v: U64)
    ensures Read64(Write64(m, a, v), a) == v
  {
    var n := Write64(m, a, v);
    assert ByteAt(n, a) == v % 0x100 && ByteAt(n, a + 1) == v / 0x100 % 0x100;
    assert ByteAt(n, a + 2) == v / 0x1_0000 % 0x100 && ByteAt(n, a + 3) == v / 0x100_0000 % 0x100;
    assert ByteAt(n, a + 4) == v / 0x1_0000_0000 % 0x100 && ByteAt(n, a + 5) == v / 0x100_0000_0000 % 0x100;
    assert ByteAt(n, a + 6) == v / 0x1_0000_0000_0000 % 0x100;
    assert ByteAt(n, a + 7) == v / 0x100_0000_0000_0000 % 0x100;
    BytesSum(v);
  }

  lemma BytesSum(v: U64)
    ensures v == v % 0x100 + 0x100 * (v / 0x100 % 0x100) + 0x1_0000 * (v / 0x1_0000 % 0x100) +
                 0x100_0000 * (v / 0x100_0000 % 0x100) + 0x1_0000_0000 * (v / 0x1_0000_0000 % 0x100) +
                 0x100_0000_0000 * (v / 0x100_0000_0000 % 0x100) +
                 0x1_0000_0000_0000 * (v / 0x1_0000_0000_0000 % 0x100) +
                 0x100_0000_0000_0000 * (v / 0x100_0000_0000_0000 % 0x100)
  {
    var q1, q2, q3, q4 := v / 0x100, v / 0x1_0000, v / 0x100_0000, v / 0x1_0000_0000;
    var q5, q6, q7 := v / 0x100_0000_0000, v / 0x1_0000_0000_0000, v / 0x100_0000_0000_0000;
    assert q1 / 0x100 == q2;
    assert q2 / 0x100 == q3;
    assert q3 / 0x100 == q4;
    assert q4 / 0x100 == q5;
    assert q5 / 0x100 == q6;
    assert q6 / 0x100 == q7;
    assert q7 % 0x100 == q7;
  }

  /** The bytes a packet may change. */
  predicate Touches(p: Packet, a: int) {
    match p
    case Nop(_) => false
    case Copy(_, dst, size) => dst <= a < dst + size
    case Atomic(addr, _) => addr <= a < addr + 8
    case CopySignal(_, dst, size, addr, _) => dst <= a < dst + size || addr <= a < addr + 8
  }

  lemma ExecFrame(m: Memory, p: Packet, a: int)
    requires !Touches(p, a)
    ensures ByteAt(Exec(m, p), a) == ByteAt(m, a)
  {
  }

  /** A copy brings every byte of its source to its destination, but for the signal behind it. */
  lemma CopyMoves(m: Memory, p: Packet, k: nat)
    requires (p.Copy? || p.CopySignal?) && k < p.size
    requires p.CopySignal? ==> p.dst + k < p.addr || p.addr + 8 <= p.dst + k
    ensures ByteAt(Exec(m, p), p.dst + k) == ByteAt(m, p.src + k)
  {
    hide Write64; hide Read64;
    var copied := CopyBytes(m, p.src, p.dst, p.size);
    assert ByteAt(copied, p.dst + k) == ByteAt(m, p.src + k);
    if p.CopySignal? {
      OutsideWrite(copied, p.addr, (Read64(copied, p.addr) + p.delta) % 0x1_0000_0000_0000_0000, p.dst + k);
    }
  }

  /** An atomic adds its addend to the 64-bit value at its address, modulo 2^64; a fused one after its copy. */
  lemma AddsToCell(m: Memory, p: Packet)
    requires p.Atomic? || p.CopySignal?
    ensures var before := if p.Atomic? then m else Exec(m, Copy(p.src, p.dst, p.size));
            Read64(Exec(m, p), p.addr) == (Read64(before, p.addr) + p.delta) % 0x1_0000_0000_0000_0000
  {
    hide Write64; hide Read64;
    var before := if p.Atomic? then m else Exec(m, Copy(p.src, p.dst, p.size));
    ReadBack64(before, p.addr, (Read64(before, p.addr) + p.delta) % 0x1_0000_0000_0000_0000);
  }

  // ---------------------------------------------------------------- put / signal / counter batches

  datatype Transfer = Transfer(dst: U64, src: U64, size: nat)

  /** The enabled parts of one put_signal_counter_impl call. */
  datatype Request = Request(put: Option<Transfer>, signal: Option<U64>, counter: Option<U64>)

  /** What the packet constructors assert about their arguments. */
  predicate ValidRequest(r: Request) {
    && (r.put.Some? || r.signal.Some? || r.counter.Some?)
    && (r.put.Some? ==> 0 < r.put.value.size <= MAX_COPY && r.put.value.src != 0 && r.put.value.dst != 0)
    && (r.signal.Some? ==> r.signal.value != 0)
    && (r.counter.Some? ==> r.counter.value != 0)
  }

  predicate Fused(g: Generation, r: Request) {
    g == Oss7 && r.put.Some? && (r.signal.Some? || r.counter.Some?)
  }

  /** The address routed into the single signal slot of the fused packet. */
  function FusedAddr(r: Request): U64
    requires r.signal.Some? || r.counter.Some?
  {
    if r.signal.Some? then r.signal.value else r.counter.value
  }

  predicate Aligned(g: Generation, r: Request) {
    Fused(g, r) ==> FusedAddr(r) % 8 == 0
  }

  function Increment(a: Option<U64>): seq<Packet> {
    if a.Some? then [Atomic(a.value, 1)] else []
  }

  /** The packets of one batch, in the order they are placed. */
  function Batch(g: Generation, r: Request): seq<Packet> {
    if Fused(g, r) then
      [CopySignal(r.put.value.src, r.put.value.dst, r.put.value.size, FusedAddr(r), 1)] +
      (if r.signal.Some? then Increment(r.counter) else [])
    else
      (if r.put.Some? then [Copy(r.put.value.src, r.put.value.dst, r.put.value.size)] else []) +
      Increment(r.signal) + Increment(r.counter)
  }

  /** The space_required expression of the code: the sizeof of every enabled structure. */
  function SpaceRequired(g: Generation, r: Request): nat {
    if Fused(g, r) then 76 + (if r.signal.Some? && r.counter.Some? then 32 else 0)
    else (if r.put.Some? then 28 else 0) + (if r.signal.Some? then 32 else 0) + (if r.counter.Some? then 32 else 0)
  }

  function Down(a: U64): U64 { a - a % 8 }

  /** The request as its words keep it: with the fused address rounded down to a multiple of 8. */
  function Rounded(g: Generation, r: Request): Request {
    if !Fused(g, r) then r
    else if r.signal.Some? then r.(signal := Some(Down(r.signal.value)))
    else r.(counter := Some(Down(r.counter.value)))
  }

  /** Every batch fills the space reserved for it exactly, and is at most 27 dwords long. */
  lemma BatchFillsReservation(g: Generation, r: Request)
    requires ValidRequest(r)
    ensures var b := Batch(g, Rounded(g, r));
            AllEncodable(g, b) && b != [] && 4 * Size(b) == SpaceRequired(g, r) <= 108
  {
    var k := Rounded(g, r);
    var head := if k.put.Some? then [Batch(g, k)[0]] else [];
    var adds := if Fused(g, k) && !(k.signal.Some? && k.counter.Some?) then []
                else if Fused(g, k) then Increment(k.counter)
                else Increment(k.signal) + Increment(k.counter);
    assert Batch(g, k) == head + adds;
    SizeAppend(head, adds);
    SizeAppend(Increment(k.signal), Increment(k.counter));
  }

  /**
   One packet for each part of a request, except that an OSS7 put takes its signal, or without
   one its counter, along in its copy; in this order.
   */
  lemma BatchParts(g: Generation, r: Request)
    requires ValidRequest(r)
    ensures var b, takes := Batch(g, r), g == Oss7 && r.put.Some? && (r.signal.Some? || r.counter.Some?);
            && |b| == (if r.put.Some? then 1 else 0) + (if r.signal.Some? then 1 else 0) +
                      (if r.counter.Some? then 1 else 0) - (if takes then 1 else 0)
            && (r.put.Some? ==>
                  b[0] == if !takes then Copy(r.put.value.src, r.put.value.dst, r.put.value.size)
                          else CopySignal(r.put.value.src, r.put.value.dst, r.put.value.size,
                                          if r.signal.Some? then r.signal.value else r.counter.value, 1))
            && (r.counter.Some? && !(takes && r.signal.None?) ==> b[|b| - 1] == Atomic(r.counter.value, 1))
            && (r.signal.Some? && !takes ==>
                  b[if r.put.Some? then 1 else 0] == Atomic(r.signal.value, 1))
  {
  }

  /** Rounding changes nothing exactly for the requests whose fused address is aligned. */
  lemma RoundedSame(g: Generation, r: Request)
    ensures Rounded(g, r) == r <==> Aligned(g, r)
  {
  }

  /**
   Fusion preserves meaning: what an OSS7 engine reads out of the fused batch and what an
   older engine reads out of the COPY/ATOMIC chain have the same effect on every memory.
   */
  lemma FusionPreservesMeaning(r: Request)
    requires ValidRequest(r) && Aligned(Oss7, r)
    ensures AllEncodable(Oss7, Batch(Oss7, r)) && AllEncodable(PreOss7, Batch(PreOss7, r))
    ensures var fused := DecodeAll(Oss7, EncodeAll(Oss7, Batch(Oss7, r)));
            var chain := DecodeAll(PreOss7, EncodeAll(PreOss7, Batch(PreOss7, r)));
            fused.Some? && chain.Some? && SameEffect(fused.value, chain.value)
  {
    hide DecodeAll; hide EncodeAll; hide SameEffect; hide Encodable; hide Size; hide Rounded;
    BatchFillsReservation(Oss7, r);
    BatchFillsReservation(PreOss7, r);
    RoundedSame(PreOss7, r);
    RoundedSame(Oss7, r);
    DecodeEncodeAll(Oss7, Batch(Oss7, r));
    DecodeEncodeAll(PreOss7, Batch(PreOss7, r));
    if Fused(Oss7, r) {
      var t := r.put.value;
      var tail := if r.signal.Some? then Increment(r.counter) else [];
      var copy, add := Copy(t.src, t.dst, t.size), Atomic(FusedAddr(r), 1);
      assert Batch(Oss7, r) == [CopySignal(t.src, t.dst, t.size, FusedAddr(r), 1)] + tail;
      assert Batch(PreOss7, r) == [copy] + ([add] + tail);
      SplitCopySignal(t.src, t.dst, t.size, FusedAddr(r), tail);
    } else {
      assert Batch(Oss7, r) == Batch(PreOss7, r);
      SameAsItself(Batch(Oss7, r));
    }
  }

  lemma SameAsItself(ps: seq<Packet>)
    ensures SameEffect(ps, ps)
  {
  }

  lemma SplitCopySignal(src: U64, dst: U64, size: nat, addr: U64, tail: seq<Packet>)
    ensures SameEffect([CopySignal(src, dst, size, addr, 1)] + tail,
                       [Copy(src, dst, size)] + ([Atomic(addr, 1)] + tail))
  {
    var fused, copy, add := [CopySignal(src, dst, size, addr, 1)], [Copy(src, dst, size)], [Atomic(addr, 1)];
    assert (fused + tail)[1..] == tail && (copy + (add + tail))[1..] == add + tail && (add + tail)[1..] == tail;
  }

  lemma IncrementZeroed(m: Memory, cell: int, a: int)
    requires forall b :: ByteAt(m, b) == 0
    requires a <= cell
    ensures ByteAt(AtomicAdd(m, cell, 1), a) == if a == cell then 1 else 0
  {
    assert ByteAt(m, a) == 0;
    assert Read64(m, cell) == 0;
    var n := Write64(m, cell, 1);
    assert AtomicAdd(m, cell, 1) == n;
    assert cell in n && n[cell] == 1;
  }

  /** The bytes of a 64-bit value are determined by it. */
  lemma BytesOf64(m: Memory, n: Memory, a: int, b: int)
    requires Read64(m, a) == Read64(n, a) && a <= b < a + 8
    ensures ByteAt(m, b) == ByteAt(n, b)
  {
    SplitBytes(ByteAt(m, a), ByteAt(m, a + 1), ByteAt(m, a + 2), ByteAt(m, a + 3),
               ByteAt(m, a + 4), ByteAt(m, a + 5), ByteAt(m, a + 6), ByteAt(m, a + 7),
               ByteAt(n, a), ByteAt(n, a + 1), ByteAt(n, a + 2), ByteAt(n, a + 3),
               ByteAt(n, a + 4), ByteAt(n, a + 5), ByteAt(n, a + 6), ByteAt(n, a + 7));
  }

  lemma SplitBytes(a0: Byte, a1: Byte, a2: Byte, a3: Byte, a4: Byte, a5: Byte, a6: Byte, a7: Byte,
                   b0: Byte, b1: Byte, b2: Byte, b3: Byte, b4: Byte, b5: Byte, b6: Byte, b7: Byte)
    requires a0 + 0x100 * a1 + 0x1_0000 * a2 + 0x100_0000 * a3 + 0x1_0000_0000 * a4 +
             0x100_0000_0000 * a5 + 0x1_0000_0000_0000 * a6 + 0x100_0000_0000_0000 * a7 ==
             b0 + 0x100 * b1 + 0x1_0000 * b2 + 0x100_0000 * b3 + 0x1_0000_0000 * b4 +
             0x100_0000_0000 * b5 + 0x1_0000_0000_0000 * b6 + 0x100_0000_0000_0000 * b7
    ensures a0 == b0 && a1 == b1 && a2 == b2 && a3 == b3 && a4 == b4 && a5 == b5 && a6 == b6 && a7 == b7
  {
    var x6, y6 := a6 + 0x100 * a7, b6 + 0x100 * b7;
    var x5, y5 := a5 + 0x100 * x6, b5 + 0x100 * y6;
    var x4, y4 := a4 + 0x100 * x5, b4 + 0x100 * y5;
    var x3, y3 := a3 + 0x100 * x4, b3 + 0x100 * y4;
    var x2, y2 := a2 + 0x100 * x3, b2 + 0x100 * y3;
    var x1, y1 := a1 + 0x100 * x2, b1 + 0x100 * y2;
    FirstByte(a0, x1, b0, y1);
    FirstByte(a1, x2, b1, y2);
    FirstByte(a2, x3, b2, y3);
    FirstByte(a3, x4, b3, y4);
    FirstByte(a4, x5, b4, y5);
    FirstByte(a5, x6, b5, y6);
    FirstByte(a6, a7, b6, b7);
  }

  lemma FirstByte(a: Byte, x: int, b: Byte, y: int)
    requires a + 0x100 * x == b + 0x100 * y
    ensures a == b && x == y
  {
  }

  /** An atomic add loses nothing: memories alike after it were alike before. */
  lemma AddInjective(m: Memory, n: Memory, a: int, delta: U64, b: int)
    requires forall k :: ByteAt(AtomicAdd(m, a, delta), k) == ByteAt(AtomicAdd(n, a, delta), k)
    ensures ByteAt(m, b) == ByteAt(n, b)
  {
    hide Read64; hide Write64;
    var x, y := (Read64(m, a) + delta) % 0x1_0000_0000_0000_0000, (Read64(n, a) + delta) % 0x1_0000_0000_0000_0000;
    if a <= b < a + 8 {
      ReadBack64(m, a, x);
      ReadBack64(n, a, y);
      SameRead(AtomicAdd(m, a, delta), AtomicAdd(n, a, delta), a);
      SumInjective(Read64(m, a), Read64(n, a), delta);
      BytesOf64(m, n, a, b);
    } else {
      assert ByteAt(AtomicAdd(m, a, delta), b) == ByteAt(AtomicAdd(n, a, delta), b);
      OutsideWrite(m, a, x, b);
      OutsideWrite(n, a, y, b);
    }
  }

  lemma SameRead(m: Memory, n: Memory, a: int)
    requires forall k :: ByteAt(m, k) == ByteAt(n, k)
    ensures Read64(m, a) == Read64(n, a)
  {
  }

  lemma SumInjective(x: U64, y: U64, delta: U64)
    requires (x + delta) % 0x1_0000_0000_0000_0000 == (y + delta) % 0x1_0000_0000_0000_0000
    ensures x == y
  {
  }

  lemma OutsideWrite(m: Memory, a: int, v: U64, b: int)
    requires b < a || a + 8 <= b
    ensures ByteAt(Write64(m, a, v), b) == ByteAt(m, b)
  {
  }

  /** Adding to different cells of a zeroed memory, and then to a counter, gives different memories. */
  lemma DifferentCells(m: Memory, low: U64, signal: U64, counter: Option<U64>)
    requires low < signal && forall b :: ByteAt(m, b) == 0
    ensures exists k :: ByteAt(ExecAll(AtomicAdd(m, low, 1), Increment(counter)), k) !=
                        ByteAt(ExecAll(AtomicAdd(m, signal, 1), Increment(counter)), k)
  {
    hide AtomicAdd;
    var x, y := AtomicAdd(m, low, 1), AtomicAdd(m, signal, 1);
    IncrementZeroed(m, low, low);
    IncrementZeroed(m, signal, low);
    if counter.Some? {
      ExecOne(x, Atomic(counter.value, 1));
      ExecOne(y, Atomic(counter.value, 1));
      if forall k :: ByteAt(AtomicAdd(x, counter.value, 1), k) == ByteAt(AtomicAdd(y, counter.value, 1), k) {
        AddInjective(x, y, counter.value, 1, low);
        assert false;
      }
      var k :| ByteAt(AtomicAdd(x, counter.value, 1), k) != ByteAt(AtomicAdd(y, counter.value, 1), k);
      assert ByteAt(ExecAll(x, Increment(counter)), k) != ByteAt(ExecAll(y, Increment(counter)), k);
    } else {
      assert ByteAt(ExecAll(x, Increment(counter)), low) != ByteAt(ExecAll(y, Increment(counter)), low);
    }
  }

  lemma ExecOne(m: Memory, p: Packet)
    ensures ExecAll(m, [p]) == Exec(m, p)
  {
    assert [p][1..] == [];
  }

  // ---------------------------------------------------------------- fusion, aligned or not

  /** The counter increment behind a fused packet, which has a single signal slot. */
  function FusedTail(r: Request): seq<Packet> {
    if r.signal.Some? then Increment(r.counter) else []
  }

  /** The words one call places, whatever the alignment of the fused address. */
  function RequestWords(g: Generation, r: Request): seq<U32>
    requires ValidRequest(r)
  {
    if Fused(g, r) then
      var t := r.put.value;
      CopySignalWords(t.src, t.dst, t.size, FusedAddr(r), 1) + EncodeAll(g, FusedTail(r))
    else EncodeAll(g, Batch(g, r))
  }

  /** The words placed fill the space reserved and encode the batch, its fused address rounded down. */
  lemma RequestFillsReservation(g: Generation, r: Request)
    requires ValidRequest(r)
    ensures 4 * |RequestWords(g, r)| == SpaceRequired(g, r)
    ensures var b := Batch(g, Rounded(g, r)); AllEncodable(g, b) && RequestWords(g, r) == EncodeAll(g, b)
  {
    BatchFillsReservation(g, r);
    if Fused(g, r) {
      var t, addr := r.put.value, FusedAddr(r);
      var head := CopySignal(t.src, t.dst, t.size, Down(addr), 1);
      assert Batch(g, Rounded(g, r)) == [head] + FusedTail(r);
      RoundedWords(t.src, t.dst, t.size, addr, 1);
      EncodeOne(g, head);
      EncodeAppend(g, [head], FusedTail(r));
    }
  }

  /** The fused packet cannot tell an address from the multiple of 8 below it. */
  lemma RoundedWords(src: U64, dst: U64, size: nat, signal: U64, data: U64)
    requires 0 < size <= MAX_COPY
    ensures SignalWords(src, dst, size, signal, data) == SignalWords(src, dst, size, Down(signal), data)
  {
    AlignedSignal(signal);
    AlignedSignal(Down(signal));
  }

  /**
   Fusion keeps its meaning exactly when it should: for every valid request, what an OSS7
   engine reads out of the words placed and what an older engine reads out of the unfused
   chain act alike on every memory if and only if the fused address, if any, is a multiple of 8.
   */
  lemma FusionExact(r: Request)
    requires ValidRequest(r)
    ensures var fused, chain := DecodeAll(Oss7, RequestWords(Oss7, r)), DecodeAll(PreOss7, RequestWords(PreOss7, r));
            fused.Some? && chain.Some? && (SameEffect(fused.value, chain.value) <==> Aligned(Oss7, r))
  {
    hide DecodeAll; hide EncodeAll; hide SameEffect; hide RequestWords; hide Batch; hide Rounded;
    RequestFillsReservation(PreOss7, r);
    RequestFillsReservation(Oss7, r);
    RoundedSame(PreOss7, r);
    RoundedSame(Oss7, r);
    DecodeEncodeAll(PreOss7, Batch(PreOss7, r));
    DecodeEncodeAll(Oss7, Batch(Oss7, Rounded(Oss7, r)));
    if Aligned(Oss7, r) {
      FusionPreservesMeaning(r);
    } else {
      MisalignedFusionDiffers(r);
    }
  }

  lemma MisalignedFusionDiffers(r: Request)
    requires ValidRequest(r) && Fused(Oss7, r) && FusedAddr(r) % 8 != 0
    ensures !SameEffect(Batch(Oss7, Rounded(Oss7, r)), Batch(PreOss7, r))
  {
    hide AtomicAdd; hide CopyBytes; hide Increment;
    var t, addr, tail := r.put.value, FusedAddr(r), FusedTail(r);
    var fused := CopySignal(t.src, t.dst, t.size, Down(addr), 1);
    var copied := CopyBytes(map[], t.src, t.dst, t.size);
    ZeroCopied(t.src, t.dst, t.size);
    DifferentCells(copied, Down(addr), addr, if r.signal.Some? then r.counter else None);
    ChainIs(r);
    assert Batch(Oss7, Rounded(Oss7, r)) == [fused] + tail;
    assert ([fused] + tail)[1..] == tail && ExecAll(map[], [fused] + tail) == ExecAll(Exec(map[], fused), tail);
    ExecThree(map[], Copy(t.src, t.dst, t.size), Atomic(addr, 1), tail);
  }

  lemma ZeroCopied(src: int, dst: int, size: nat)
    ensures forall b :: ByteAt(CopyBytes(map[], src, dst, size), b) == 0
  {
  }

  lemma ChainIs(r: Request)
    requires ValidRequest(r) && Fused(Oss7, r)
    ensures var t := r.put.value;
            Batch(PreOss7, r) == [Copy(t.src, t.dst, t.size)] + ([Atomic(FusedAddr(r), 1)] + FusedTail(r))
    ensures FusedTail(r) == Increment(if r.signal.Some? then r.counter else None)
  {
  }

  lemma ExecThree(m: Memory, p: Packet, q: Packet, tail: seq<Packet>)
    ensures ExecAll(m, [p] + ([q] + tail)) == ExecAll(Exec(Exec(m, p), q), tail)
  {
    assert ([p] + ([q] + tail))[1..] == [q] + tail && ([q] + tail)[1..] == tail;
  }
}
