/**
 Queue sizing of the BNXT backend: the bit-smearing roundup_pow2, the mask of align_up and
 the 32-bit arithmetic of compute_sq and compute_rq. Machine words are natural numbers with
 their bitwise operations spelt out and every wrap-around written as a remainder.
 */
module BnxtSizing {
  import opened Modular

  const STRIDE: nat := 16
  const SQE_HDR_SZ: nat := 32
  const MSN_ENTRY_SZ: nat := 8
  const FULL_FLAG_DELTA: nat := 0x80
  const VAR_SLOT_ALIGN: nat := 256

  function Pow2(e: nat): (p: nat)
    ensures p >= 1
  {
    if e == 0 then 1 else 2 * Pow2(e - 1)
  }

  function Or(a: nat, b: nat): nat
    decreases a + b
  {
    if a == 0 && b == 0 then 0
    else 2 * Or(a / 2, b / 2) + if a % 2 == 1 || b % 2 == 1 then 1 else 0
  }

  /** a & ~b */
  function AndNot(a: nat, b: nat): nat {
    if a == 0 then 0 else 2 * AndNot(a / 2, b / 2) + if a % 2 == 1 && b % 2 == 0 then 1 else 0
  }

  function Shr(a: nat, k: nat): nat
    decreases k
  {
    if k == 0 then a else Shr(a / 2, k - 1)
  }

  // ---------------------------------------------------------------- bits

  lemma {:induction false} OrBelow(a: nat, b: nat, e: nat)
    requires a < Pow2(e) && b < Pow2(e)
    ensures a <= Or(a, b) < Pow2(e)
    decreases e
  {
    if a != 0 || b != 0 { OrBelow(a / 2, b / 2, e - 1); }
  }

  lemma {:induction false} ShrBelow(x: nat, k: nat, m: nat)
    requires x < Pow2(m + k)
    ensures Shr(x, k) < Pow2(m) && Shr(x, k) <= x
    decreases k
  {
    if k > 0 { ShrBelow(x / 2, k - 1, m); }
  }

  /** Shifting keeps the distance below a power of two in proportion. */
  lemma {:induction false} ShrAbove(x: nat, k: nat, c: nat, d: nat)
    requires x + Pow2(c + k) >= Pow2(d + k)
    ensures Shr(x, k) + Pow2(c) >= Pow2(d)
    decreases k
  {
    if k > 0 { ShrAbove(x / 2, k - 1, c, d); }
  }

  lemma {:induction false} OrZero(a: nat)
    ensures Or(a, 0) == a
  {
    if a != 0 { OrZero(a / 2); }
  }

  /** k ones on top of one operand stay on top of the whole of the other. */
  lemma {:induction false} OrStack(a: nat, b: nat, m: nat, k: nat)
    requires b < Pow2(m) && Shr(a, m) + 1 >= Pow2(k)
    ensures Or(a, b) + Pow2(m) >= Pow2(k + m) + b
    decreases m
  {
    if m == 0 {
      OrZero(a);
    } else {
      OrStack(a / 2, b / 2, m - 1, k);
    }
  }

  lemma {:induction false} Pow2Mono(a: nat, b: nat)
    requires a < b
    ensures 2 * Pow2(a) <= Pow2(b)
  {
    if a + 1 < b { Pow2Mono(a, b - 1); }
  }

  lemma {:induction false} Pow2Add(a: nat, b: nat)
    ensures Pow2(a + b) == Pow2(a) * Pow2(b)
  {
    if a > 0 {
      Pow2Add(a - 1, b);
      assert 2 * Pow2(a - 1) * Pow2(b) == 2 * (Pow2(a - 1) * Pow2(b));
    }
  }

  lemma Pow2Values()
    ensures Pow2(4) == 16 && Pow2(8) == 256 && Pow2(32) == WORD32 && Pow2(63) == WORD64 / 2 && Pow2(64) == WORD64
  {
    assert Pow2(4) == 2 * Pow2(3) == 4 * Pow2(2) == 8 * Pow2(1) == 16;
    Squared(4, 16);
    Squared(8, 256);
    Squared(16, 0x1_0000);
    Squared(32, WORD32);
  }

  lemma Squared(a: nat, p: nat)
    requires Pow2(a) == p
    ensures Pow2(2 * a) == p * p
  {
    Pow2Add(a, a);
  }

  // ---------------------------------------------------------------- roundup_pow2

  function Less(e: nat, k: nat): nat { if e < k then 0 else e - k }

  /** x has its highest bit at e - 1 and its k highest bits are all ones. */
  predicate Smeared(x: nat, e: nat, k: nat) {
    e >= 1 && Pow2(e - 1) <= x < Pow2(e) && x + Pow2(Less(e, k)) >= Pow2(e)
  }

  function Smear(x: nat, k: nat): nat { Or(x, Shr(x, k)) }

  /** One smearing step doubles the run of ones. */
  lemma SmearDoubles(x: nat, e: nat, k: nat)
    requires Smeared(x, e, k) && k >= 1
    ensures Smeared(Smear(x, k), e, 2 * k)
  {
    if e > k {
      var m := e - k;
      ShrBelow(x, k, m);
      ShrAbove(x, m, 0, k);
      OrStack(x, Shr(x, k), m, k);
      if m >= k {
        ShrAbove(x, k, m - k, m);
      } else {
        Pow2Mono(m, k);
        ShrAbove(x, k, 0, m);
      }
    } else {
      ShrBelow(x, k, 0) by { if e < k { Pow2Mono(e, k); } }
    }
    OrBelow(x, Shr(x, k), e);
  }

  function RoundupPow2(n: nat): nat {
    if n <= 1 then 1
    else (SmearAll(n - 1) + 1) % WORD64
  }

  function SmearAll(x: nat): nat {
    Smear(Smear(Smear(Smear(Smear(Smear(x, 1), 2), 4), 8), 16), 32)
  }

  /** The number of bits of x. */
  function Bits(x: nat): (e: nat)
    requires x >= 1
    ensures e >= 1 && Pow2(e - 1) <= x < Pow2(e)
  {
    if x == 1 then 1 else 1 + Bits(x / 2)
  }

  lemma SmearsAll(x: nat, e: nat)
    requires Smeared(x, e, 1) && e <= 64
    ensures SmearAll(x) + 1 == Pow2(e)
  {
    hide Smear; hide Pow2; hide Smeared;
    SmearDoubles(x, e, 1);
    var x2 := Smear(x, 1);
    SmearDoubles(x2, e, 2);
    var x4 := Smear(x2, 2);
    SmearDoubles(x4, e, 4);
    var x8 := Smear(x4, 4);
    SmearDoubles(x8, e, 8);
    var x16 := Smear(x8, 8);
    SmearDoubles(x16, e, 16);
    var x32 := Smear(x16, 16);
    SmearDoubles(x32, e, 32);
    AllOnes(Smear(x32, 32), e);
  }

  lemma SmearFills(n: nat)
    requires 2 <= n < WORD64
    ensures RoundupPow2(n) == Pow2(Bits(n - 1)) % WORD64 && Bits(n - 1) <= 64
  {
    hide Bits; hide SmearAll; hide Smeared; hide Pow2;
    Pow2Values();
    BitsAtMost(n - 1, 64);
    FirstSmear(n - 1);
    SmearsAll(n - 1, Bits(n - 1));
  }

  lemma FirstSmear(x: nat)
    requires x >= 1
    ensures Smeared(x, Bits(x), 1)
  {
  }

  lemma AllOnes(x: nat, e: nat)
    requires Smeared(x, e, 64) && e <= 64
    ensures x + 1 == Pow2(e)
  {
  }

  /** p is the least power of two that is at least n. */
  ghost predicate LeastPow2(p: nat, n: nat) {
    && p >= n && (exists e :: p == Pow2(e))
    && forall e :: Pow2(e) >= n ==> Pow2(e) >= p
  }

  lemma BitsAtMost(x: nat, m: nat)
    requires x >= 1
    ensures x < Pow2(m) <==> Bits(x) <= m
  {
    var e := Bits(x);
    if e <= m {
      if e < m { Pow2Mono(e, m); }
    } else if m < e - 1 {
      Pow2Mono(m, e - 1);
    }
  }

  lemma LeastIsBits(n: nat)
    requires n >= 2
    ensures LeastPow2(Pow2(Bits(n - 1)), n)
  {
    var e := Bits(n - 1);
    forall k | Pow2(k) >= n
      ensures Pow2(k) >= Pow2(e)
    {
      BitsAtMost(n - 1, k);
      if e < k { Pow2Mono(e, k); }
    }
  }

  /** The rounding is right exactly up to 2^63; above, the 64-bit result wraps to zero. */
  lemma RoundupIff(n: nat)
    requires n < WORD64
    ensures LeastPow2(RoundupPow2(n), n) <==> n <= WORD64 / 2
    ensures n > WORD64 / 2 ==> RoundupPow2(n) == 0
  {
    hide RoundupPow2; hide Bits; hide Pow2; hide LeastPow2;
    Pow2Values();
    if n <= 1 {
      RoundupSmall(n);
    } else {
      SmearFills(n);
      LeastIsBits(n);
      BitsAtMost(n - 1, 63);
      var e := Bits(n - 1);
      if e < 63 { Pow2Mono(e, 63); }
      ModSmall(if e == 64 then 0 else Pow2(e), WORD64);
      NotZero(n);
    }
  }

  lemma NotZero(n: nat)
    requires n >= 1
    ensures !LeastPow2(0, n)
  {
  }

  /** roundup_pow2 as it reassigns its argument. */
  method Roundup(n: nat) returns (r: nat)
    requires n < WORD64
    ensures r == RoundupPow2(n)
    ensures if n <= WORD64 / 2 then LeastPow2(r, n) else r == 0
  {
    hide Smear;
    RoundupIff(n);
    if n <= 1 {
      return 1;
    }
    var x := n - 1;
    x := Smear(x, 1);
    x := Smear(x, 2);
    x := Smear(x, 4);
    x := Smear(x, 8);
    x := Smear(x, 16);
    x := Smear(x, 32);
    return (x + 1) % WORD64;
  }

  lemma RoundupSmall(n: nat)
    requires n <= 1
    ensures RoundupPow2(n) == 1 && LeastPow2(1, n)
  {
    assert Pow2(0) == 1;
  }

  // ---------------------------------------------------------------- align_up

  function AlignUp(val: nat, a: nat): nat
    requires a >= 1
  {
    AndNot((val + a - 1) % WORD32, a - 1)
  }

  lemma {:induction false} AndNotZero(x: nat)
    ensures AndNot(x, 0) == x
  {
    if x != 0 { AndNotZero(x / 2); }
  }

  /** Masking with a power of two clears exactly the remainder. */
  lemma {:induction false} MaskClears(x: nat, e: nat)
    ensures AndNot(x, Pow2(e) - 1) == Shr(x, e) * Pow2(e)
    ensures AndNot(x, Pow2(e) - 1) <= x < AndNot(x, Pow2(e) - 1) + Pow2(e)
    decreases e
  {
    if e == 0 {
      AndNotZero(x);
    } else {
      MaskClears(x / 2, e - 1);
      MaskOdd(x, Pow2(e - 1));
      hide AndNot;
      Doubled(Shr(x, e), Pow2(e - 1));
    }
  }

  lemma MaskOdd(x: nat, p: nat)
    requires p >= 1
    ensures AndNot(x, 2 * p - 1) == 2 * AndNot(x / 2, p - 1)
  {
    assert (2 * p - 1) / 2 == p - 1 && (2 * p - 1) % 2 == 1;
  }

  lemma Doubled(q: nat, p: nat)
    ensures q * (2 * p) == 2 * (q * p)
  {
  }

  /** The least multiple of a that is not below x. */
  function UpTo(x: nat, a: nat): nat
    requires a >= 1
  {
    (x + a - 1) / a * a
  }

  lemma UpToMeans(x: nat, a: nat)
    requires a >= 1
    ensures UpTo(x, a) % a == 0 && x <= UpTo(x, a) < x + a
  {
    DivMod(x + a - 1, a);
    ModIs(UpTo(x, a), a, (x + a - 1) / a, 0);
  }

  lemma MaskDivides(x: nat, e: nat)
    ensures AndNot(x, Pow2(e) - 1) == x / Pow2(e) * Pow2(e)
  {
    hide AndNot; hide Shr; hide Pow2;
    MaskClears(x, e);
    ModIs(x, Pow2(e), Shr(x, e), x - Shr(x, e) * Pow2(e));
  }

  /** align_up rounds up to a multiple of a power of two exactly when its 32-bit sum does not wrap. */
  lemma AlignUpIff(val: nat, e: nat)
    requires val < WORD32 && e <= 32
    ensures AlignUp(val, Pow2(e)) == UpTo(val, Pow2(e)) <==> val + Pow2(e) - 1 < WORD32
    ensures AlignUp(val, Pow2(e)) < WORD32
  {
    hide AndNot; hide Pow2;
    var x := val + Pow2(e) - 1;
    MaskDivides(x % WORD32, e);
    MaskClears(x % WORD32, e);
    if x < WORD32 {
      ModSmall(x, WORD32);
    } else {
      PastWord(x, e);
    }
  }

  lemma PastWord(x: nat, e: nat)
    requires x >= WORD32 && e <= 32
    ensures x / Pow2(e) * Pow2(e) >= WORD32
  {
    hide Pow2;
    Pow2Values();
    Pow2Add(32 - e, e);
    DivAtLeast(x, Pow2(e), Pow2(32 - e));
    MulMono(Pow2(32 - e), x / Pow2(e), Pow2(e));
  }

  lemma DivAtLeast(x: nat, p: nat, h: nat)
    requires p >= 1 && x >= h * p
    ensures x / p >= h
  {
    DivMod(x, p);
    if x / p < h { MulMono(x / p + 1, h, p); }
  }

  lemma MulMono(a: nat, b: nat, m: nat)
    requires a <= b
    ensures a * m <= b * m
  {
    assert b * m == a * m + (b - a) * m;
  }

  // ---------------------------------------------------------------- queues

  datatype SqSizing = SqSizing(slots: nat, wqeSz: nat, npsn: nat, psnSz: nat, len: nat)

  /** Bytes of the ring and the PSN table. */
  function Payload(q: SqSizing): nat { q.slots * STRIDE + q.npsn * q.psnSz }

  datatype RqSizing = RqSizing(slots: nat, wqeSz: nat, len: nat)

  function CalcWqeSz(nsge: nat): nat { (STRIDE * nsge + SQE_HDR_SZ) % WORD32 }

  /** The size of a send WQE, with room for the inline data if any is asked for. */
  function SendWqeSz(nsge: nat, inlineData: nat): nat {
    var sz := CalcWqeSz(nsge);
    if inlineData > 0 then
      var cal := (SQE_HDR_SZ + AlignUp(inlineData, STRIDE)) % WORD32;
      AlignUp(if cal > sz then cal else sz, STRIDE)
    else sz
  }

  /** The layout of nswr send WQEs of a given size. */
  function SqLayout(nswr: nat, wqeSz: nat, page: nat): SqSizing
    requires page >= 1
  {
    var slots := AlignUp(nswr * wqeSz % WORD32 / STRIDE, VAR_SLOT_ALIGN);
    var npsn := RoundupPow2(slots) % WORD32;
    var ring, psn := slots * STRIDE % WORD32, npsn * MSN_ENTRY_SZ % WORD32;
    SqSizing(slots, wqeSz, npsn, MSN_ENTRY_SZ, AlignUp((ring + psn) % WORD32, page))
  }

  function ComputeSq(maxSendWr: nat, maxSendSge: nat, maxInline: nat, page: nat): SqSizing
    requires page >= 1
  {
    var nswr := RoundupPow2((maxSendWr + 1 + FULL_FLAG_DELTA) % WORD32) % WORD32;
    SqLayout(nswr, SendWqeSz(maxSendSge, maxInline), page)
  }

  function ComputeRq(maxRecvWr: nat, maxRecvSge: nat, page: nat): RqSizing
    requires page >= 1
  {
    if maxRecvWr == 0 then RqSizing(0, 0, 0)
    else
      var nrwr := RoundupPow2((maxRecvWr + 1) % WORD32) % WORD32;
      var wqeSz := CalcWqeSz(maxRecvSge);
      var slots := nrwr * wqeSz % WORD32 / STRIDE;
      RqSizing(slots, wqeSz, AlignUp(slots * STRIDE % WORD32, page))
  }

  // ---------------------------------------------------------------- the sizes without wrap-around

  /** The least power of two not below n. */
  function LeastPow(n: nat): (p: nat)
    ensures p >= 1
  {
    if n <= 1 then 1 else Pow2(Bits(n - 1))
  }

  lemma LeastPowMeans(n: nat)
    ensures LeastPow2(LeastPow(n), n) && LeastPow(n) >= n && (n >= 1 ==> LeastPow(n) < 2 * n)
  {
    if n <= 1 {
      RoundupSmall(n);
    } else {
      LeastIsBits(n);
    }
  }

  lemma RoundupIs(n: nat)
    requires n <= WORD64 / 2
    ensures RoundupPow2(n) == LeastPow(n)
  {
    hide RoundupPow2; hide Bits; hide Pow2; hide LeastPow2;
    Pow2Values();
    if n <= 1 {
      RoundupSmall(n);
    } else {
      SmearFills(n);
      BitsAtMost(n - 1, 63);
      var e := Bits(n - 1);
      if e < 63 { Pow2Mono(e, 63); }
      ModSmall(Pow2(e), WORD64);
    }
  }

  function IdealWqe(nsge: nat, inlineData: nat): (sz: nat)
    ensures sz >= SQE_HDR_SZ
  {
    var plain, inlined := SQE_HDR_SZ + STRIDE * nsge, SQE_HDR_SZ + UpTo(inlineData, STRIDE);
    if inlineData > 0 && inlined > plain then inlined else plain
  }

  function IdealLayout(nswr: nat, wqeSz: nat, page: nat): SqSizing
    requires page >= 1
  {
    var slots := UpTo(nswr * wqeSz / STRIDE, VAR_SLOT_ALIGN);
    var npsn := LeastPow(slots);
    SqSizing(slots, wqeSz, npsn, MSN_ENTRY_SZ, UpTo(slots * STRIDE + npsn * MSN_ENTRY_SZ, page))
  }

  function IdealSq(maxSendWr: nat, maxSendSge: nat, maxInline: nat, page: nat): SqSizing
    requires page >= 1
  {
    IdealLayout(LeastPow(maxSendWr + 1 + FULL_FLAG_DELTA), IdealWqe(maxSendSge, maxInline), page)
  }

  /** The unbounded sizes, and the rounding of their sum, stay below 2^32: a condition on the inputs. */
  predicate SqFits(maxSendWr: nat, maxSendSge: nat, maxInline: nat, page: nat)
    requires page >= 1
  {
    var q := IdealSq(maxSendWr, maxSendSge, maxInline, page);
    q.slots * STRIDE + q.npsn * MSN_ENTRY_SZ + page - 1 < WORD32
  }

  lemma IdealWqeMeans(nsge: nat, inlineData: nat)
    ensures var w := IdealWqe(nsge, inlineData);
            w % STRIDE == 0 && w >= SQE_HDR_SZ + STRIDE * nsge && w >= SQE_HDR_SZ + inlineData
    ensures inlineData > 0 ==> IdealWqe(nsge, inlineData) >= SQE_HDR_SZ + UpTo(inlineData, STRIDE)
  {
    UpToMeans(inlineData, STRIDE);
  }

  lemma WholeStrides(n: nat, w: nat)
    requires w % STRIDE == 0
    ensures n * w / STRIDE * STRIDE == n * w
  {
    var k := w / STRIDE;
    assert n * w == (n * k) * STRIDE;
  }

  /**
   The unbounded sizes are what a send queue needs: slots, in groups of 256, for
   max_send_wr + 1 work requests and the full-flag reserve, each with the SGEs and inline data
   asked for; the least power of two of PSN entries not below the slots; and the least number
   of whole pages that covers both.
   */
  lemma IdealHolds(maxSendWr: nat, maxSendSge: nat, maxInline: nat, page: nat)
    requires page >= 1
    ensures var q := IdealSq(maxSendWr, maxSendSge, maxInline, page);
            && q.wqeSz >= SQE_HDR_SZ + STRIDE * maxSendSge && q.wqeSz >= SQE_HDR_SZ + maxInline
            && q.slots % VAR_SLOT_ALIGN == 0 && q.slots * STRIDE >= (maxSendWr + 1 + FULL_FLAG_DELTA) * q.wqeSz
            && LeastPow2(q.npsn, q.slots)
            && q.len % page == 0 && Payload(q) <= q.len < Payload(q) + page
  {
    hide LeastPow2; hide LeastPow; hide UpTo; hide IdealWqe;
    var q, n := IdealSq(maxSendWr, maxSendSge, maxInline, page), maxSendWr + 1 + FULL_FLAG_DELTA;
    IdealWqeMeans(maxSendSge, maxInline);
    LeastPowMeans(n);
    MulMono(n, LeastPow(n), q.wqeSz);
    WholeStrides(LeastPow(n), q.wqeSz);
    UpToMeans(LeastPow(n) * q.wqeSz / STRIDE, VAR_SLOT_ALIGN);
    LeastPowMeans(q.slots);
    UpToMeans(q.slots * STRIDE + q.npsn * MSN_ENTRY_SZ, page);
  }

  // ---------------------------------------------------------------- the code against them

  lemma WqeExact(nsge: nat, inlineData: nat)
    requires inlineData < WORD32 && IdealWqe(nsge, inlineData) + 2 * STRIDE < WORD32
    ensures SendWqeSz(nsge, inlineData) == IdealWqe(nsge, inlineData)
  {
    hide AlignUp; hide UpTo; hide Pow2;
    Pow2Values();
    IdealWqeMeans(nsge, inlineData);
    ModSmall(STRIDE * nsge + SQE_HDR_SZ, WORD32);
    if inlineData > 0 {
      AlignUpIff(inlineData, 4);
      ModSmall(SQE_HDR_SZ + UpTo(inlineData, STRIDE), WORD32);
      AlignUpIff(IdealWqe(nsge, inlineData), 4);
      UpToSame(IdealWqe(nsge, inlineData));
    }
  }

  lemma UpToSame(x: nat)
    requires x % STRIDE == 0
    ensures UpTo(x, STRIDE) == x
  {
  }

  /** Where the unbounded layout fits below 2^32, it is the layout of the code. */
  lemma LayoutExact(nswr: nat, wqeSz: nat, pageBits: nat)
    requires wqeSz % STRIDE == 0 && pageBits <= 32
    requires var q := IdealLayout(nswr, wqeSz, Pow2(pageBits));
             q.slots * STRIDE + q.npsn * MSN_ENTRY_SZ + Pow2(pageBits) - 1 < WORD32
    ensures SqLayout(nswr, wqeSz, Pow2(pageBits)) == IdealLayout(nswr, wqeSz, Pow2(pageBits))
  {
    hide AlignUp; hide UpTo; hide Pow2; hide RoundupPow2; hide LeastPow;
    Pow2Values();
    var q := IdealLayout(nswr, wqeSz, Pow2(pageBits));
    WholeStrides(nswr, wqeSz);
    UpToMeans(nswr * wqeSz / STRIDE, VAR_SLOT_ALIGN);
    ModSmall(nswr * wqeSz, WORD32);
    AlignUpIff(nswr * wqeSz / STRIDE, 8);
    RoundupIs(q.slots);
    ModSmall(q.npsn, WORD32);
    ModSmall(q.slots * STRIDE, WORD32);
    ModSmall(q.npsn * MSN_ENTRY_SZ, WORD32);
    ModSmall(q.slots * STRIDE + q.npsn * MSN_ENTRY_SZ, WORD32);
    AlignUpIff(q.slots * STRIDE + q.npsn * MSN_ENTRY_SZ, pageBits);
  }

  lemma InputsSmall(n: nat, w: nat, page: nat)
    requires n >= FULL_FLAG_DELTA && w >= SQE_HDR_SZ && w % STRIDE == 0 && page >= 1
    requires var q := IdealLayout(LeastPow(n), w, page);
             q.slots * STRIDE + q.npsn * MSN_ENTRY_SZ + page - 1 < WORD32
    ensures n <= LeastPow(n) < WORD32 / SQE_HDR_SZ && w < WORD32 / FULL_FLAG_DELTA
  {
    hide UpTo; hide LeastPow; hide LeastPow2;
    var r := LeastPow(n);
    LeastPowMeans(n);
    WholeStrides(r, w);
    UpToMeans(r * w / STRIDE, VAR_SLOT_ALIGN);
    MulMono(SQE_HDR_SZ, w, r);
    MulMono(FULL_FLAG_DELTA, r, w);
  }

  /** compute_sq returns the unbounded sizes if and only if they fit below 2^32. */
  lemma SqExact(maxSendWr: nat, maxSendSge: nat, maxInline: nat, pageBits: nat)
    requires maxSendWr < WORD32 && maxSendSge < WORD32 && maxInline < WORD32 && pageBits <= 32
    ensures ComputeSq(maxSendWr, maxSendSge, maxInline, Pow2(pageBits)) ==
            IdealSq(maxSendWr, maxSendSge, maxInline, Pow2(pageBits)) <==>
            SqFits(maxSendWr, maxSendSge, maxInline, Pow2(pageBits))
  {
    hide SendWqeSz; hide SqLayout; hide IdealLayout; hide IdealWqe; hide LeastPow; hide RoundupPow2; hide Pow2;
    var n, w, page := maxSendWr + 1 + FULL_FLAG_DELTA, IdealWqe(maxSendSge, maxInline), Pow2(pageBits);
    if SqFits(maxSendWr, maxSendSge, maxInline, page) {
      IdealWqeMeans(maxSendSge, maxInline);
      InputsSmall(n, w, page);
      WqeExact(maxSendSge, maxInline);
      ModSmall(n, WORD32);
      RoundupIs(n);
      ModSmall(LeastPow(n), WORD32);
      LayoutExact(LeastPow(n), w, pageBits);
    } else {
      LengthBelow(RoundupPow2(n % WORD32) % WORD32, SendWqeSz(maxSendSge, maxInline), pageBits);
      LengthPast(LeastPow(n), w, pageBits);
    }
  }

  lemma LengthBelow(nswr: nat, wqeSz: nat, pageBits: nat)
    requires pageBits <= 32
    ensures SqLayout(nswr, wqeSz, Pow2(pageBits)).len < WORD32
  {
    hide AlignUp; hide RoundupPow2; hide Pow2;
    var slots := AlignUp(nswr * wqeSz % WORD32 / STRIDE, VAR_SLOT_ALIGN);
    var npsn := RoundupPow2(slots) % WORD32;
    AlignUpIff((slots * STRIDE % WORD32 + npsn * MSN_ENTRY_SZ % WORD32) % WORD32, pageBits);
  }

  lemma LengthPast(nswr: nat, wqeSz: nat, pageBits: nat)
    requires pageBits <= 32
    requires var q := IdealLayout(nswr, wqeSz, Pow2(pageBits));
             q.slots * STRIDE + q.npsn * MSN_ENTRY_SZ + Pow2(pageBits) - 1 >= WORD32
    ensures IdealLayout(nswr, wqeSz, Pow2(pageBits)).len >= WORD32
  {
    hide LeastPow; hide Pow2;
    var q := IdealLayout(nswr, wqeSz, Pow2(pageBits));
    PastWord(q.slots * STRIDE + q.npsn * MSN_ENTRY_SZ + Pow2(pageBits) - 1, pageBits);
  }

  /** What compute_sq promises wherever its sizes fit. */
  lemma SqHolds(maxSendWr: nat, maxSendSge: nat, maxInline: nat, pageBits: nat)
    requires maxSendWr < WORD32 && maxSendSge < WORD32 && maxInline < WORD32 && pageBits <= 32
    requires SqFits(maxSendWr, maxSendSge, maxInline, Pow2(pageBits))
    ensures var q, page := ComputeSq(maxSendWr, maxSendSge, maxInline, Pow2(pageBits)), Pow2(pageBits);
            && q.wqeSz >= SQE_HDR_SZ + STRIDE * maxSendSge && q.wqeSz >= SQE_HDR_SZ + maxInline
            && q.slots % VAR_SLOT_ALIGN == 0 && q.slots * STRIDE >= (maxSendWr + 1 + FULL_FLAG_DELTA) * q.wqeSz
            && LeastPow2(q.npsn, q.slots)
            && q.len % page == 0 && Payload(q) <= q.len < Payload(q) + page
  {
    hide ComputeSq; hide IdealSq; hide SqFits; hide Pow2; hide LeastPow2;
    SqExact(maxSendWr, maxSendSge, maxInline, pageBits);
    IdealHolds(maxSendWr, maxSendSge, maxInline, Pow2(pageBits));
  }

  /** A bound a caller can work out by hand that is enough. */
  lemma SqBound(maxSendWr: nat, maxSendSge: nat, maxInline: nat, page: nat)
    requires page >= 1
    requires var w := IdealWqe(maxSendSge, maxInline);
             4 * ((maxSendWr + 1 + FULL_FLAG_DELTA) * w) + 32 * VAR_SLOT_ALIGN + page <= WORD32
    ensures SqFits(maxSendWr, maxSendSge, maxInline, page)
  {
    hide UpTo; hide LeastPow; hide LeastPow2; hide IdealWqe;
    var n, w := maxSendWr + 1 + FULL_FLAG_DELTA, IdealWqe(maxSendSge, maxInline);
    var r := LeastPow(n);
    LeastPowMeans(n);
    MulMono(r, 2 * n, w);
    assert 2 * n * w == 2 * (n * w);
    IdealWqeMeans(maxSendSge, maxInline);
    WholeStrides(r, w);
    UpToMeans(r * w / STRIDE, VAR_SLOT_ALIGN);
    var slots := UpTo(r * w / STRIDE, VAR_SLOT_ALIGN);
    LeastPowMeans(slots);
    MulAtLeast(r, w);
  }

  // ---------------------------------------------------------------- receive queues

  function IdealRq(maxRecvWr: nat, maxRecvSge: nat, page: nat): RqSizing
    requires page >= 1
  {
    if maxRecvWr == 0 then RqSizing(0, 0, 0)
    else
      var w := SQE_HDR_SZ + STRIDE * maxRecvSge;
      var slots := LeastPow(maxRecvWr + 1) * w / STRIDE;
      RqSizing(slots, w, UpTo(slots * STRIDE, page))
  }

  predicate RqFits(maxRecvWr: nat, maxRecvSge: nat, page: nat)
    requires page >= 1
  {
    maxRecvWr == 0 || LeastPow(maxRecvWr + 1) * (SQE_HDR_SZ + STRIDE * maxRecvSge) + page - 1 < WORD32
  }

  /** compute_rq returns the unbounded sizes if and only if they fit below 2^32. */
  lemma RqExact(maxRecvWr: nat, maxRecvSge: nat, pageBits: nat)
    requires maxRecvWr < WORD32 && maxRecvSge < WORD32 && pageBits <= 32
    ensures ComputeRq(maxRecvWr, maxRecvSge, Pow2(pageBits)) == IdealRq(maxRecvWr, maxRecvSge, Pow2(pageBits))
            <==> RqFits(maxRecvWr, maxRecvSge, Pow2(pageBits))
  {
    hide ComputeRq; hide UpTo; hide LeastPow; hide Pow2;
    var w := SQE_HDR_SZ + STRIDE * maxRecvSge;
    if maxRecvWr == 0 {
      RqNone(maxRecvSge, Pow2(pageBits));
    } else if RqFits(maxRecvWr, maxRecvSge, Pow2(pageBits)) {
      RqFitting(maxRecvWr, maxRecvSge, pageBits);
    } else {
      WholeStrides(LeastPow(maxRecvWr + 1), w);
      RqPast(LeastPow(maxRecvWr + 1) * w, pageBits);
      RqBelow(maxRecvWr, maxRecvSge, pageBits);
    }
  }

  lemma RqNone(maxRecvSge: nat, page: nat)
    requires page >= 1
    ensures ComputeRq(0, maxRecvSge, page) == RqSizing(0, 0, 0)
  {
  }

  lemma RqFitting(maxRecvWr: nat, maxRecvSge: nat, pageBits: nat)
    requires 0 < maxRecvWr < WORD32 && pageBits <= 32 && RqFits(maxRecvWr, maxRecvSge, Pow2(pageBits))
    ensures ComputeRq(maxRecvWr, maxRecvSge, Pow2(pageBits)) == IdealRq(maxRecvWr, maxRecvSge, Pow2(pageBits))
  {
    hide AlignUp; hide UpTo; hide RoundupPow2; hide LeastPow; hide LeastPow2; hide Pow2;
    var n, w := maxRecvWr + 1, SQE_HDR_SZ + STRIDE * maxRecvSge;
    var r := LeastPow(n);
    RqSmall(n, w);
    WholeStrides(r, w);
    ModSmall(n, WORD32);
    ModSmall(w, WORD32);
    RoundupIs(n);
    ModSmall(r, WORD32);
    ModSmall(r * w, WORD32);
    AlignUpIff(r * w, pageBits);
  }

  lemma RqSmall(n: nat, w: nat)
    requires w >= SQE_HDR_SZ && LeastPow(n) * w < WORD32
    ensures n <= LeastPow(n) < WORD32 && w < WORD32
  {
    hide LeastPow; hide LeastPow2;
    LeastPowMeans(n);
    MulMono(SQE_HDR_SZ, w, LeastPow(n));
    MulMono(1, LeastPow(n), w);
  }

  lemma RqPast(total: nat, pageBits: nat)
    requires pageBits <= 32 && total + Pow2(pageBits) - 1 >= WORD32
    ensures UpTo(total, Pow2(pageBits)) >= WORD32
  {
    hide Pow2;
    PastWord(total + Pow2(pageBits) - 1, pageBits);
  }

  lemma RqBelow(maxRecvWr: nat, maxRecvSge: nat, pageBits: nat)
    requires pageBits <= 32
    ensures ComputeRq(maxRecvWr, maxRecvSge, Pow2(pageBits)).len < WORD32
  {
    hide AlignUp; hide RoundupPow2; hide Pow2;
    if maxRecvWr > 0 {
      var nrwr, wqeSz := RoundupPow2((maxRecvWr + 1) % WORD32) % WORD32, CalcWqeSz(maxRecvSge);
      var slots := nrwr * wqeSz % WORD32 / STRIDE;
      AlignUpIff(slots * STRIDE % WORD32, pageBits);
    }
  }

  /** A receive queue holds max_recv_wr + 1 requests in whole pages, or is empty if none are asked for. */
  lemma RqHolds(maxRecvWr: nat, maxRecvSge: nat, pageBits: nat)
    requires maxRecvWr < WORD32 && maxRecvSge < WORD32 && pageBits <= 32
    requires RqFits(maxRecvWr, maxRecvSge, Pow2(pageBits))
    ensures var q, page := ComputeRq(maxRecvWr, maxRecvSge, Pow2(pageBits)), Pow2(pageBits);
            && (maxRecvWr == 0 ==> q == RqSizing(0, 0, 0))
            && (maxRecvWr > 0 ==>
                  && q.wqeSz == SQE_HDR_SZ + STRIDE * maxRecvSge
                  && q.slots * STRIDE >= (maxRecvWr + 1) * q.wqeSz
                  && q.len % page == 0 && q.slots * STRIDE <= q.len < q.slots * STRIDE + page)
  {
    hide ComputeRq; hide UpTo; hide LeastPow; hide LeastPow2; hide Pow2;
    RqExact(maxRecvWr, maxRecvSge, pageBits);
    var n, w := maxRecvWr + 1, SQE_HDR_SZ + STRIDE * maxRecvSge;
    LeastPowMeans(n);
    WholeStrides(LeastPow(n), w);
    MulMono(n, LeastPow(n), w);
    UpToMeans(LeastPow(n) * w, Pow2(pageBits));
  }
}
