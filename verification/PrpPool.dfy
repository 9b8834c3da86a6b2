/**
 Layout of the PRP list pool of the NVMe endpoint: the word offset at which the CPU or GPU
 writes a list and the DMA address at which the controller reads it, per batch and direction,
 in the 32-bit and 64-bit arithmetic of the code.
 */
module PrpPool {
  import opened Modular
  import Prp

  const LIST_ENTRIES: nat := 512

  /** prpListPageDmas: the null pointer, or one address per slot. */
  datatype PageDmas = Null | Table(dmas: seq<nat>)

  datatype Params = Params(pageDmas: PageDmas, poolDma: nat, entries: nat, slotsPerBatch: nat)

  function Slots(p: Params): nat { if p.slotsPerBatch == 2 then 2 else 1 }

  function Stride(p: Params): nat { if p.entries < LIST_ENTRIES then LIST_ENTRIES else p.entries }

  function DmaForSlot(p: Params, slot: nat): nat
    requires p.pageDmas.Table? ==> slot < |p.pageDmas.dmas|
  {
    match p.pageDmas
    case Table(dmas) => dmas[slot]
    case Null =>
      if p.poolDma != 0 && p.entries != 0 then (p.poolDma + slot * Stride(p) * 8) % WORD64 else 0
  }

  function WordOffset(p: Params, batch: nat, isWrite: bool): nat {
    var off := batch * Slots(p) % WORD32 * p.entries % WORD32;
    if Slots(p) > 1 && isWrite then (off + p.entries) % WORD32 else off
  }

  function SlotIndex(p: Params, batch: nat, isWrite: bool): nat {
    if Slots(p) > 1 then (batch * Slots(p) % WORD32 + if isWrite then 1 else 0) % WORD32 else batch
  }

  /** The pool is laid out by address, and neither an index nor an address of it wraps. */
  predicate Derived(p: Params, batches: nat) {
    && p.pageDmas == Null && p.poolDma != 0 && p.entries != 0
    && batches * Slots(p) * p.entries <= WORD32
    && p.poolDma + batches * Slots(p) * Stride(p) * 8 <= WORD64
  }

  /** The slot without wrap-around; in single-list mode both directions share it. */
  function Slot(p: Params, batch: nat, isWrite: bool): nat {
    batch * Slots(p) + if Slots(p) > 1 && isWrite then 1 else 0
  }

  lemma MulLess(a: nat, b: nat, m: nat)
    requires a < b
    ensures a * m + m <= b * m
  {
    MulAtLeast(b - a, m);
    assert b * m == a * m + (b - a) * m;
  }

  lemma SlotBound(p: Params, batches: nat, batch: nat, isWrite: bool)
    requires Derived(p, batches) && batch < batches
    ensures Slot(p, batch, isWrite) < batches * Slots(p) <= WORD32
    ensures Slot(p, batch, isWrite) * p.entries + p.entries <= batches * Slots(p) * p.entries
    ensures p.poolDma + Slot(p, batch, isWrite) * Stride(p) * 8 + Stride(p) * 8 <= WORD64
  {
    var s, n := Slot(p, batch, isWrite), batches * Slots(p);
    MulLess(batch, batches, Slots(p));
    MulLess(s, n, p.entries);
    MulLess(s, n, Stride(p));
    MulAtLeast(p.entries, n);
  }

  lemma IndexIs(p: Params, batch: nat, isWrite: bool)
    requires Slot(p, batch, isWrite) < WORD32
    ensures SlotIndex(p, batch, isWrite) == Slot(p, batch, isWrite)
  {
    ModSmall(batch * Slots(p), WORD32);
    ModSmall(Slot(p, batch, isWrite), WORD32);
  }

  lemma OffsetIs(p: Params, batch: nat, isWrite: bool)
    requires p.entries >= 1 && Slot(p, batch, isWrite) < WORD32
    requires Slot(p, batch, isWrite) * p.entries + p.entries <= WORD32
    ensures WordOffset(p, batch, isWrite) == Slot(p, batch, isWrite) * p.entries
  {
    var base := batch * Slots(p);
    ModSmall(base, WORD32);
    assert (base + 1) * p.entries == base * p.entries + p.entries;
    ModSmall(base * p.entries, WORD32);
    ModSmall(Slot(p, batch, isWrite) * p.entries, WORD32);
  }

  /** Under the bounds, index and offset are those of the slot. */
  lemma SlotMeans(p: Params, batches: nat, batch: nat, isWrite: bool)
    requires Derived(p, batches) && batch < batches
    ensures SlotIndex(p, batch, isWrite) == Slot(p, batch, isWrite)
    ensures WordOffset(p, batch, isWrite) == Slot(p, batch, isWrite) * p.entries
    ensures DmaForSlot(p, SlotIndex(p, batch, isWrite)) == p.poolDma + Slot(p, batch, isWrite) * Stride(p) * 8
  {
    hide WordOffset; hide SlotIndex; hide Slot; hide Slots;
    SlotBound(p, batches, batch, isWrite);
    IndexIs(p, batch, isWrite);
    OffsetIs(p, batch, isWrite);
    ModSmall(p.poolDma + Slot(p, batch, isWrite) * Stride(p) * 8, WORD64);
  }

  /**
   The word offset and the DMA address of a batch and direction denote the same place
   exactly when its slot is the first one or a list reserves at least a page of entries.
   */
  lemma SamePlaceIff(p: Params, batches: nat, batch: nat, isWrite: bool)
    requires Derived(p, batches) && batch < batches
    ensures p.poolDma + WordOffset(p, batch, isWrite) * 8 == DmaForSlot(p, SlotIndex(p, batch, isWrite)) <==>
            SlotIndex(p, batch, isWrite) == 0 || p.entries >= LIST_ENTRIES
  {
    SlotMeans(p, batches, batch, isWrite);
    hide Slot; hide SlotIndex; hide WordOffset; hide DmaForSlot; hide Derived;
    SameMultiple(Slot(p, batch, isWrite), p.entries, Stride(p));
  }

  lemma SameMultiple(s: nat, m: nat, n: nat)
    requires m <= n
    ensures s * m == s * n <==> s == 0 || m == n
  {
    assert s * n == s * m + s * (n - m);
    if s > 0 && m < n { MulAtLeast(s, n - m); }
  }

  /** The whole pool agrees exactly when it has one slot or page-sized reservations. */
  lemma PoolAgreesIff(p: Params, batches: nat)
    requires Derived(p, batches) && batches >= 1
    ensures (forall batch, isWrite :: 0 <= batch < batches ==>
               p.poolDma + WordOffset(p, batch, isWrite) * 8 == DmaForSlot(p, SlotIndex(p, batch, isWrite))) <==>
            (batches * Slots(p) == 1 || p.entries >= LIST_ENTRIES)
  {
    forall batch, isWrite | 0 <= batch < batches
      ensures p.poolDma + WordOffset(p, batch, isWrite) * 8 == DmaForSlot(p, SlotIndex(p, batch, isWrite)) <==>
              Slot(p, batch, isWrite) == 0 || p.entries >= LIST_ENTRIES
    {
      SamePlaceIff(p, batches, batch, isWrite);
      SlotMeans(p, batches, batch, isWrite);
    }
    if batches * Slots(p) == 1 {
      assert batches == 1;
    } else if Slots(p) == 2 {
      assert Slot(p, 0, true) == 1;
    } else {
      assert Slot(p, 1, false) == 1;
    }
  }

  /** Slots apart: neither the words nor the DMA ranges of two reservations overlap. */
  lemma SlotsDisjoint(p: Params, batches: nat, b1: nat, w1: bool, b2: nat, w2: bool)
    requires Derived(p, batches) && b1 < batches && b2 < batches
    requires b1 != b2 || (Slots(p) == 2 && w1 != w2)
    ensures WordOffset(p, b1, w1) + p.entries <= WordOffset(p, b2, w2) ||
            WordOffset(p, b2, w2) + p.entries <= WordOffset(p, b1, w1)
    ensures var d1, d2 := DmaForSlot(p, SlotIndex(p, b1, w1)), DmaForSlot(p, SlotIndex(p, b2, w2));
            d1 + p.entries * 8 <= d2 || d2 + p.entries * 8 <= d1
  {
    SlotMeans(p, batches, b1, w1);
    SlotMeans(p, batches, b2, w2);
    var s1, s2 := Slot(p, b1, w1), Slot(p, b2, w2);
    if s1 < s2 {
      MulLess(s1, s2, p.entries);
      MulLess(s1, s2, Stride(p));
    } else {
      MulLess(s2, s1, p.entries);
      MulLess(s2, s1, Stride(p));
    }
  }

  /** Every reserved list lies inside the pool. */
  lemma InsidePool(p: Params, batches: nat, batch: nat, isWrite: bool)
    requires Derived(p, batches) && batch < batches
    ensures WordOffset(p, batch, isWrite) + p.entries <= batches * Slots(p) * p.entries
  {
    SlotMeans(p, batches, batch, isWrite);
    SlotBound(p, batches, batch, isWrite);
  }

  /**
   In an aligned pool whose reservations are whole list pages, every slot's list starts on a
   page, so a transfer decodes right exactly when it needs at most one list page.
   */
  lemma SlotTransfers(p: Params, batches: nat, batch: nat, isWrite: bool, b: Prp.Buffer)
    requires Derived(p, batches) && batch < batches
    requires p.poolDma % Prp.PAGE == 0 && p.entries % LIST_ENTRIES == 0
    requires Prp.Exists(b) && Prp.Apart(b, p.poolDma + WordOffset(p, batch, isWrite) * 8)
    ensures Prp.AlwaysRight(b, DmaForSlot(p, SlotIndex(p, batch, isWrite))) <==> Prp.MorePages(b) <= LIST_ENTRIES
  {
    hide Prp.AlwaysRight; hide Prp.Exists; hide Prp.MorePages; hide Prp.Apart; hide WordOffset; hide SlotIndex;
    hide Slot; hide DmaForSlot;
    SamePlaceIff(p, batches, batch, isWrite);
    SlotMeans(p, batches, batch, isWrite);
    var dma, s := DmaForSlot(p, SlotIndex(p, batch, isWrite)), Slot(p, batch, isWrite);
    WholePages(p.poolDma, s, p.entries);
    Prp.RightIffOneListPage(b, dma);
  }

  lemma WholePages(base: nat, s: nat, entries: nat)
    requires base % Prp.PAGE == 0 && entries % LIST_ENTRIES == 0
    ensures (base + s * entries * 8) % Prp.PAGE == 0
  {
    var q := entries / LIST_ENTRIES;
    assert s * (q * LIST_ENTRIES) * 8 == (s * q) * Prp.PAGE;
    ModIs(base + s * entries * 8, Prp.PAGE, base / Prp.PAGE + s * q, 0);
  }

  /** A batch has lists of its own for reads and for writes exactly when prpSlotsPerBatch is 2. */
  lemma DirectionsApartIff(p: Params, batches: nat, batch: nat)
    requires Derived(p, batches) && batch < batches
    ensures WordOffset(p, batch, true) == WordOffset(p, batch, false) + (if p.slotsPerBatch == 2 then p.entries else 0)
    ensures SlotIndex(p, batch, true) == SlotIndex(p, batch, false) + (if p.slotsPerBatch == 2 then 1 else 0)
    ensures SlotIndex(p, batch, false) == batch * if p.slotsPerBatch == 2 then 2 else 1
  {
    hide WordOffset; hide SlotIndex; hide DmaForSlot; hide Derived;
    SlotMeans(p, batches, batch, true);
    SlotMeans(p, batches, batch, false);
    assert (batch * Slots(p) + 1) * p.entries == batch * Slots(p) * p.entries + p.entries;
  }

  /** Without a table, a pool without an address or without entries has no list address. */
  lemma NoListAddress(p: Params, slot: nat)
    requires p.pageDmas == Null && (p.poolDma == 0 || p.entries == 0)
    ensures DmaForSlot(p, slot) == 0
  {
  }

  // ---------------------------------------------------------------- with a table of addresses

  /** The address getPhysAddr gives for slot s of the pool can be used: known and on a page. */
  predicate Usable(phys: nat -> nat, stride: nat, s: nat) {
    var a := phys(s * stride * 8);
    a != 0 && a % Prp.PAGE == 0
  }

  /** The loop that fills prpListPageDmas; phys is getPhysAddr by byte offset into the pool. */
  method FillTable(slots: nat, stride: nat, phys: nat -> nat) returns (ok: bool, dmas: array<nat>)
    ensures dmas.Length == slots
    ensures ok <==> forall s :: 0 <= s < slots ==> Usable(phys, stride, s)
    ensures ok ==> forall s :: 0 <= s < slots ==> dmas[s] == phys(s * stride * 8)
  {
    dmas := new nat[slots](_ => 0);
    var s := 0;
    while s < slots
      invariant s <= slots
      invariant forall k :: 0 <= k < s ==> Usable(phys, stride, k) && dmas[k] == phys(k * stride * 8)
    {
      dmas[s] := phys(s * stride * 8);
      if dmas[s] == 0 || dmas[s] % Prp.PAGE != 0 {
        assert !Usable(phys, stride, s);
        return false, dmas;
      }
      s := s + 1;
    }
    ok := true;
  }

  /** The table was filled for the slots of the pool, and no index of the pool wraps. */
  ghost predicate Tabled(p: Params, batches: nat, phys: nat -> nat) {
    && p.pageDmas.Table? && |p.pageDmas.dmas| == batches * Slots(p)
    && p.entries >= 1 && batches * Slots(p) * p.entries <= WORD32
    && forall s :: 0 <= s < |p.pageDmas.dmas| ==>
         p.pageDmas.dmas[s] == phys(s * p.entries * 8) && Usable(phys, p.entries, s)
  }

  /** With a table, the address the controller is given is that of the words written, in every pool. */
  lemma TableAgrees(p: Params, batches: nat, phys: nat -> nat, batch: nat, isWrite: bool)
    requires Tabled(p, batches, phys) && batch < batches
    ensures SlotIndex(p, batch, isWrite) < |p.pageDmas.dmas|
    ensures DmaForSlot(p, SlotIndex(p, batch, isWrite)) == phys(WordOffset(p, batch, isWrite) * 8)
    ensures phys(WordOffset(p, batch, isWrite) * 8) % Prp.PAGE == 0
  {
    var s, n := Slot(p, batch, isWrite), batches * Slots(p);
    MulLess(batch, batches, Slots(p));
    MulLess(s, n, p.entries);
    MulAtLeast(p.entries, n);
    IndexIs(p, batch, isWrite);
    OffsetIs(p, batch, isWrite);
    assert Usable(phys, p.entries, s);
  }

  /** So a transfer through a table is right exactly when it needs at most one list page. */
  lemma TableTransfers(p: Params, batches: nat, phys: nat -> nat, batch: nat, isWrite: bool, b: Prp.Buffer)
    requires Tabled(p, batches, phys) && batch < batches
    requires Prp.Exists(b) && Prp.Apart(b, phys(WordOffset(p, batch, isWrite) * 8))
    ensures SlotIndex(p, batch, isWrite) < |p.pageDmas.dmas|
    ensures Prp.AlwaysRight(b, DmaForSlot(p, SlotIndex(p, batch, isWrite))) <==> Prp.MorePages(b) <= LIST_ENTRIES
  {
    hide Prp.AlwaysRight; hide Prp.Exists; hide Prp.MorePages; hide Prp.Apart; hide WordOffset; hide SlotIndex;
    hide DmaForSlot; hide Tabled;
    TableAgrees(p, batches, phys, batch, isWrite);
    Prp.RightIffOneListPage(b, phys(WordOffset(p, batch, isWrite) * 8));
  }
}
