/**
 PRP construction of the NVMe endpoint (both calculatePrps overloads) and the decoder a
 controller applies to its result, section 4.3 of NVM Express Base Specification 1.4.
 Addresses are 64-bit and sizes 32-bit: the additions that could wrap say so.
 */
module Prp {
  import opened Modular

  const PAGE: nat := 4096
  const LIST_ENTRIES: nat := 512

  /** pagePhysAddrs and bufPageOffset; Contiguous is the null pointer. */
  datatype Pages = Contiguous | Scattered(table: seq<nat>, first: nat)

  datatype Buffer = Buffer(addr: nat, size: nat, pages: Pages)

  function Offset(b: Buffer): nat { b.addr % PAGE }

  function FirstBytes(b: Buffer): nat { PAGE - b.addr % PAGE }

  /** How many pages the buffer touches after its first one. */
  function MorePages(b: Buffer): nat {
    if b.size <= FirstBytes(b) then 0 else (b.size - FirstBytes(b) + PAGE - 1) / PAGE
  }

  /** The same number as the code has it: a 32-bit sum, then cut to one list page. */
  function ListPages(b: Buffer): nat {
    if b.size <= FirstBytes(b) then 0
    else
      var n := (b.size - FirstBytes(b) + PAGE - 1) % WORD32 / PAGE;
      if n > LIST_ENTRIES then LIST_ENTRIES else n
  }

  /** The buffer exists: its bytes have addresses, its page table reaches far enough. */
  predicate Exists(b: Buffer) {
    && b.addr < WORD64 && b.size < WORD32
    && match b.pages
       case Contiguous => b.addr + b.size <= WORD64
       case Scattered(table, first) =>
         && first + MorePages(b) < |table| < WORD32
         && forall i :: 0 <= i < |table| ==> table[i] % PAGE == 0
  }

  /** Address of the j-th page after the first. */
  function PageAt(b: Buffer, j: nat): nat
    requires Exists(b) && 1 <= j <= MorePages(b)
  {
    match b.pages
    case Contiguous => b.addr - Offset(b) + j * PAGE
    case Scattered(table, first) => table[first + j]
  }

  /** Address of byte k of the buffer. */
  function ByteAt(b: Buffer, k: nat): nat
    requires Exists(b) && k < b.size
  {
    if k < FirstBytes(b) then b.addr + k
    else
      PageBound(b, k);
      PageAt(b, (Offset(b) + k) / PAGE) + (Offset(b) + k) % PAGE
  }

  lemma PageBound(b: Buffer, k: nat)
    requires FirstBytes(b) <= k < b.size
    ensures 1 <= (Offset(b) + k) / PAGE <= MorePages(b)
  {
  }

  /** For a contiguous buffer the byte addresses are consecutive. */
  lemma ContiguousBytes(b: Buffer, k: nat)
    requires Exists(b) && b.pages == Contiguous && k < b.size
    ensures ByteAt(b, k) == b.addr + k
  {
  }

  // ---------------------------------------------------------------- the decoder

  datatype Segment = Segment(addr: nat, len: nat)

  /** Refused: a list entry is missing or misplaced. */
  datatype Decoded = Refused | Accepted(segs: seq<Segment>)

  function Min(a: nat, b: nat): nat { if a < b then a else b }

  function Prepend(s: Segment, d: Decoded): Decoded {
    match d
    case Refused => Refused
    case Accepted(segs) => Accepted([s] + segs)
  }

  /**
   Walks a PRP list at ptr for rem bytes; mem holds the words the controller can read. The
   last entry of a list page points to the next list page when more than one page of data
   remains.
   */
  function Walk(mem: map<nat, nat>, ptr: nat, rem: nat): Decoded
    requires rem > 0
    decreases rem, if ptr % PAGE == PAGE - 8 then 1 else 0
  {
    if ptr % 8 != 0 || ptr !in mem || mem[ptr] % PAGE != 0 then Refused
    else if ptr % PAGE == PAGE - 8 && rem > PAGE then Walk(mem, mem[ptr], rem)
    else if rem <= PAGE then Accepted([Segment(mem[ptr], rem)])
    else Prepend(Segment(mem[ptr], PAGE), Walk(mem, ptr + 8, rem - PAGE))
  }

  function Decode(mem: map<nat, nat>, prp1: nat, prp2: nat, len: nat): Decoded {
    var first := Min(len, PAGE - prp1 % PAGE);
    if len == first then Accepted([Segment(prp1, len)])
    else if len - first > PAGE then Prepend(Segment(prp1, first), Walk(mem, prp2, len - first))
    else if prp2 % PAGE != 0 then Refused
    else Accepted([Segment(prp1, first), Segment(prp2, len - first)])
  }

  function Length(segs: seq<Segment>): nat {
    if segs == [] then 0 else segs[0].len + Length(segs[1..])
  }

  /** Address of byte k of a segment list. */
  function Nth(segs: seq<Segment>, k: nat): nat
    requires k < Length(segs)
  {
    if k < segs[0].len then segs[0].addr + k else Nth(segs[1..], k - segs[0].len)
  }

  /** The segments are the buffer: its bytes, all of them, in order. */
  ghost predicate Visits(segs: seq<Segment>, b: Buffer)
    requires Exists(b)
  {
    Length(segs) == b.size && forall k :: 0 <= k < b.size ==> Nth(segs, k) == ByteAt(b, k)
  }

  // ---------------------------------------------------------------- the encoder

  /** What the code puts into PRP2. */
  function Prp2(b: Buffer, listDma: nat): nat
    requires Exists(b)
  {
    if MorePages(b) == 0 then 0 else if MorePages(b) == 1 then PageAt(b, 1) else listDma
  }

  /** The code's page count is exact up to one list page, and never 1 by accident. */
  lemma ListPagesExact(b: Buffer)
    requires b.size < WORD32
    ensures MorePages(b) <= LIST_ENTRIES ==> ListPages(b) == MorePages(b)
    ensures MorePages(b) > LIST_ENTRIES ==> ListPages(b) == LIST_ENTRIES || ListPages(b) == 0
    ensures ListPages(b) <= MorePages(b)
  {
  }

  function AlignDown(x: nat): nat { x - x % PAGE }

  /** Neither the table index nor the address of an entry wraps. */
  lemma EntryValue(b: Buffer, i: nat)
    requires Exists(b) && i < MorePages(b)
    ensures b.pages.Scattered? ==>
              var x := (b.pages.first + 1 + i) % WORD32; x < |b.pages.table| && b.pages.table[x] == PageAt(b, 1 + i)
    ensures b.pages == Contiguous ==>
              (AlignDown((b.addr + FirstBytes(b)) % WORD64) + i * PAGE) % WORD64 == PageAt(b, 1 + i)
  {
    if b.pages == Contiguous {
      SecondPage(b);
      assert PageAt(b, 1 + i) == PageAt(b, 1) + i * PAGE;
    }
  }

  /** The mask of the code leaves a page boundary alone. */
  lemma SecondPage(b: Buffer)
    requires Exists(b) && b.pages == Contiguous && MorePages(b) >= 1
    ensures b.addr + FirstBytes(b) < WORD64
    ensures AlignDown(b.addr + FirstBytes(b)) == PageAt(b, 1)
  {
  }

  /** calculatePrps with PRP lists; a null prpList means the host has written the list. */
  method CalculatePrps(b: Buffer, prpList: array?<nat>, prpListDma: nat) returns (prp1: nat, prp2: nat)
    requires Exists(b)
    requires prpList != null && MorePages(b) >= 2 ==> ListPages(b) <= prpList.Length
    modifies if prpList == null then {} else {prpList}
    ensures prp1 == b.addr && prp2 == Prp2(b, prpListDma)
    ensures prpList != null && MorePages(b) >= 2 ==>
              forall i :: 0 <= i < ListPages(b) <= MorePages(b) ==> prpList[i] == PageAt(b, 1 + i)
    ensures prpList != null ==>
              forall i :: 0 <= i < prpList.Length && (i >= ListPages(b) || MorePages(b) < 2) ==>
                prpList[i] == old(prpList[i])
  {
    prp1, prp2 := b.addr, 0;
    var offsetInPage := b.addr % PAGE;
    var firstPageSize := PAGE - offsetInPage;
    if b.size <= firstPageSize {
      return;
    }
    var remaining := b.size - firstPageSize;
    var numRemainingPages := (remaining + PAGE - 1) % WORD32 / PAGE;
    if numRemainingPages > LIST_ENTRIES {
      numRemainingPages := LIST_ENTRIES;
    }
    ListPagesExact(b);
    hide PageAt; hide Exists; hide MorePages;
    if numRemainingPages == 1 {
      EntryValue(b, 0);
      if b.pages.Scattered? {
        prp2 := b.pages.table[(b.pages.first + 1) % WORD32];
      } else {
        prp2 := AlignDown((b.addr + firstPageSize) % WORD64);
      }
      return;
    }
    if prpList != null {
      var i := 0;
      while i < numRemainingPages
        invariant i <= numRemainingPages
        invariant forall j :: 0 <= j < i ==> prpList[j] == PageAt(b, 1 + j)
        invariant forall j :: i <= j < prpList.Length ==> prpList[j] == old(prpList[j])
      {
        EntryValue(b, i);
        if b.pages.Scattered? {
          prpList[i] := b.pages.table[(b.pages.first + 1 + i) % WORD32];
        } else {
          prpList[i] := (AlignDown((b.addr + firstPageSize) % WORD64) + i * PAGE) % WORD64;
        }
        i := i + 1;
      }
    }
    prp2 := prpListDma;
  }

  /** The overload for at most two pages. */
  method CalculatePrpsTwoPages(bufferAddr: nat, bufferSize: nat) returns (prp1: nat, prp2: nat)
    requires Exists(Buffer(bufferAddr, bufferSize, Contiguous))
    ensures prp1 == bufferAddr && prp2 == ShortPrp2(Buffer(bufferAddr, bufferSize, Contiguous))
  {
    prp1, prp2 := bufferAddr, 0;
    var offsetInPage := bufferAddr % PAGE;
    var firstPageSize := PAGE - offsetInPage;
    if bufferSize <= firstPageSize {
      return;
    }
    SecondPage(Buffer(bufferAddr, bufferSize, Contiguous));
    prp2 := AlignDown((bufferAddr + firstPageSize) % WORD64);
  }

  // ---------------------------------------------------------------- round trip

  /** Address of entry i of the list. */
  function Word(listDma: nat, i: nat): nat { listDma + 8 * i }

  /** The words of the list are where the controller reads them. */
  predicate HoldsList(mem: map<nat, nat>, b: Buffer, listDma: nat)
    requires Exists(b)
  {
    forall i :: 0 <= i < ListPages(b) && i < MorePages(b) ==>
      Word(listDma, i) in mem && mem[Word(listDma, i)] == PageAt(b, 1 + i)
  }

  /** A list is not needed, or its entries fit into the page it starts in. */
  predicate Fits(b: Buffer, listDma: nat) {
    MorePages(b) <= 1 || (listDma % 8 == 0 && listDma % PAGE / 8 + MorePages(b) <= LIST_ENTRIES)
  }

  /** Bytes of the buffer from its page 1 + j on. */
  function From(b: Buffer, j: nat): nat
    requires MorePages(b) >= 1 && j < MorePages(b)
  {
    b.size - FirstBytes(b) - j * PAGE
  }

  lemma WordAt(listDma: nat, i: nat)
    requires listDma % 8 == 0 && listDma % PAGE / 8 + i < LIST_ENTRIES
    ensures Word(listDma, i) % 8 == 0 && Word(listDma, i) % PAGE == listDma % PAGE + 8 * i
  {
    ModMultiple(listDma, PAGE, 8);
    ModIs(Word(listDma, i), 8, listDma / 8 + i, 0);
    ModIs(Word(listDma, i), PAGE, listDma / PAGE, listDma % PAGE + 8 * i);
  }

  lemma FromBounds(b: Buffer, j: nat)
    requires MorePages(b) >= 1 && j < MorePages(b)
    ensures From(b, j) > 0
    ensures j + 1 == MorePages(b) <==> From(b, j) <= PAGE
    ensures j + 1 < MorePages(b) ==> From(b, j + 1) == From(b, j) - PAGE
  {
  }

  lemma PageAligned(b: Buffer, j: nat)
    requires Exists(b) && 1 <= j <= MorePages(b)
    ensures PageAt(b, j) % PAGE == 0
  {
  }

  /** The bytes of one page. */
  lemma BytesOfPage(b: Buffer, j: nat, k: nat)
    requires Exists(b) && j < MorePages(b) && k < PAGE && FirstBytes(b) + j * PAGE + k < b.size
    ensures ByteAt(b, FirstBytes(b) + j * PAGE + k) == PageAt(b, 1 + j) + k
  {
    var x := Offset(b) + (FirstBytes(b) + j * PAGE + k);
    assert x == (1 + j) * PAGE + k;
    assert x / PAGE == 1 + j && x % PAGE == k;
  }

  lemma PrependReads(s: Segment, segs: seq<Segment>)
    ensures Length([s] + segs) == s.len + Length(segs)
    ensures forall k :: 0 <= k < s.len + Length(segs) ==>
              Nth([s] + segs, k) == if k < s.len then s.addr + k else Nth(segs, k - s.len)
  {
    assert ([s] + segs)[1..] == segs;
  }

  /** Segments from page 1 + j on visit the buffer from there. */
  ghost predicate VisitsFrom(segs: seq<Segment>, b: Buffer, j: nat)
    requires Exists(b) && j < MorePages(b)
  {
    && Length(segs) == From(b, j)
    && forall k :: 0 <= k < From(b, j) ==> Nth(segs, k) == ByteAt(b, FirstBytes(b) + j * PAGE + k)
  }

  lemma LastPage(b: Buffer, j: nat)
    requires Exists(b) && j + 1 == MorePages(b)
    ensures VisitsFrom([Segment(PageAt(b, 1 + j), From(b, j))], b, j)
  {
    var s := Segment(PageAt(b, 1 + j), From(b, j));
    PrependReads(s, []);
    assert [s] + [] == [s];
    FromBounds(b, j);
    forall k | 0 <= k < From(b, j)
      ensures Nth([s], k) == ByteAt(b, FirstBytes(b) + j * PAGE + k)
    {
      BytesOfPage(b, j, k);
    }
  }

  lemma MiddlePage(b: Buffer, j: nat, rest: seq<Segment>)
    requires Exists(b) && j + 1 < MorePages(b) && VisitsFrom(rest, b, j + 1)
    ensures VisitsFrom([Segment(PageAt(b, 1 + j), PAGE)] + rest, b, j)
  {
    var s := Segment(PageAt(b, 1 + j), PAGE);
    PrependReads(s, rest);
    FromBounds(b, j);
    forall k | 0 <= k < From(b, j)
      ensures Nth([s] + rest, k) == ByteAt(b, FirstBytes(b) + j * PAGE + k)
    {
      if k < PAGE {
        BytesOfPage(b, j, k);
      } else {
        assert FirstBytes(b) + j * PAGE + k == FirstBytes(b) + (j + 1) * PAGE + (k - PAGE);
      }
    }
  }

  /** From entry j on, the walk visits the bytes of the pages the entries name. */
  lemma {:induction false} WalkVisits(mem: map<nat, nat>, b: Buffer, listDma: nat, j: nat)
    requires Exists(b) && HoldsList(mem, b, listDma) && Fits(b, listDma) && MorePages(b) >= 2 && j < MorePages(b)
    ensures From(b, j) > 0
    ensures var d := Walk(mem, Word(listDma, j), From(b, j)); d.Accepted? && VisitsFrom(d.segs, b, j)
    decreases MorePages(b) - j
  {
    hide Nth; hide ByteAt; hide VisitsFrom; hide Length;
    WordAt(listDma, j);
    ListPagesExact(b);
    PageAligned(b, 1 + j);
    FromBounds(b, j);
    if j + 1 == MorePages(b) {
      LastPage(b, j);
    } else {
      WalkVisits(mem, b, listDma, j + 1);
      MiddlePage(b, j, Walk(mem, Word(listDma, j + 1), From(b, j + 1)).segs);
    }
  }

  /**
   Round trip: decoding PRP1, PRP2 and the list visits exactly the bytes of the buffer, in
   order, whatever else is in memory.
   */
  lemma RoundTrip(mem: map<nat, nat>, b: Buffer, listDma: nat)
    requires Exists(b) && HoldsList(mem, b, listDma) && Fits(b, listDma)
    ensures var d := Decode(mem, b.addr, Prp2(b, listDma), b.size); d.Accepted? && Visits(d.segs, b)
  {
    hide Nth; hide ByteAt; hide Length; hide Visits;
    if MorePages(b) == 0 {
      OnePage(b);
    } else if MorePages(b) == 1 {
      FromBounds(b, 0);
      PageAligned(b, 1);
      LastPage(b, 0);
      var last := Segment(PageAt(b, 1), From(b, 0));
      FirstPage(b, [last]);
      assert [Segment(b.addr, FirstBytes(b))] + [last] == [Segment(b.addr, FirstBytes(b)), last];
    } else {
      FromBounds(b, 0);
      WalkVisits(mem, b, listDma, 0);
      FirstPage(b, Walk(mem, listDma, From(b, 0)).segs);
    }
  }

  lemma OnePage(b: Buffer)
    requires Exists(b) && MorePages(b) == 0
    ensures Visits([Segment(b.addr, b.size)], b)
  {
    PrependReads(Segment(b.addr, b.size), []);
    assert [Segment(b.addr, b.size)] + [] == [Segment(b.addr, b.size)];
  }

  lemma FirstPage(b: Buffer, rest: seq<Segment>)
    requires Exists(b) && MorePages(b) >= 1 && VisitsFrom(rest, b, 0)
    ensures Visits([Segment(b.addr, FirstBytes(b))] + rest, b)
  {
    var s := Segment(b.addr, FirstBytes(b));
    PrependReads(s, rest);
    forall k | 0 <= k < b.size
      ensures Nth([s] + rest, k) == ByteAt(b, k)
    {
      if k >= FirstBytes(b) { assert k == FirstBytes(b) + 0 * PAGE + (k - FirstBytes(b)); }
    }
  }

  // ---------------------------------------------------------------- beyond one list page

  /** No word of the list is the start of a page of the buffer. */
  predicate Apart(b: Buffer, listDma: nat)
    requires Exists(b)
  {
    forall i, j :: 0 <= i < ListPages(b) && 1 <= j <= MorePages(b) ==> Word(listDma, i) != PageAt(b, j)
  }

  /** Memory with the first n words of the list and nothing else. */
  function ListOnly(b: Buffer, listDma: nat, n: nat): map<nat, nat>
    requires Exists(b) && n <= MorePages(b)
  {
    if n == 0 then map[] else ListOnly(b, listDma, n - 1)[Word(listDma, n - 1) := PageAt(b, n)]
  }

  lemma {:induction false} ListOnlyHas(b: Buffer, listDma: nat, n: nat)
    requires Exists(b) && n <= MorePages(b)
    ensures forall i :: 0 <= i < n ==>
              && Word(listDma, i) in ListOnly(b, listDma, n)
              && ListOnly(b, listDma, n)[Word(listDma, i)] == PageAt(b, 1 + i)
    ensures forall a :: a in ListOnly(b, listDma, n) ==> exists i :: 0 <= i < n && a == Word(listDma, i)
  {
    if n > 0 {
      ListOnlyHas(b, listDma, n - 1);
      forall a | a in ListOnly(b, listDma, n)
        ensures exists i :: 0 <= i < n && a == Word(listDma, i)
      {
        if a == Word(listDma, n - 1) {
        } else {
          assert a in ListOnly(b, listDma, n - 1);
        }
      }
    }
  }

  lemma ListOnlyAt(b: Buffer, listDma: nat, n: nat, i: nat)
    requires Exists(b) && i < n <= MorePages(b)
    ensures Word(listDma, i) in ListOnly(b, listDma, n) && ListOnly(b, listDma, n)[Word(listDma, i)] == PageAt(b, 1 + i)
  {
    ListOnlyHas(b, listDma, n);
  }

  /** Decoding is right for every memory that holds the list. */
  ghost predicate AlwaysRight(b: Buffer, listDma: nat)
    requires Exists(b)
  {
    forall mem :: HoldsList(mem, b, listDma) ==>
      var d := Decode(mem, b.addr, Prp2(b, listDma), b.size); d.Accepted? && Visits(d.segs, b)
  }

  /** The entry the controller takes for a pointer to the next list page. */
  function LastEntry(listDma: nat): nat { LIST_ENTRIES - 1 - listDma % PAGE / 8 }

  lemma BufferPageUnmapped(b: Buffer, listDma: nat, j: nat)
    requires Exists(b) && Apart(b, listDma) && 1 <= j <= MorePages(b) && ListPages(b) <= MorePages(b)
    ensures PageAt(b, j) !in ListOnly(b, listDma, ListPages(b))
  {
    hide PageAt; hide ListOnly; hide ListPages; hide MorePages; hide Word;
    ListOnlyHas(b, listDma, ListPages(b));
  }

  lemma EntryPlace(listDma: nat, j: nat)
    requires listDma % 8 == 0 && j <= LastEntry(listDma)
    ensures Word(listDma, j) % 8 == 0
    ensures Word(listDma, j) % PAGE == PAGE - 8 <==> j == LastEntry(listDma)
  {
    WordAt(listDma, j);
    ModMultiple(listDma, PAGE, 8);
    DivMod(listDma % PAGE, 8);
  }

  /** A walk over an entry that is data, and over one that is taken for a pointer. */
  lemma WalkData(mem: map<nat, nat>, ptr: nat, rem: nat)
    requires rem > PAGE && ptr % PAGE != PAGE - 8 && Walk(mem, ptr + 8, rem - PAGE) == Refused
    ensures Walk(mem, ptr, rem) == Refused
  {
  }

  lemma WalkPointer(mem: map<nat, nat>, ptr: nat, rem: nat)
    requires rem > PAGE && ptr % PAGE == PAGE - 8 && ptr in mem && mem[ptr] !in mem
    ensures Walk(mem, ptr, rem) == Refused
  {
  }

  /** A list that runs past its page makes the controller read a page of the buffer as a list. */
  lemma {:induction false} WalkRefused(b: Buffer, listDma: nat, j: nat)
    requires Exists(b) && Apart(b, listDma) && ListPages(b) > LastEntry(listDma) >= j
    requires listDma % 8 == 0 && LastEntry(listDma) + 1 < MorePages(b)
    ensures From(b, j) > 0
    ensures Walk(ListOnly(b, listDma, ListPages(b)), Word(listDma, j), From(b, j)) == Refused
    decreases LastEntry(listDma) - j
  {
    ListPagesExact(b);
    EntryPlace(listDma, j);
    FromBounds(b, j);
    var mem := ListOnly(b, listDma, ListPages(b));
    hide ListOnly; hide Walk; hide ListPages; hide MorePages; hide PageAt; hide Exists; hide From; hide Apart;
    if j == LastEntry(listDma) {
      ListOnlyAt(b, listDma, ListPages(b), j);
      BufferPageUnmapped(b, listDma, 1 + j);
      WalkPointer(mem, Word(listDma, j), From(b, j));
    } else {
      WalkRefused(b, listDma, j + 1);
      WalkData(mem, Word(listDma, j), From(b, j));
    }
  }

  /** Exactly when the list fits into the page it starts in is the transfer always right. */
  lemma RightIffFits(b: Buffer, listDma: nat)
    requires Exists(b) && Apart(b, listDma)
    ensures AlwaysRight(b, listDma) <==> Fits(b, listDma)
  {
    hide Nth; hide ByteAt; hide Length; hide Visits; hide ListOnly;
    if Fits(b, listDma) {
      forall mem | HoldsList(mem, b, listDma)
        ensures var d := Decode(mem, b.addr, Prp2(b, listDma), b.size); d.Accepted? && Visits(d.segs, b)
      {
        RoundTrip(mem, b, listDma);
      }
    } else {
      ListPagesExact(b);
      var mem := ListOnly(b, listDma, ListPages(b));
      ListOnlyHas(b, listDma, ListPages(b));
      FromBounds(b, 0);
      assert HoldsList(mem, b, listDma);
      if listDma % 8 == 0 && ListPages(b) > 0 { WalkRefused(b, listDma, 0); }
      assert Decode(mem, b.addr, Prp2(b, listDma), b.size) == Refused;
    }
  }

  /** On a list page of its own, that is: at most 512 pages after the first. */
  lemma RightIffOneListPage(b: Buffer, listDma: nat)
    requires Exists(b) && Apart(b, listDma) && listDma % PAGE == 0
    ensures AlwaysRight(b, listDma) <==> MorePages(b) <= LIST_ENTRIES
  {
    hide AlwaysRight; hide MorePages; hide Exists; hide Apart;
    RightIffFits(b, listDma);
    DivMod(listDma, PAGE);
    ModIs(listDma, 8, 512 * (listDma / PAGE), 0);
  }

  /** PRP2 of the overload without a list. */
  function ShortPrp2(b: Buffer): nat
    requires Exists(b) && b.pages == Contiguous
  {
    if MorePages(b) == 0 then 0 else PageAt(b, 1)
  }

  /** It decodes to the buffer for every memory. */
  ghost predicate ShortRight(b: Buffer)
    requires Exists(b) && b.pages == Contiguous
  {
    forall mem :: var d := Decode(mem, b.addr, ShortPrp2(b), b.size); d.Accepted? && Visits(d.segs, b)
  }

  /** The overload without a list agrees with the general function, and is right, exactly for at most two pages. */
  lemma TwoPagesIff(b: Buffer)
    requires Exists(b) && b.pages == Contiguous
    ensures (forall listDma :: ShortPrp2(b) == Prp2(b, listDma)) <==> MorePages(b) <= 1
    ensures ShortRight(b) <==> MorePages(b) <= 1
  {
    hide Nth; hide ByteAt; hide Length; hide Visits; hide Exists; hide MorePages; hide PageAt;
    if MorePages(b) <= 1 {
      forall mem
        ensures var d := Decode(mem, b.addr, ShortPrp2(b), b.size); d.Accepted? && Visits(d.segs, b)
      {
        ShortReads(b, mem);
      }
    } else {
      assert Prp2(b, ShortPrp2(b) + 1) != ShortPrp2(b);
      NoListRefused(b);
      assert Decode(map[], b.addr, ShortPrp2(b), b.size) == Refused;
    }
  }

  lemma ShortReads(b: Buffer, mem: map<nat, nat>)
    requires Exists(b) && b.pages == Contiguous && MorePages(b) <= 1
    ensures var d := Decode(mem, b.addr, ShortPrp2(b), b.size); d.Accepted? && Visits(d.segs, b)
  {
    hide Nth; hide ByteAt; hide Length; hide Visits;
    RoundTrip(map[0 := ShortPrp2(b)], b, 0);
  }

  lemma NoListRefused(b: Buffer)
    requires Exists(b) && b.pages == Contiguous && MorePages(b) >= 2
    ensures Decode(map[], b.addr, ShortPrp2(b), b.size) == Refused
  {
    FromBounds(b, 0);
  }
}
