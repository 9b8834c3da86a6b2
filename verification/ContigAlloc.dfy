/**
 The lifetime of contiguous queue allocations in the kernel module: allocation, mmap, VMA
 duplication and close, FREE_CONTIG_QUEUE and the release of a file descriptor, for any
 number of calls in flight. Each list walk under contig_allocs_lock and each kref operation
 is one step; the walks are those of KernelList.
 */
module ContigAlloc {
  import opened Holding
  import opened KernelList
  import opened Modular

  /** A contig_alloc_entry; obj tells apart entries whose 32-bit ids coincide. */
  datatype Entry = Entry(obj: nat, id: nat, owner: nat, size: nat)

  datatype Vma = Vma(file: nat, e: Entry, size: nat)

  datatype Call =
    | Idle
    | Mapping(file: nat, e: Entry, size: nat)   // reference taken, mapping not set up
    | Putting(file: nat, e: Entry)              // kref_put is what is left to do
    | Releasing(file: nat)                      // release entered, list not swept
    | Draining(file: nat, es: seq<Entry>)       // swept entries still to be put

  /** refs is the kref of every entry, freed how often contig_alloc_release ran for it. */
  datatype State = State(made: seq<Entry>, listed: seq<Entry>, refs: multiset<Entry>, freed: multiset<Entry>,
                         vmas: seq<Vma>, open: set<nat>, calls: seq<Call>)

  datatype Event =
    | Open(file: nat)
    | Alloc(file: nat, size: nat)
    | Map(i: nat, file: nat, pgoff: nat, size: nat)
    | Free(i: nat, file: nat, id: nat)
    | Release(i: nat, file: nat)
    | VmaOpen(v: nat)
    | VmaClose(v: nat)
    | Run(i: nat, ok: bool)

  function Named(file: nat, id: nat): Entry -> bool { (e: Entry) => e.id == id && e.owner == file }

  function OwnedBy(file: nat): Entry -> bool { (e: Entry) => e.owner == file }

  predicate Uses(k: Call, file: nat) { !k.Idle? && k.file == file }

  predicate InRelease(k: Call) { k.Releasing? || k.Draining? }

  /** No call and no mapping keeps the file from being released. */
  predicate Unused(s: State, file: nat) {
    && (forall i :: 0 <= i < |s.calls| ==> !Uses(s.calls[i], file))
    && (forall v :: 0 <= v < |s.vmas| ==> s.vmas[v].file != file)
  }

  predicate Init(s: State) {
    && s.made == [] && s.listed == [] && s.refs == multiset{} && s.freed == multiset{}
    && s.vmas == [] && s.open == {} && forall i :: 0 <= i < |s.calls| ==> s.calls[i] == Idle
  }

  predicate Enabled(s: State, e: Event) {
    match e
    case Open(file) => file !in s.open && Unused(s, file)
    case Alloc(file, _) => file in s.open
    case Map(i, file, pgoff, _) => i < |s.calls| && s.calls[i] == Idle && file in s.open && pgoff >= 1
    case Free(i, file, _) => i < |s.calls| && s.calls[i] == Idle && file in s.open
    case Release(i, file) => i < |s.calls| && s.calls[i] == Idle && file in s.open && Unused(s, file)
    case VmaOpen(v) => v < |s.vmas|
    case VmaClose(v) => v < |s.vmas|
    case Run(i, _) => i < |s.calls| && s.calls[i] != Idle
  }

  /** kref_put: the last one runs contig_alloc_release. */
  function Put(s: State, e: Entry): State {
    s.(refs := s.refs - multiset{e}, freed := if s.refs[e] == 1 then s.freed + multiset{e} else s.freed)
  }

  function Get(s: State, e: Entry): State { s.(refs := s.refs + multiset{e}) }

  function Set(s: State, i: nat, k: Call): State
    requires i < |s.calls|
  {
    s.(calls := s.calls[i := k])
  }

  /** The largest allocation ALLOC_CONTIG_QUEUE grants. */
  const MAX_CONTIG := 16 * 1024 * 1024

  /** A new entry: one reference, held by the list. A size out of range is refused. */
  function AllocStep(s: State, file: nat, size: nat): State {
    if size == 0 || size > MAX_CONTIG then s
    else
      var e := Entry(|s.made|, (1 + |s.made|) % WORD32, file, size);
      Get(s, e).(made := s.made + [e], listed := [e] + s.listed)
  }

  function MapStep(s: State, i: nat, file: nat, id: nat, size: nat): State
    requires i < |s.calls|
  {
    var m := FirstMatch(s.listed, Named(file, id));
    if m < |s.listed| then Get(Set(s, i, Mapping(file, s.listed[m], size)), s.listed[m]) else s
  }

  function FreeStep(s: State, i: nat, file: nat, id: nat): State
    requires i < |s.calls|
  {
    var m := FirstMatch(s.listed, Named(file, id));
    if m < |s.listed| then Set(s, i, Putting(file, s.listed[m])).(listed := Without(s.listed, m)) else s
  }

  /** ok is the outcome of dma_mmap_coherent. */
  function RunStep(s: State, i: nat, ok: bool): State
    requires i < |s.calls|
  {
    match s.calls[i]
    case Idle => s
    case Mapping(file, e, size) =>
      if size > e.size || !ok then Set(s, i, Putting(file, e))
      else Set(s, i, Idle).(vmas := s.vmas + [Vma(file, e, size)])
    case Putting(_, e) => Put(Set(s, i, Idle), e)
    case Releasing(file) =>
      Set(s, i, Draining(file, Taken(s.listed, OwnedBy(file)))).(listed := Rest(s.listed, OwnedBy(file)))
    case Draining(file, es) => if es == [] then Set(s, i, Idle) else Put(Set(s, i, Draining(file, es[1..])), es[0])
  }

  function Step(s: State, e: Event): State
    requires Enabled(s, e)
  {
    match e
    case Open(file) => s.(open := s.open + {file})
    case Alloc(file, size) => AllocStep(s, file, size)
    case Map(i, file, pgoff, size) => MapStep(s, i, file, pgoff % WORD32, size)
    case Free(i, file, id) => FreeStep(s, i, file, id)
    case Release(i, file) => Set(s, i, Releasing(file)).(open := s.open - {file})
    case VmaOpen(v) => Get(s, s.vmas[v].e).(vmas := s.vmas + [s.vmas[v]])
    case VmaClose(v) => Put(s, s.vmas[v].e).(vmas := Without(s.vmas, v))
    case Run(i, ok) => RunStep(s, i, ok)
  }

  // ---------------------------------------------------------------- who holds references

  function ListHolds(x: Entry, e: Entry): nat { One(x == e) }

  function VmaHolds(v: Vma, e: Entry): nat { One(v.e == e) }

  ghost function CallHolds(k: Call, e: Entry): nat {
    match k
    case Mapping(_, x, _) => One(x == e)
    case Putting(_, x) => One(x == e)
    case Draining(_, es) => Total(es, ListHolds, e)
    case _ => 0
  }

  /** The list, the mappings and the calls, in references to one entry. */
  ghost function Holders(s: State, e: Entry): nat {
    Total(s.listed, ListHolds, e) + Total(s.vmas, VmaHolds, e) + Total(s.calls, CallHolds, e)
  }

  ghost predicate Counted(s: State) {
    forall e :: s.refs[e] == Holders(s, e)
  }

  /** An entry is freed once its references are gone, and only then. */
  ghost predicate Lifetimes(made: seq<Entry>, refs: multiset<Entry>, freed: multiset<Entry>) {
    && (forall k :: 0 <= k < |made| ==> made[k].obj == k)
    && (forall e :: e in refs ==> e in made)
    && (forall e :: freed[e] == One(e in made && e !in refs))
  }

  predicate VmaOk(s: State, v: Vma) { v.file in s.open && v.e.owner == v.file && v.size <= v.e.size }

  predicate CallOk(s: State, k: Call) {
    && (!k.Idle? ==> (k.file in s.open) == !InRelease(k))
    && (k.Mapping? || k.Putting? ==> k.e.owner == k.file)
    && (k.Draining? ==> forall j :: 0 <= j < |k.es| ==> k.es[j].owner == k.file)
  }

  predicate OwnerLive(s: State, file: nat) {
    file in s.open || exists i :: 0 <= i < |s.calls| && s.calls[i] == Releasing(file)
  }

  predicate FdsOk(s: State) {
    && (forall v :: 0 <= v < |s.vmas| ==> VmaOk(s, s.vmas[v]))
    && (forall i :: 0 <= i < |s.calls| ==> CallOk(s, s.calls[i]))
    && (forall i :: 0 <= i < |s.listed| ==> OwnerLive(s, s.listed[i].owner))
  }

  ghost predicate Inv(s: State) {
    Counted(s) && Lifetimes(s.made, s.refs, s.freed) && FdsOk(s)
  }

  // ---------------------------------------------------------------- lifetimes

  lemma GetKeeps(s: State, e: Entry)
    requires Lifetimes(s.made, s.refs, s.freed) && e in s.refs
    ensures Lifetimes(s.made, Get(s, e).refs, s.freed)
  {
  }

  lemma PutKeeps(s: State, e: Entry)
    requires Lifetimes(s.made, s.refs, s.freed) && e in s.refs
    ensures Lifetimes(s.made, Put(s, e).refs, Put(s, e).freed)
  {
  }

  lemma AllocKeeps(s: State, file: nat, size: nat)
    requires Lifetimes(s.made, s.refs, s.freed)
    ensures var n := AllocStep(s, file, size); Lifetimes(n.made, n.refs, n.freed)
  {
    var n := AllocStep(s, file, size);
    if n != s {
      var e := n.made[|s.made|];
      assert e !in s.made && e !in s.refs;
      forall x
        ensures n.freed[x] == One(x in n.made && x !in n.refs)
      {
        assert x in n.made <==> x in s.made || x == e;
      }
    }
  }

  // ---------------------------------------------------------------- counting

  lemma AllocCounts(s: State, file: nat, size: nat)
    requires Counted(s)
    ensures Counted(AllocStep(s, file, size))
  {
    hide Total;
    var n := AllocStep(s, file, size);
    forall e
      ensures n.refs[e] == Holders(n, e)
    {
      if n != s { TotalCons(n.listed[0], s.listed, ListHolds, e); }
    }
  }

  lemma MapCounts(s: State, i: nat, file: nat, id: nat, size: nat)
    requires Counted(s) && i < |s.calls| && s.calls[i] == Idle
    ensures Counted(MapStep(s, i, file, id, size))
  {
    hide Total; hide FirstMatch;
    var n := MapStep(s, i, file, id, size);
    forall e
      ensures n.refs[e] == Holders(n, e)
    {
      TotalUpdate(s.calls, CallHolds, e, i, n.calls[i]);
      assert s.calls[i := Idle] == s.calls;
    }
  }

  lemma FreeCounts(s: State, i: nat, file: nat, id: nat)
    requires Counted(s) && i < |s.calls| && s.calls[i] == Idle
    ensures Counted(FreeStep(s, i, file, id))
  {
    hide Total; hide FirstMatch;
    var n := FreeStep(s, i, file, id);
    var m := FirstMatch(s.listed, Named(file, id));
    if m < |s.listed| {
      forall e
        ensures n.refs[e] == Holders(n, e)
      {
        TotalUpdate(s.calls, CallHolds, e, i, n.calls[i]);
        TotalRemove(s.listed, ListHolds, e, m);
      }
    }
  }

  lemma VmaCounts(s: State, e: Event)
    requires Counted(s) && Enabled(s, e) && (e.VmaOpen? || e.VmaClose?)
    ensures Counted(Step(s, e)) && s.vmas[e.v].e in s.refs
  {
    hide Total;
    var n := Step(s, e);
    TotalCovers(s.vmas, VmaHolds, s.vmas[e.v].e, e.v);
    forall x
      ensures n.refs[x] == Holders(n, x)
    {
      TotalRemove(s.vmas, VmaHolds, x, e.v);
      TotalAppend(s.vmas, [s.vmas[e.v]], VmaHolds, x);
      TotalCons(s.vmas[e.v], [], VmaHolds, x);
      TotalNone<Vma, Entry>([], VmaHolds, x);
      assert [s.vmas[e.v]] + [] == [s.vmas[e.v]];
    }
  }

  lemma MapEndCounts(s: State, i: nat, ok: bool)
    requires Counted(s) && i < |s.calls| && s.calls[i].Mapping?
    ensures Counted(RunStep(s, i, ok))
  {
    hide Total;
    var n, k := RunStep(s, i, ok), s.calls[i];
    forall e
      ensures n.refs[e] == Holders(n, e)
    {
      TotalUpdate(s.calls, CallHolds, e, i, n.calls[i]);
      var v := Vma(k.file, k.e, k.size);
      TotalAppend(s.vmas, [v], VmaHolds, e);
      TotalCons(v, [], VmaHolds, e);
      TotalNone<Vma, Entry>([], VmaHolds, e);
      assert [v] + [] == [v];
    }
  }

  lemma SweepCounts(s: State, i: nat, ok: bool)
    requires Counted(s) && i < |s.calls| && s.calls[i].Releasing?
    ensures Counted(RunStep(s, i, ok))
  {
    hide Total; hide Rest; hide Taken;
    var n := RunStep(s, i, ok);
    forall e
      ensures n.refs[e] == Holders(n, e)
    {
      TotalUpdate(s.calls, CallHolds, e, i, n.calls[i]);
      SplitTotal(s.listed, OwnedBy(s.calls[i].file), ListHolds, e);
    }
  }

  /** The entry a call is about to put, if any. */
  predicate Puts(k: Call, e: Entry) {
    (k.Putting? && k.e == e) || (k.Draining? && k.es != [] && k.es[0] == e)
  }

  lemma PutCounts(s: State, i: nat, ok: bool, x: Entry)
    requires Counted(s) && i < |s.calls| && Puts(s.calls[i], x)
    ensures Counted(RunStep(s, i, ok)) && x in s.refs
  {
    var n, k := RunStep(s, i, ok), s.calls[i];
    TotalCovers(s.calls, CallHolds, x, i);
    forall e
      ensures CallHolds(k, e) == CallHolds(n.calls[i], e) + One(x == e)
    {
      if k.Draining? { assert Total(k.es, ListHolds, e) == ListHolds(x, e) + Total(k.es[1..], ListHolds, e); }
    }
    hide Total; hide CallHolds;
    forall e
      ensures n.refs[e] == Holders(n, e)
    {
      TotalUpdate(s.calls, CallHolds, e, i, n.calls[i]);
    }
  }

  lemma RunKeeps(s: State, i: nat, ok: bool)
    requires Counted(s) && Lifetimes(s.made, s.refs, s.freed) && i < |s.calls|
    ensures var n := RunStep(s, i, ok); Counted(n) && Lifetimes(n.made, n.refs, n.freed)
  {
    hide Counted; hide Lifetimes;
    match s.calls[i]
    case Idle =>
    case Mapping(_, _, _) => MapEndCounts(s, i, ok);
    case Releasing(_) => SweepCounts(s, i, ok);
    case Putting(_, e) =>
      PutCounts(s, i, ok, e);
      PutKeeps(s, e);
    case Draining(_, es) =>
      if es == [] {
        DrainedCounts(s, i, ok);
      } else {
        PutCounts(s, i, ok, es[0]);
        PutKeeps(s, es[0]);
      }
  }

  lemma DrainedCounts(s: State, i: nat, ok: bool)
    requires Counted(s) && i < |s.calls| && s.calls[i].Draining? && s.calls[i].es == []
    ensures Counted(RunStep(s, i, ok))
  {
    var n := RunStep(s, i, ok);
    forall e
      ensures n.refs[e] == Holders(n, e)
    {
      TotalUpdate(s.calls, CallHolds, e, i, Idle);
    }
  }

  lemma ListedHeld(s: State, m: nat)
    requires Counted(s) && m < |s.listed|
    ensures s.listed[m] in s.refs
  {
    TotalCovers(s.listed, ListHolds, s.listed[m], m);
  }

  lemma StepKeeps(s: State, e: Event)
    requires Counted(s) && Lifetimes(s.made, s.refs, s.freed) && Enabled(s, e)
    ensures var n := Step(s, e); Counted(n) && Lifetimes(n.made, n.refs, n.freed)
  {
    hide Counted; hide Lifetimes; hide RunStep;
    match e
    case Open(_) => OpenCounts(s, e);
    case Release(_, _) => OpenCounts(s, e);
    case Alloc(file, size) =>
      AllocCounts(s, file, size);
      AllocKeeps(s, file, size);
    case Map(i, file, pgoff, size) =>
      MapCounts(s, i, file, pgoff % WORD32, size);
      var m := FirstMatch(s.listed, Named(file, pgoff % WORD32));
      if m < |s.listed| {
        ListedHeld(s, m);
        GetKeeps(s, s.listed[m]);
      }
    case Free(i, file, id) => FreeCounts(s, i, file, id);
    case VmaOpen(v) =>
      VmaCounts(s, e);
      GetKeeps(s, s.vmas[v].e);
    case VmaClose(v) =>
      VmaCounts(s, e);
      PutKeeps(s, s.vmas[v].e);
    case Run(i, ok) => RunKeeps(s, i, ok);
  }

  lemma OpenCounts(s: State, e: Event)
    requires Counted(s) && Enabled(s, e) && (e.Open? || e.Release?)
    ensures Counted(Step(s, e))
  {
    hide Total;
    var n := Step(s, e);
    forall x
      ensures n.refs[x] == Holders(n, x)
    {
      if e.Release? { TotalUpdate(s.calls, CallHolds, x, e.i, n.calls[e.i]); }
    }
  }

  // ---------------------------------------------------------------- file descriptors

  predicate ByCall(e: Event) { e.Map? || e.Free? || e.Release? || e.Run? }

  lemma StepFrame(s: State, e: Event)
    requires Enabled(s, e)
    ensures var n := Step(s, e);
            && |n.calls| == |s.calls|
            && (forall j :: 0 <= j < |s.calls| && !(ByCall(e) && e.i == j) ==> n.calls[j] == s.calls[j])
            && n.open == (if e.Open? then s.open + {e.file} else if e.Release? then s.open - {e.file} else s.open)
            && (e.Release? ==> n.calls[e.i] == Releasing(e.file))
  {
    hide RunStep; hide MapStep; hide FreeStep;
    match e
    case Run(i, ok) => RunFrame(s, i, ok);
    case Map(i, file, pgoff, size) => MapFrame(s, i, file, pgoff % WORD32, size);
    case Free(i, file, id) => FreeFrame(s, i, file, id);
    case _ =>
  }

  lemma MapFrame(s: State, i: nat, file: nat, id: nat, size: nat)
    requires i < |s.calls|
    ensures var n := MapStep(s, i, file, id, size);
            && |n.calls| == |s.calls| && n.open == s.open
            && (forall j :: 0 <= j < |s.calls| && j != i ==> n.calls[j] == s.calls[j])
  {
    hide FirstMatch;
  }

  lemma FreeFrame(s: State, i: nat, file: nat, id: nat)
    requires i < |s.calls|
    ensures var n := FreeStep(s, i, file, id);
            && |n.calls| == |s.calls| && n.open == s.open
            && (forall j :: 0 <= j < |s.calls| && j != i ==> n.calls[j] == s.calls[j])
  {
    hide FirstMatch;
  }

  lemma RunFrame(s: State, i: nat, ok: bool)
    requires i < |s.calls|
    ensures var n := RunStep(s, i, ok);
            && |n.calls| == |s.calls| && n.open == s.open
            && (forall j :: 0 <= j < |s.calls| && j != i ==> n.calls[j] == s.calls[j])
  {
    hide Taken; hide Rest;
  }

  /** The entries a step leaves on the list: old ones, or one just made by an open file. */
  lemma ListedAfter(s: State, e: Event, j: nat)
    requires Enabled(s, e) && j < |Step(s, e).listed|
    ensures var x := Step(s, e).listed[j];
            || (x in s.listed && !(e.Run? && s.calls[e.i] == Releasing(x.owner)))
            || (x.owner in s.open && !e.Release?)
  {
    hide Taken; hide FirstMatch; hide Rest;
    if e.Run? && s.calls[e.i].Releasing? { RestKeeps(s.listed, OwnedBy(s.calls[e.i].file), j); }
  }

  lemma ListedOwners(s: State, e: Event, j: nat)
    requires FdsOk(s) && Enabled(s, e) && j < |Step(s, e).listed|
    ensures OwnerLive(Step(s, e), Step(s, e).listed[j].owner)
  {
    ListedAfter(s, e, j);
    StepFrame(s, e);
    hide Step;
    var n := Step(s, e);
    var file := n.listed[j].owner;
    if file in s.open {
      if e.Release? && e.file == file { assert n.calls[e.i] == Releasing(file) && OwnerLive(n, file); }
    } else {
      assert OwnerLive(s, file);
      var i :| 0 <= i < |s.calls| && s.calls[i] == Releasing(file);
      assert n.calls[i] == Releasing(file);
    }
  }

  lemma RunCall(s: State, i: nat, ok: bool)
    requires i < |s.calls| && CallOk(s, s.calls[i])
    ensures CallOk(RunStep(s, i, ok), RunStep(s, i, ok).calls[i])
  {
    hide Rest; hide Taken;
    var k := s.calls[i];
    if k.Releasing? {
      var es := Taken(s.listed, OwnedBy(k.file));
      forall j | 0 <= j < |es|
        ensures es[j].owner == k.file
      {
        TakenFrom(s.listed, OwnedBy(k.file), j);
      }
    }
  }

  lemma CallsStay(s: State, e: Event, j: nat)
    requires FdsOk(s) && Enabled(s, e) && j < |s.calls|
    ensures |Step(s, e).calls| == |s.calls| && CallOk(Step(s, e), Step(s, e).calls[j])
  {
    hide FirstMatch; hide OwnerLive; hide RunStep;
    StepFrame(s, e);
    assert CallOk(s, s.calls[j]);
    if ByCall(e) && e.i == j {
      if e.Run? { RunCall(s, j, e.ok); }
    } else {
      hide Step;
    }
  }

  lemma VmasStay(s: State, e: Event, v: nat)
    requires FdsOk(s) && Enabled(s, e) && v < |Step(s, e).vmas|
    ensures VmaOk(Step(s, e), Step(s, e).vmas[v])
  {
    hide OwnerLive;
    VmaFrom(s, e, v);
    StepFrame(s, e);
    var x := Step(s, e).vmas[v];
    if x in s.vmas {
      assert VmaOk(s, x);
    } else {
      assert CallOk(s, s.calls[e.i]);
    }
    hide Step;
    if e.Release? { assert forall u :: 0 <= u < |s.vmas| ==> s.vmas[u].file != e.file; }
  }

  /** A mapping is an old one, or one whose call has just succeeded. */
  lemma VmaFrom(s: State, e: Event, v: nat)
    requires Enabled(s, e) && v < |Step(s, e).vmas|
    ensures var x := Step(s, e).vmas[v];
            x in s.vmas || (e.Run? && s.calls[e.i] == Mapping(x.file, x.e, x.size) && x.size <= x.e.size)
  {
    hide Rest; hide Taken; hide FirstMatch; hide Unused;
  }

  lemma StepPreserves(s: State, e: Event)
    requires Inv(s) && Enabled(s, e)
    ensures Inv(Step(s, e))
  {
    hide Counted; hide Lifetimes; hide VmaOk; hide CallOk; hide OwnerLive;
    StepKeeps(s, e);
    hide Step; hide Enabled;
    var n := Step(s, e);
    assert |n.calls| == |s.calls| by { StepFrame(s, e); }
    forall j | 0 <= j < |n.listed|
      ensures OwnerLive(n, n.listed[j].owner)
    {
      ListedOwners(s, e, j);
    }
    forall j | 0 <= j < |n.calls|
      ensures CallOk(n, n.calls[j])
    {
      CallsStay(s, e, j);
    }
    forall v | 0 <= v < |n.vmas|
      ensures VmaOk(n, n.vmas[v])
    {
      VmasStay(s, e, v);
    }
  }

  lemma InitHolds(s: State)
    requires Init(s)
    ensures Inv(s)
  {
    forall e
      ensures Total(s.calls, CallHolds, e) == 0
    {
      TotalNone(s.calls, CallHolds, e);
    }
  }

  // ---------------------------------------------------------------- runs

  ghost predicate IsRun(ss: seq<State>, es: seq<Event>) {
    && |ss| == |es| + 1 && Init(ss[0])
    && forall i :: 0 <= i < |es| ==> Enabled(ss[i], es[i]) && ss[i + 1] == Step(ss[i], es[i])
  }

  lemma {:induction false} RunKeepsInv(ss: seq<State>, es: seq<Event>, i: nat)
    requires IsRun(ss, es) && i < |ss|
    ensures Inv(ss[i])
  {
    hide Inv; hide Step; hide Enabled; hide Init;
    if i == 0 {
      InitHolds(ss[0]);
    } else {
      RunKeepsInv(ss, es, i - 1);
      StepPreserves(ss[i - 1], es[i - 1]);
    }
  }

  /**
   Along every interleaving: an entry's kref is the number of its holders, and the entry has
   been freed exactly once if it was made and has no holder left, and otherwise not at all.
   */
  lemma FreedExactlyOnce(ss: seq<State>, es: seq<Event>, i: nat, e: Entry)
    requires IsRun(ss, es) && i < |ss|
    ensures ss[i].refs[e] == Holders(ss[i], e)
    ensures ss[i].freed[e] == One(e in ss[i].made && Holders(ss[i], e) == 0)
  {
    RunKeepsInv(ss, es, i);
  }

  /** Nothing listed, mapped or in the hands of a call is freed memory. */
  lemma NeverFreedWhileHeld(ss: seq<State>, es: seq<Event>, i: nat)
    requires IsRun(ss, es) && i < |ss|
    ensures forall j :: 0 <= j < |ss[i].listed| ==> ss[i].listed[j] !in ss[i].freed
    ensures forall v :: 0 <= v < |ss[i].vmas| ==> ss[i].vmas[v].e !in ss[i].freed
    ensures forall k :: 0 <= k < |ss[i].calls| && (ss[i].calls[k].Mapping? || ss[i].calls[k].Putting?) ==>
              ss[i].calls[k].e !in ss[i].freed
  {
    hide IsRun; hide Total;
    var s := ss[i];
    RunKeepsInv(ss, es, i);
    forall j | 0 <= j < |s.listed| ensures s.listed[j] !in s.freed {
      TotalCovers(s.listed, ListHolds, s.listed[j], j);
    }
    forall v | 0 <= v < |s.vmas| ensures s.vmas[v].e !in s.freed {
      TotalCovers(s.vmas, VmaHolds, s.vmas[v].e, v);
    }
    forall k | 0 <= k < |s.calls| && (s.calls[k].Mapping? || s.calls[k].Putting?) ensures s.calls[k].e !in s.freed {
      TotalCovers(s.calls, CallHolds, s.calls[k].e, k);
    }
  }

  /** A mapping only ever shows memory of an allocation of its own file, and never past its end. */
  lemma MapsOwnMemory(ss: seq<State>, es: seq<Event>, i: nat, v: nat)
    requires IsRun(ss, es) && i < |ss| && v < |ss[i].vmas|
    ensures ss[i].vmas[v].e.owner == ss[i].vmas[v].file && ss[i].vmas[v].size <= ss[i].vmas[v].e.size
    ensures ss[i].vmas[v].e in ss[i].made
  {
    RunKeepsInv(ss, es, i);
    TotalCovers(ss[i].vmas, VmaHolds, ss[i].vmas[v].e, v);
  }

  /** Once a file is released and unmapped, every allocation it made has been freed. */
  lemma NoLeak(ss: seq<State>, es: seq<Event>, i: nat, file: nat, e: Entry)
    requires IsRun(ss, es) && i < |ss| && file !in ss[i].open && Unused(ss[i], file)
    requires e in ss[i].made && e.owner == file
    ensures ss[i].freed[e] == 1
  {
    hide IsRun;
    RunKeepsInv(ss, es, i);
    NoHolders(ss[i], file, e);
  }

  lemma NoHolders(s: State, file: nat, e: Entry)
    requires FdsOk(s) && file !in s.open && Unused(s, file) && e.owner == file
    ensures Holders(s, e) == 0
  {
    hide Total;
    assert !OwnerLive(s, file);
    TotalNone(s.listed, ListHolds, e);
    TotalNone(s.vmas, VmaHolds, e);
    forall k | 0 <= k < |s.calls|
      ensures CallHolds(s.calls[k], e) == 0
    {
      assert CallOk(s, s.calls[k]) && !Uses(s.calls[k], file);
      if s.calls[k].Draining? { TotalNone(s.calls[k].es, ListHolds, e); }
    }
    TotalNone(s.calls, CallHolds, e);
  }

  // ---------------------------------------------------------------- which allocation

  /**
   mmap finds an allocation exactly when one with the id asked for is listed for its file, and
   takes a reference to the first such one; otherwise it changes nothing.
   */
  lemma MapFinds(s: State, i: nat, file: nat, pgoff: nat, size: nat)
    requires Enabled(s, Map(i, file, pgoff, size))
    ensures var n := Step(s, Map(i, file, pgoff, size));
            && (n.calls[i].Mapping? <==>
                exists m :: 0 <= m < |s.listed| && s.listed[m].owner == file &&
                            s.listed[m].id == pgoff % 0x1_0000_0000)
            && (n.calls[i].Mapping? ==>
                exists m :: 0 <= m < |s.listed| && s.listed[m].owner == file &&
                            s.listed[m].id == pgoff % 0x1_0000_0000 &&
                            n == s.(calls := s.calls[i := Mapping(file, s.listed[m], size)],
                                    refs := s.refs + multiset{s.listed[m]}) &&
                            forall j :: 0 <= j < m ==>
                              s.listed[j].owner != file || s.listed[j].id != pgoff % 0x1_0000_0000)
            && (!n.calls[i].Mapping? ==> n == s)
  {
    hide FirstMatch;
    var m := FirstMatch(s.listed, Named(file, pgoff % WORD32));
    assert forall j :: 0 <= j < m ==> !Named(file, pgoff % WORD32)(s.listed[j]);
    assert m == |s.listed| ==> s.calls[i := Idle] == s.calls;
  }

  /**
   FREE_CONTIG_QUEUE takes exactly one allocation off the list, the first with the id and the
   owner asked for, if there is one, and leaves all others in their order; otherwise it
   changes nothing.
   */
  lemma FreeTakes(s: State, i: nat, file: nat, id: nat)
    requires Enabled(s, Free(i, file, id))
    ensures var n := Step(s, Free(i, file, id));
            && (n.calls[i].Putting? <==>
                exists m :: 0 <= m < |s.listed| && s.listed[m].owner == file && s.listed[m].id == id)
            && (n.calls[i].Putting? ==>
                exists m :: 0 <= m < |s.listed| && s.listed[m].owner == file && s.listed[m].id == id &&
                            n == s.(calls := s.calls[i := Putting(file, s.listed[m])],
                                    listed := s.listed[..m] + s.listed[m + 1..]) &&
                            forall j :: 0 <= j < m ==> s.listed[j].owner != file || s.listed[j].id != id)
            && (!n.calls[i].Putting? ==> n == s)
  {
    hide FirstMatch;
    var m := FirstMatch(s.listed, Named(file, id));
    assert forall j :: 0 <= j < m ==> !Named(file, id)(s.listed[j]);
  }

  /** A mapping under way succeeds exactly when the kernel maps it and it is not larger than the allocation. */
  lemma MapSucceeds(s: State, i: nat, ok: bool)
    requires Enabled(s, Run(i, ok)) && s.calls[i].Mapping?
    ensures var n, k := Step(s, Run(i, ok)), s.calls[i];
            && n.vmas == s.vmas + (if ok && k.size <= k.e.size then [Vma(k.file, k.e, k.size)] else [])
            && n.refs == s.refs && n.listed == s.listed
            && n.calls[i] == (if ok && k.size <= k.e.size then Idle else Putting(k.file, k.e))
  {
  }

  /** The mmap call at time k asked for the allocation e, which was listed. */
  ghost predicate AskedFor(ss: seq<State>, es: seq<Event>, k: nat, file: nat, e: Entry, size: nat) {
    && k < |es| < |ss| && es[k].Map? && es[k].file == file && es[k].size == size
    && e.owner == file && e.id == es[k].pgoff % 0x1_0000_0000 && e in ss[k].listed
  }

  /** Every mapping shows the allocation that some mmap call of its file named, with the size it named. */
  lemma {:induction false} MappedAsAsked(ss: seq<State>, es: seq<Event>, i: nat, v: nat)
    requires IsRun(ss, es) && i < |ss| && v < |ss[i].vmas|
    ensures var x := ss[i].vmas[v]; exists k :: 0 <= k < i && AskedFor(ss, es, k, x.file, x.e, x.size)
  {
    hide AskedFor; hide Step; hide Enabled;
    var x, s, e := ss[i].vmas[v], ss[i - 1], es[i - 1];
    VmaFrom(s, e, v);
    if x in s.vmas {
      var u :| 0 <= u < |s.vmas| && s.vmas[u] == x;
      MappedAsAsked(ss, es, i - 1, u);
    } else {
      assert e.i < |s.calls| by { RunIndex(s, e); }
      CallsAsked(ss, es, i - 1, e.i);
    }
  }

  lemma RunIndex(s: State, e: Event)
    requires Enabled(s, e) && e.Run?
    ensures e.i < |s.calls|
  {
  }

  lemma {:induction false} CallsAsked(ss: seq<State>, es: seq<Event>, i: nat, j: nat)
    requires IsRun(ss, es) && i < |ss| && j < |ss[i].calls| && ss[i].calls[j].Mapping?
    ensures var k := ss[i].calls[j]; exists m :: 0 <= m < i && AskedFor(ss, es, m, k.file, k.e, k.size)
  {
    hide Step; hide Enabled; hide AskedFor;
    if i > 0 {
      var s, e, k := ss[i - 1], es[i - 1], ss[i].calls[j];
      MappingFrom(s, e, j);
      if k == s.calls[j] {
        CallsAsked(ss, es, i - 1, j);
      } else {
        assert AskedFor(ss, es, i - 1, k.file, k.e, k.size) by { AskedNow(ss, es, i - 1); }
      }
    }
  }

  lemma MappingFrom(s: State, e: Event, j: nat)
    requires Enabled(s, e) && j < |Step(s, e).calls| && Step(s, e).calls[j].Mapping?
    ensures j < |s.calls| && (Step(s, e).calls[j] == s.calls[j] || (e.Map? && e.i == j))
  {
    StepFrame(s, e);
    hide Taken; hide Rest; hide FirstMatch;
  }

  lemma AskedNow(ss: seq<State>, es: seq<Event>, n: nat)
    requires n < |es| < |ss| && Enabled(ss[n], es[n]) && ss[n + 1] == Step(ss[n], es[n]) && es[n].Map?
    requires es[n].i < |ss[n + 1].calls| && ss[n + 1].calls[es[n].i].Mapping?
    ensures var k := ss[n + 1].calls[es[n].i]; AskedFor(ss, es, n, k.file, k.e, k.size)
  {
    MapFinds(ss[n], es[n].i, es[n].file, es[n].pgoff, es[n].size);
    hide Step;
  }

  /** Newest first, and every listed entry is one that was made. */
  predicate ListOrder(made: seq<Entry>, listed: seq<Entry>) {
    && (forall j :: 0 <= j < |listed| ==> listed[j].obj < |made| && made[listed[j].obj] == listed[j])
    && Descending(listed)
  }

  predicate Descending(es: seq<Entry>) { forall j, k :: 0 <= j < k < |es| ==> es[j].obj > es[k].obj }

  predicate Numbered(made: seq<Entry>) {
    forall k :: 0 <= k < |made| ==> made[k].obj == k && made[k].id == (1 + k) % 0x1_0000_0000
  }

  lemma {:induction false} RestDescending(es: seq<Entry>, p: Entry -> bool)
    requires Descending(es)
    ensures Descending(Rest(es, p))
  {
    if es != [] {
      var rest := Rest(es[1..], p);
      RestDescending(es[1..], p);
      forall j | 0 <= j < |rest|
        ensures es[0].obj > rest[j].obj
      {
        RestKeeps(es[1..], p, j);
      }
    }
  }

  lemma RestOrder(made: seq<Entry>, listed: seq<Entry>, p: Entry -> bool)
    requires ListOrder(made, listed)
    ensures ListOrder(made, Rest(listed, p))
  {
    RestDescending(listed, p);
    forall j | 0 <= j < |Rest(listed, p)|
      ensures var x := Rest(listed, p)[j]; x.obj < |made| && made[x.obj] == x
    {
      RestKeeps(listed, p, j);
    }
  }

  lemma OneLessOrder(made: seq<Entry>, listed: seq<Entry>, m: nat)
    requires ListOrder(made, listed) && m < |listed|
    ensures ListOrder(made, listed[..m] + listed[m + 1..])
  {
  }

  lemma OneMoreOrder(made: seq<Entry>, listed: seq<Entry>, e: Entry)
    requires ListOrder(made, listed) && Numbered(made) && e.obj == |made| && e.id == (1 + |made|) % 0x1_0000_0000
    ensures ListOrder(made + [e], [e] + listed) && Numbered(made + [e])
  {
  }

  lemma StepOrder(s: State, e: Event)
    requires Enabled(s, e) && Numbered(s.made) && ListOrder(s.made, s.listed)
    ensures Numbered(Step(s, e).made) && ListOrder(Step(s, e).made, Step(s, e).listed)
  {
    hide Step; hide Enabled; hide ListOrder; hide Numbered;
    var n := Step(s, e);
    MadeStays(s, e);
    if e.Free? {
      FreeTakes(s, e.i, e.file, e.id);
      if n != s {
        var m :| 0 <= m < |s.listed| && n.listed == s.listed[..m] + s.listed[m + 1..];
        OneLessOrder(s.made, s.listed, m);
      }
    } else if e.Run? {
      RunList(s, e.i, e.ok);
      if n.listed != s.listed { RestOrder(s.made, s.listed, OwnedBy(s.calls[e.i].file)); }
    } else {
      ListStays(s, e);
      if n.made != s.made { OneMoreOrder(s.made, s.listed, n.made[|s.made|]); }
    }
  }

  lemma RunList(s: State, i: nat, ok: bool)
    requires Enabled(s, Run(i, ok))
    ensures i < |s.calls|
    ensures var n := Step(s, Run(i, ok));
            n.listed == s.listed || (s.calls[i].Releasing? && n.listed == Rest(s.listed, OwnedBy(s.calls[i].file)))
  {
    hide Taken; hide Rest;
  }

  lemma ListStays(s: State, e: Event)
    requires Enabled(s, e) && !e.Free? && !e.Run?
    ensures var n := Step(s, e); n.listed == if n.made == s.made then s.listed else [n.made[|s.made|]] + s.listed
  {
    hide FirstMatch; hide Taken;
  }

  lemma {:induction false} RunOrder(ss: seq<State>, es: seq<Event>, i: nat)
    requires IsRun(ss, es) && i < |ss|
    ensures Numbered(ss[i].made) && ListOrder(ss[i].made, ss[i].listed)
  {
    hide Step; hide Enabled; hide Numbered; hide ListOrder;
    if i == 0 {
      EmptyOrder(ss[0]);
    } else {
      RunOrder(ss, es, i - 1);
      StepOrder(ss[i - 1], es[i - 1]);
    }
  }

  lemma EmptyOrder(s: State)
    requires Init(s)
    ensures Numbered(s.made) && ListOrder(s.made, s.listed)
  {
  }

  /** No listed allocation of the same owner and id is newer. */
  predicate Newest(listed: seq<Entry>, e: Entry) {
    forall j :: 0 <= j < |listed| && listed[j].owner == e.owner && listed[j].id == e.id ==> listed[j].obj <= e.obj
  }

  lemma FirstIsNewest(made: seq<Entry>, listed: seq<Entry>, m: nat, e: Entry)
    requires ListOrder(made, listed) && Numbered(made) && m < |listed| && e in listed
    requires listed[m].owner == e.owner && listed[m].id == e.id
    requires forall j :: 0 <= j < m ==> listed[j].owner != e.owner || listed[j].id != e.id
    ensures listed[m] == e <==> Newest(listed, e)
    ensures |made| <= 0x1_0000_0000 ==> listed[m] == e
  {
    var k :| 0 <= k < |listed| && listed[k] == e;
    if |made| <= 0x1_0000_0000 { IdsApart(made, e.obj, listed[m].obj); }
  }

  lemma IdsApart(made: seq<Entry>, a: nat, b: nat)
    requires Numbered(made) && a < |made| <= 0x1_0000_0000 && b < |made| && made[a].id == made[b].id
    ensures a == b
  {
  }

  /**
   The id of an allocation names it: along every run, mmap or FREE_CONTIG_QUEUE with the id of
   a listed allocation of the file takes that allocation, exactly unless a newer one of the
   file has the same id, which takes 2^32 allocations in between.
   */
  lemma IdNames(ss: seq<State>, es: seq<Event>, n: nat, e: Entry)
    requires IsRun(ss, es) && n < |es| && e in ss[n].listed
    requires (es[n].Map? && es[n].pgoff % 0x1_0000_0000 == e.id) || (es[n].Free? && es[n].id == e.id)
    requires es[n].file == e.owner
    ensures var k := ss[n + 1].calls[es[n].i];
            && (k.Mapping? || k.Putting?) && (k.e == e <==> Newest(ss[n].listed, e))
            && (|ss[n].made| <= 0x1_0000_0000 ==> k.e == e)
  {
    hide IsRun; hide Newest; hide ListOrder; hide Numbered;
    RunStepAt(ss, es, n);
    RunOrder(ss, es, n);
    var s, v := ss[n], es[n];
    if v.Map? {
      MapFinds(s, v.i, v.file, v.pgoff, v.size);
    } else {
      FreeTakes(s, v.i, v.file, v.id);
    }
    hide Step;
    var m :| 0 <= m < |s.listed| && s.listed[m].owner == e.owner && s.listed[m].id == e.id &&
             ss[n + 1].calls[v.i].e == s.listed[m] &&
             forall j :: 0 <= j < m ==> s.listed[j].owner != e.owner || s.listed[j].id != e.id;
    FirstIsNewest(s.made, s.listed, m, e);
  }

  lemma RunStepAt(ss: seq<State>, es: seq<Event>, n: nat)
    requires IsRun(ss, es) && n < |es|
    ensures |ss| == |es| + 1 && Enabled(ss[n], es[n]) && ss[n + 1] == Step(ss[n], es[n])
  {
  }

  /** The allocations made are those asked for with a size in range, in order, with ids counted from 1. */
  function Granted(es: seq<Event>): seq<(nat, nat)> {
    if es == [] then []
    else
      var e := es[|es| - 1];
      Granted(es[..|es| - 1]) + if e.Alloc? && 0 < e.size <= 16777216 then [(e.file, e.size)] else []
  }

  lemma {:induction false} MadeAsAsked(ss: seq<State>, es: seq<Event>, i: nat)
    requires IsRun(ss, es) && i < |ss|
    ensures var asked := Granted(es[..i]);
            && |ss[i].made| == |asked|
            && forall k :: 0 <= k < |asked| ==>
                 ss[i].made[k] == Entry(k, (1 + k) % 0x1_0000_0000, asked[k].0, asked[k].1)
  {
    hide Step; hide Enabled;
    if i > 0 {
      MadeAsAsked(ss, es, i - 1);
      assert es[..i][..i - 1] == es[..i - 1];
      MadeStays(ss[i - 1], es[i - 1]);
    }
  }

  lemma MadeStays(s: State, e: Event)
    requires Enabled(s, e)
    ensures !e.Alloc? || e.size == 0 || e.size > 16777216 ==> Step(s, e).made == s.made
    ensures e.Alloc? && 0 < e.size <= 16777216 ==>
              Step(s, e).made == s.made + [Entry(|s.made|, (1 + |s.made|) % 0x1_0000_0000, e.file, e.size)]
  {
    hide Taken; hide FirstMatch; hide Rest;
  }

  // ---------------------------------------------------------------- progress

  /** An allocation on the list can be mapped and freed by its open file, by the id it was given. */
  lemma ListedIsInReach(ss: seq<State>, es: seq<Event>, n: nat, i: nat, e: Entry, size: nat)
    requires IsRun(ss, es) && n < |ss| && e in ss[n].listed && e.owner in ss[n].open
    requires i < |ss[n].calls| && ss[n].calls[i] == Idle
    ensures Enabled(ss[n], Free(i, e.owner, e.id))
    ensures var pgoff := if e.id == 0 then 0x1_0000_0000 else e.id;
            pgoff % 0x1_0000_0000 == e.id && Enabled(ss[n], Map(i, e.owner, pgoff, size))
  {
    RunOrder(ss, es, n);
  }

  /** Steps a call has left. */
  function StepsLeft(s: State, k: Call): nat {
    match k
    case Idle => 0
    case Mapping(_, _, _) => 2
    case Putting(_, _) => 1
    case Releasing(file) => |Taken(s.listed, OwnedBy(file))| + 2
    case Draining(_, es) => |es| + 1
  }

  /** Every call under way can take its next step, and each step brings it nearer to its end. */
  lemma CallsEnd(s: State, i: nat, ok: bool)
    requires i < |s.calls| && s.calls[i] != Idle
    ensures Enabled(s, Run(i, ok))
    ensures var n := Step(s, Run(i, ok)); StepsLeft(n, n.calls[i]) < StepsLeft(s, s.calls[i])
  {
    hide Taken; hide Rest;
  }
}
