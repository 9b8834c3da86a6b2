/**
 Namespace quiesce accounting of the kernel module: the QUIESCE_NS and UNQUIESCE_NS ioctls
 and the release of a file descriptor, for any number of them in flight. QuiescedList holds
 the tracked entries and the list operations; the state machine interleaves the steps around
 them. quiesced_ns_lock is held exactly while a call is between its duplicate check and its
 list_add; every other critical section is a single step.
 */
module Quiesce {
  import opened Holding
  import opened KernelList

  /** A block device and its request queue (partitions share one). */
  datatype Device = Device(id: nat, queue: nat)

  datatype Mode = Full | Hctx

  /** A quiesced_ns_entry; file is the pinned bdev file, owner the ioctl's file. */
  datatype Entry = Entry(owner: nat, file: nat, bd: Device, mode: Mode, hctx: nat)

  /** The duplicate test of QUIESCE_NS and the match test of UNQUIESCE_NS. */
  predicate SameKey(e: Entry, f: Entry) {
    e.owner == f.owner && e.bd == f.bd && e.mode == f.mode && (e.mode == Full || e.hctx == f.hctx)
  }

  function Like(want: Entry): Entry -> bool { e => SameKey(e, want) }

  function OwnedBy(owner: nat): Entry -> bool { (e: Entry) => e.owner == owner }

  /** An entry of the owner, device and mode of e, and of its context in HCTX mode, is tracked. */
  predicate Holds(tracked: seq<Entry>, e: Entry) {
    exists j :: 0 <= j < |tracked| && tracked[j].owner == e.owner && tracked[j].bd == e.bd &&
                tracked[j].mode == e.mode && (e.mode == Hctx ==> tracked[j].hctx == e.hctx)
  }

  /** The two walks find an entry exactly when there is one to find. */
  lemma TrackedIff(es: seq<Entry>, e: Entry)
    ensures Contains(es, Like(e)) <==> Holds(es, e)
  {
    var m := FirstMatch(es, Like(e));
    assert forall j :: 0 <= j < m ==> !Like(e)(es[j]);
  }

  // ---------------------------------------------------------------- the list

  class QuiescedList {
    var tracked: seq<Entry>

    constructor ()
      ensures tracked == []
    {
      tracked := [];
    }

    /** The duplicate check of QUIESCE_NS and, when there is none, its list_add. */
    method AddUnlessTracked(e: Entry) returns (added: bool)
      modifies this
      ensures added == !Holds(old(tracked), e)
      ensures tracked == if added then [e] + old(tracked) else old(tracked)
    {
      TrackedIff(tracked, e);
      var i := Find(tracked, Like(e));
      added := i == |tracked|;
      if added {
        tracked := [e] + tracked;
      }
    }

    /** The search-and-delete of UNQUIESCE_NS. */
    method RemoveMatch(want: Entry) returns (found: bool, e: Entry)
      modifies this
      ensures found == Holds(old(tracked), want)
      ensures found ==> e == old(tracked)[FirstMatch(old(tracked), Like(want))]
      ensures found ==> e.owner == want.owner && e.bd == want.bd && e.mode == want.mode &&
                        (want.mode == Hctx ==> e.hctx == want.hctx)
      ensures tracked == if found then Without(old(tracked), FirstMatch(old(tracked), Like(want))) else old(tracked)
    {
      TrackedIff(tracked, want);
      var i := Find(tracked, Like(want));
      found, e := i < |tracked|, want;
      if found {
        e := tracked[i];
        tracked := Without(tracked, i);
      }
    }

    /** The walk of release that moves the owner's entries to a private list. */
    method TakeOwned(owner: nat) returns (moved: seq<Entry>)
      modifies this
      ensures tracked == Rest(old(tracked), OwnedBy(owner))
      ensures moved == Taken(old(tracked), OwnedBy(owner))
    {
      tracked, moved := Take(tracked, OwnedBy(owner));
    }
  }

  // ---------------------------------------------------------------- the state machine

  /** A level of a queue's quiesce depth, or a reference to a bdev file. */
  datatype Resource = Depth(queue: nat) | Pin(file: nat)

  datatype Call =
    | Idle
    | Quiescing(e: Entry)                          // file pinned, lock not taken
    | Checked(e: Entry)                            // lock held, no duplicate
    | Raised(e: Entry)                             // lock held, queue quiesced
    | Stopped(e: Entry)                            // lock held, hctx stopped, queue resumed
    | Unquiescing(e: Entry)                        // file pinned, lock not taken
    | Removed(owner: nat, file: nat, e: Entry)     // entry off the list, queue not resumed
    | Resumed(owner: nat, file: nat, e: Entry)     // queue resumed, entry's file still pinned
    | Dropping(owner: nat, file: nat)              // only fput(bdev_file) is left
    | Releasing(owner: nat)                        // release entered, lock not taken
    | Draining(owner: nat, es: seq<Entry>, resumed: bool)

  datatype State = State(tracked: seq<Entry>, held: multiset<Resource>, open: set<nat>, calls: seq<Call>)

  datatype Event =
    | Open(owner: nat)
    | Quiesce(i: nat, e: Entry)
    | Unquiesce(i: nat, e: Entry)
    | Release(i: nat, owner: nat)
    | Run(i: nat, ok: bool)

  predicate InSection(k: Call) { k.Checked? || k.Raised? || k.Stopped? }

  predicate LockFree(s: State) { forall i :: 0 <= i < |s.calls| ==> !InSection(s.calls[i]) }

  /** The call belongs to the file descriptor. */
  predicate Uses(k: Call, owner: nat) {
    match k
    case Idle => false
    case Quiescing(e) => e.owner == owner
    case Checked(e) => e.owner == owner
    case Raised(e) => e.owner == owner
    case Stopped(e) => e.owner == owner
    case Unquiescing(e) => e.owner == owner
    case Removed(o, _, _) => o == owner
    case Resumed(o, _, _) => o == owner
    case Dropping(o, _) => o == owner
    case Releasing(o) => o == owner
    case Draining(o, _, _) => o == owner
  }

  predicate InRelease(k: Call) { k.Releasing? || k.Draining? }

  predicate Unused(s: State, owner: nat) { forall i :: 0 <= i < |s.calls| ==> !Uses(s.calls[i], owner) }

  predicate Init(s: State) {
    s.tracked == [] && s.held == multiset{} && s.open == {} && forall i :: 0 <= i < |s.calls| ==> s.calls[i] == Idle
  }

  /** An ioctl needs its file open; release runs when the last reference to it is gone. */
  predicate Enabled(s: State, e: Event) {
    match e
    case Open(owner) => owner !in s.open && Unused(s, owner)
    case Quiesce(i, n) => i < |s.calls| && s.calls[i] == Idle && n.owner in s.open
    case Unquiesce(i, n) => i < |s.calls| && s.calls[i] == Idle && n.owner in s.open
    case Release(i, owner) => i < |s.calls| && s.calls[i] == Idle && owner in s.open && Unused(s, owner)
    case Run(i, ok) =>
      i < |s.calls| && s.calls[i] != Idle &&
      match s.calls[i]
      case Quiescing(_) => ok ==> LockFree(s)
      case Unquiescing(_) => LockFree(s)
      case Releasing(_) => LockFree(s)
      case _ => true
  }

  function Set(s: State, i: nat, k: Call): State
    requires i < |s.calls|
  {
    s.(calls := s.calls[i := k])
  }

  /** blk_mq_unquiesce_queue for a FULL entry; an HCTX entry restarts its queue instead. */
  function Resume(held: multiset<Resource>, e: Entry): multiset<Resource> {
    if e.mode == Full then held - multiset{Depth(e.bd.queue)} else held
  }

  // One step of a call that is past its entry, by what it does to the call, the list and
  // the resources. ok is the outcome of the checks and the allocation before the lock.

  function NextCall(tracked: seq<Entry>, k: Call, ok: bool): Call {
    match k
    case Idle => Idle
    case Quiescing(e) => if !ok || Contains(tracked, Like(e)) then Dropping(e.owner, e.file) else Checked(e)
    case Checked(e) => Raised(e)
    case Raised(e) => if e.mode == Full then Idle else Stopped(e)
    case Stopped(_) => Idle
    case Unquiescing(e) =>
      var m := FirstMatch(tracked, Like(e));
      if m < |tracked| then Removed(e.owner, e.file, tracked[m]) else Dropping(e.owner, e.file)
    case Removed(o, f, e) => Resumed(o, f, e)
    case Resumed(o, f, _) => Dropping(o, f)
    case Dropping(_, _) => Idle
    case Releasing(o) => Draining(o, Taken(tracked, OwnedBy(o)), false)
    case Draining(o, es, resumed) =>
      if es == [] then Idle else if !resumed then Draining(o, es, true) else Draining(o, es[1..], false)
  }

  function NextTracked(tracked: seq<Entry>, k: Call): seq<Entry> {
    match k
    case Raised(e) => if e.mode == Full then [e] + tracked else tracked
    case Stopped(e) => [e] + tracked
    case Unquiescing(e) =>
      var m := FirstMatch(tracked, Like(e));
      if m < |tracked| then Without(tracked, m) else tracked
    case Releasing(o) => Rest(tracked, OwnedBy(o))
    case _ => tracked
  }

  function NextHeld(held: multiset<Resource>, k: Call): multiset<Resource> {
    match k
    case Checked(e) => held + multiset{Depth(e.bd.queue)}
    case Raised(e) => if e.mode == Full then held else held - multiset{Depth(e.bd.queue)}
    case Removed(_, _, e) => Resume(held, e)
    case Resumed(_, _, e) => held - multiset{Pin(e.file)}
    case Dropping(_, f) => held - multiset{Pin(f)}
    case Draining(_, es, resumed) =>
      if es == [] then held else if !resumed then Resume(held, es[0]) else held - multiset{Pin(es[0].file)}
    case _ => held
  }

  function RunStep(s: State, i: nat, ok: bool): State
    requires i < |s.calls|
  {
    var k := s.calls[i];
    State(NextTracked(s.tracked, k), NextHeld(s.held, k), s.open, s.calls[i := NextCall(s.tracked, k, ok)])
  }

  function Step(s: State, e: Event): State
    requires Enabled(s, e)
  {
    match e
    case Open(owner) => s.(open := s.open + {owner})
    case Quiesce(i, n) => Set(s, i, Quiescing(n)).(held := s.held + multiset{Pin(n.file)})
    case Unquiesce(i, n) => Set(s, i, Unquiescing(n)).(held := s.held + multiset{Pin(n.file)})
    case Release(i, owner) => Set(s, i, Releasing(owner)).(open := s.open - {owner})
    case Run(i, ok) => RunStep(s, i, ok)
  }

  // ---------------------------------------------------------------- what is held, and by whom

  /** A tracked entry pins one file, and a FULL one holds one level of depth. */
  function EntryHolds(e: Entry, r: Resource): nat {
    One(r == Pin(e.file)) + One(e.mode == Full && r == Depth(e.bd.queue))
  }

  ghost function CallHolds(k: Call, r: Resource): nat {
    match k
    case Idle => 0
    case Quiescing(e) => One(r == Pin(e.file))
    case Checked(e) => One(r == Pin(e.file))
    case Raised(e) => One(r == Pin(e.file)) + One(r == Depth(e.bd.queue))
    case Stopped(e) => One(r == Pin(e.file))
    case Unquiescing(e) => One(r == Pin(e.file))
    case Removed(_, f, e) => One(r == Pin(f)) + EntryHolds(e, r)
    case Resumed(_, f, e) => One(r == Pin(f)) + One(r == Pin(e.file))
    case Dropping(_, f) => One(r == Pin(f))
    case Releasing(_) => 0
    case Draining(_, es, resumed) =>
      if es != [] && resumed then One(r == Pin(es[0].file)) + Total(es[1..], EntryHolds, r)
      else Total(es, EntryHolds, r)
  }

  /** Every level of depth and every file reference taken is held by exactly one holder. */
  ghost predicate Conserved(s: State) {
    forall r :: s.held[r] == Total(s.tracked, EntryHolds, r) + Total(s.calls, CallHolds, r)
  }

  predicate NoDuplicates(es: seq<Entry>) {
    forall i, j :: 0 <= i < j < |es| ==> !SameKey(es[i], es[j])
  }

  /** At most one call is in the critical section, and its entry is not tracked. */
  predicate SectionOk(s: State) {
    && (forall i, j :: 0 <= i < j < |s.calls| ==> !(InSection(s.calls[i]) && InSection(s.calls[j])))
    && (forall i :: 0 <= i < |s.calls| && InSection(s.calls[i]) ==> !Contains(s.tracked, Like(s.calls[i].e)))
    && (forall i :: 0 <= i < |s.calls| && s.calls[i].Stopped? ==> s.calls[i].e.mode == Hctx)
  }

  predicate OwnerLive(s: State, owner: nat) {
    owner in s.open || exists i :: 0 <= i < |s.calls| && s.calls[i] == Releasing(owner)
  }

  predicate Shares(s: State, i: nat, j: nat, owner: nat)
    requires i < |s.calls| && j < |s.calls|
  {
    i != j && Uses(s.calls[i], owner) && Uses(s.calls[j], owner)
  }

  /**
   A call's file is open exactly when the call is not its release, a release is the only
   call of its file, and a tracked entry's owner is open or about to be swept.
   */
  ghost predicate FdsOk(s: State) {
    && (forall i, o :: 0 <= i < |s.calls| && Uses(s.calls[i], o) ==> (o in s.open) == !InRelease(s.calls[i]))
    && (forall i, j, o :: 0 <= i < |s.calls| && 0 <= j < |s.calls| && Shares(s, i, j, o) ==> !InRelease(s.calls[i]))
    && (forall i :: 0 <= i < |s.tracked| ==> OwnerLive(s, s.tracked[i].owner))
  }

  ghost predicate Inv(s: State) {
    NoDuplicates(s.tracked) && SectionOk(s) && FdsOk(s) && Conserved(s)
  }

  // ---------------------------------------------------------------- every step keeps it

  /** A step moves resources between its call, the list and the outside, losing none. */
  ghost predicate Moves(tracked: seq<Entry>, held: multiset<Resource>, k: Call, ok: bool, r: Resource) {
    Total(NextTracked(tracked, k), EntryHolds, r) + CallHolds(NextCall(tracked, k, ok), r) + held[r] ==
    Total(tracked, EntryHolds, r) + CallHolds(k, r) + NextHeld(held, k)[r]
  }

  lemma QuiesceMoves(tracked: seq<Entry>, held: multiset<Resource>, k: Call, ok: bool, r: Resource)
    requires k.Quiescing? || InSection(k)
    requires CallHolds(k, r) <= held[r] && (k.Stopped? ==> k.e.mode == Hctx)
    ensures Moves(tracked, held, k, ok, r)
  {
    hide Contains; hide Total;
    TotalCons(k.e, tracked, EntryHolds, r);
  }

  lemma ListMoves(tracked: seq<Entry>, held: multiset<Resource>, k: Call, ok: bool, r: Resource)
    requires k.Unquiescing? || k.Releasing?
    ensures Moves(tracked, held, k, ok, r)
  {
    hide FirstMatch; hide Total; hide Taken; hide Rest; hide SameKey;
    if k.Releasing? {
      SplitTotal(tracked, OwnedBy(k.owner), EntryHolds, r);
    } else {
      var m := FirstMatch(tracked, Like(k.e));
      if m < |tracked| { TotalRemove(tracked, EntryHolds, r, m); }
    }
  }

  lemma ResumeMoves(tracked: seq<Entry>, held: multiset<Resource>, k: Call, ok: bool, r: Resource)
    requires k.Removed? && CallHolds(k, r) <= held[r]
    ensures Moves(tracked, held, k, ok, r)
  {
    hide Total;
    assert NextHeld(held, k) == Resume(held, k.e) && NextCall(tracked, k, ok) == Resumed(k.owner, k.file, k.e);
  }

  lemma DropMoves(tracked: seq<Entry>, held: multiset<Resource>, k: Call, ok: bool, r: Resource)
    requires k.Resumed? || k.Dropping? || k.Idle?
    requires CallHolds(k, r) <= held[r]
    ensures Moves(tracked, held, k, ok, r)
  {
    hide Total;
  }

  lemma DrainMoves(tracked: seq<Entry>, held: multiset<Resource>, k: Call, ok: bool, r: Resource)
    requires k.Draining? && CallHolds(k, r) <= held[r]
    ensures Moves(tracked, held, k, ok, r)
  {
    assert NextTracked(tracked, k) == tracked;
    if k.es != [] {
      assert Total(k.es, EntryHolds, r) == EntryHolds(k.es[0], r) + Total(k.es[1..], EntryHolds, r);
      hide Total; hide FirstMatch; hide Taken; hide Rest; hide NextTracked;
      if k.resumed {
        assert NextCall(tracked, k, ok) == Draining(k.owner, k.es[1..], false);
        assert NextHeld(held, k) == held - multiset{Pin(k.es[0].file)};
      } else {
        assert NextCall(tracked, k, ok) == Draining(k.owner, k.es, true);
        assert NextHeld(held, k) == Resume(held, k.es[0]);
      }
      hide NextCall; hide NextHeld;
    }
  }

  lemma RunConserves(s: State, i: nat, ok: bool)
    requires Conserved(s) && i < |s.calls|
    requires s.calls[i].Stopped? ==> s.calls[i].e.mode == Hctx
    ensures Conserved(RunStep(s, i, ok))
  {
    hide NextCall; hide NextTracked; hide NextHeld; hide CallHolds; hide EntryHolds; hide Total;
    var n, k := RunStep(s, i, ok), s.calls[i];
    forall r
      ensures n.held[r] == Total(n.tracked, EntryHolds, r) + Total(n.calls, CallHolds, r)
    {
      TotalCovers(s.calls, CallHolds, r, i);
      if k.Quiescing? || InSection(k) {
        QuiesceMoves(s.tracked, s.held, k, ok, r);
      } else if k.Unquiescing? || k.Releasing? {
        ListMoves(s.tracked, s.held, k, ok, r);
      } else if k.Draining? {
        DrainMoves(s.tracked, s.held, k, ok, r);
      } else if k.Removed? {
        ResumeMoves(s.tracked, s.held, k, ok, r);
      } else {
        DropMoves(s.tracked, s.held, k, ok, r);
      }
      TotalUpdate(s.calls, CallHolds, r, i, n.calls[i]);
    }
  }

  lemma BeginConserves(s: State, e: Event)
    requires Conserved(s) && Enabled(s, e) && !e.Run?
    ensures Conserved(Step(s, e))
  {
    hide Total; hide EntryHolds;
    var n := Step(s, e);
    if !e.Open? {
      forall r
        ensures n.held[r] == Total(n.tracked, EntryHolds, r) + Total(n.calls, CallHolds, r)
      {
        TotalUpdate(s.calls, CallHolds, r, e.i, n.calls[e.i]);
      }
    }
  }

  lemma {:induction false} RestUnique(es: seq<Entry>, p: Entry -> bool)
    requires NoDuplicates(es)
    ensures NoDuplicates(Rest(es, p))
  {
    if es != [] {
      var rest := Rest(es[1..], p);
      RestUnique(es[1..], p);
      forall j | 0 <= j < |rest|
        ensures !SameKey(es[0], rest[j])
      {
        RestKeeps(es[1..], p, j);
      }
    }
  }

  lemma RunKeepsUnique(tracked: seq<Entry>, k: Call)
    requires NoDuplicates(tracked) && (InSection(k) ==> !Contains(tracked, Like(k.e)))
    ensures NoDuplicates(NextTracked(tracked, k))
  {
    hide Rest;
    if InSection(k) {
      assert forall j :: 0 <= j < |tracked| ==> !Like(k.e)(tracked[j]);
    } else if k.Releasing? {
      RestUnique(tracked, OwnedBy(k.owner));
    }
  }

  /** What the section needs of one call, given the list. */
  predicate SectionCall(tracked: seq<Entry>, k: Call) {
    && (InSection(k) ==> !Contains(tracked, Like(k.e)))
    && (k.Stopped? ==> k.e.mode == Hctx)
  }

  /** A step changes the list, or enters the section, only with the lock taken. */
  lemma RunSection(s: State, i: nat, ok: bool)
    requires Enabled(s, Run(i, ok)) && SectionCall(s.tracked, s.calls[i])
    ensures var n := RunStep(s, i, ok);
            && SectionCall(n.tracked, n.calls[i])
            && (n.tracked == s.tracked || LockFree(s) || (InSection(s.calls[i]) && !InSection(n.calls[i])))
            && (InSection(n.calls[i]) ==> LockFree(s) || InSection(s.calls[i]))
  {
    hide FirstMatch; hide Taken; hide Rest; hide LockFree; hide NextHeld;
  }

  lemma RunKeepsSection(s: State, i: nat, ok: bool)
    requires SectionOk(s) && Enabled(s, Run(i, ok))
    ensures SectionOk(RunStep(s, i, ok))
  {
    hide NextCall; hide NextTracked; hide NextHeld; hide Contains;
    var n := RunStep(s, i, ok);
    RunSection(s, i, ok);
    forall j | 0 <= j < |s.calls|
      ensures SectionCall(n.tracked, n.calls[j])
    {
      assert SectionCall(s.tracked, s.calls[j]);
    }
  }

  // ---------------------------------------------------------------- file descriptors

  lemma RunOwner(tracked: seq<Entry>, k: Call, ok: bool, o: nat)
    requires Uses(NextCall(tracked, k, ok), o)
    ensures Uses(k, o) && InRelease(NextCall(tracked, k, ok)) == InRelease(k)
  {
    hide FirstMatch; hide Taken; hide Contains;
  }

  lemma RunTracked(tracked: seq<Entry>, k: Call, j: nat)
    requires j < |NextTracked(tracked, k)|
    ensures var e := NextTracked(tracked, k)[j];
            (e in tracked && k != Releasing(e.owner)) || (Uses(k, e.owner) && !InRelease(k))
  {
    hide FirstMatch; hide Rest;
    if k.Releasing? { RestKeeps(tracked, OwnedBy(k.owner), j); }
  }

  lemma RunKeepsFds(s: State, i: nat, ok: bool)
    requires FdsOk(s) && i < |s.calls|
    ensures FdsOk(RunStep(s, i, ok))
  {
    hide NextCall; hide NextTracked; hide NextHeld; hide Uses;
    var n := RunStep(s, i, ok);
    forall o | Uses(n.calls[i], o)
      ensures Uses(s.calls[i], o) && InRelease(n.calls[i]) == InRelease(s.calls[i])
    {
      RunOwner(s.tracked, s.calls[i], ok, o);
    }
    forall j, k, o | 0 <= j < |n.calls| && 0 <= k < |n.calls| && Shares(n, j, k, o)
      ensures !InRelease(n.calls[j])
    {
      assert Shares(s, j, k, o);
    }
    forall j | 0 <= j < |n.tracked|
      ensures OwnerLive(n, n.tracked[j].owner)
    {
      RunTracked(s.tracked, s.calls[i], j);
      var o := n.tracked[j].owner;
      if o !in s.open {
        assert OwnerLive(s, o);
        var k :| 0 <= k < |s.calls| && s.calls[k] == Releasing(o);
        assert n.calls[k] == Releasing(o);
      }
    }
  }

  lemma BeginKeepsFds(s: State, e: Event)
    requires FdsOk(s) && Enabled(s, e) && !e.Run?
    ensures FdsOk(Step(s, e))
  {
    var n := Step(s, e);
    forall j, k, o | 0 <= j < |n.calls| && 0 <= k < |n.calls| && Shares(n, j, k, o)
      ensures !InRelease(n.calls[j])
    {
      if !e.Open? && (j == e.i || k == e.i) {
      } else {
        assert Shares(s, j, k, o);
      }
    }
    forall j | 0 <= j < |n.tracked|
      ensures OwnerLive(n, n.tracked[j].owner)
    {
      var o := n.tracked[j].owner;
      assert OwnerLive(s, o);
      if o in s.open {
        if o !in n.open { assert n.calls[e.i] == Releasing(o); }
      } else {
        var k :| 0 <= k < |s.calls| && s.calls[k] == Releasing(o);
        assert n.calls[k] == Releasing(o);
      }
    }
  }

  lemma StepPreserves(s: State, e: Event)
    requires Inv(s) && Enabled(s, e)
    ensures Inv(Step(s, e))
  {
    hide Conserved; hide FdsOk; hide NoDuplicates;
    if e.Run? {
      hide NextCall; hide NextTracked; hide NextHeld;
      RunConserves(s, e.i, e.ok);
      RunKeepsUnique(s.tracked, s.calls[e.i]);
      RunKeepsSection(s, e.i, e.ok);
      RunKeepsFds(s, e.i, e.ok);
    } else {
      BeginConserves(s, e);
      BeginKeepsFds(s, e);
    }
  }

  lemma InitHolds(s: State)
    requires Init(s)
    ensures Inv(s)
  {
    forall r
      ensures Total(s.calls, CallHolds, r) == 0
    {
      TotalNone(s.calls, CallHolds, r);
    }
  }

  // ---------------------------------------------------------------- runs

  ghost predicate IsRun(ss: seq<State>, es: seq<Event>) {
    && |ss| == |es| + 1 && Init(ss[0])
    && forall i :: 0 <= i < |es| ==> Enabled(ss[i], es[i]) && ss[i + 1] == Step(ss[i], es[i])
  }

  lemma {:induction false} RunKeepsInv(ss: seq<State>, es: seq<Event>, i: nat)
    requires IsRun(ss, es) && i < |ss|
    ensures Inv(ss[i])
  {
    hide Inv; hide Step; hide Enabled; hide Init;
    if i == 0 {
      InitHolds(ss[0]);
    } else {
      RunKeepsInv(ss, es, i - 1);
      StepPreserves(ss[i - 1], es[i - 1]);
    }
  }

  /** The number of FULL entries on a queue. */
  function FullOn(es: seq<Entry>, q: nat): nat {
    if es == [] then 0 else One(es[0].mode == Full && es[0].bd.queue == q) + FullOn(es[1..], q)
  }

  /** Levels of depth a call accounts for: its own raise, or removals not yet unquiesced. */
  function Unsettled(k: Call, q: nat): nat {
    match k
    case Raised(e) => One(e.bd.queue == q)
    case Removed(_, _, e) => One(e.mode == Full && e.bd.queue == q)
    case Draining(_, es, resumed) => if resumed && es != [] then FullOn(es[1..], q) else FullOn(es, q)
    case _ => 0
  }

  function UnsettledIn(ks: seq<Call>, q: nat): nat {
    if ks == [] then 0 else Unsettled(ks[0], q) + UnsettledIn(ks[1..], q)
  }

  lemma {:induction false} EntriesDepth(es: seq<Entry>, q: nat)
    ensures Total(es, EntryHolds, Depth(q)) == FullOn(es, q)
  {
    if es != [] { EntriesDepth(es[1..], q); }
  }

  lemma {:induction false} CallsDepth(ks: seq<Call>, q: nat)
    ensures Total(ks, CallHolds, Depth(q)) == UnsettledIn(ks, q)
  {
    if ks != [] {
      CallsDepth(ks[1..], q);
      if ks[0].Draining? {
        EntriesDepth(ks[0].es, q);
        if ks[0].es != [] { EntriesDepth(ks[0].es[1..], q); }
      }
    }
  }

  /**
   Along every interleaving, a queue's quiesce depth is its tracked FULL entries plus the
   raises and removals still in flight, and no (owner, device, mode, hctx) is tracked twice.
   */
  lemma DepthAccounted(ss: seq<State>, es: seq<Event>, i: nat, q: nat)
    requires IsRun(ss, es) && i < |ss|
    ensures ss[i].held[Depth(q)] == FullOn(ss[i].tracked, q) + UnsettledIn(ss[i].calls, q)
    ensures NoDuplicates(ss[i].tracked)
  {
    hide IsRun;
    RunKeepsInv(ss, es, i);
    EntriesDepth(ss[i].tracked, q);
    CallsDepth(ss[i].calls, q);
  }

  /** Every tracked entry has its own reference to its file: n entries hold n references. */
  lemma EntriesPinFiles(ss: seq<State>, es: seq<Event>, i: nat, f: nat)
    requires IsRun(ss, es) && i < |ss|
    ensures ss[i].held[Pin(f)] == PinnedBy(ss[i].tracked, f) + Total(ss[i].calls, CallHolds, Pin(f))
  {
    hide IsRun;
    RunKeepsInv(ss, es, i);
    PinsCounted(ss[i].tracked, f);
  }

  function PinnedBy(es: seq<Entry>, f: nat): nat {
    if es == [] then 0 else One(es[0].file == f) + PinnedBy(es[1..], f)
  }

  lemma {:induction false} PinsCounted(es: seq<Entry>, f: nat)
    ensures Total(es, EntryHolds, Pin(f)) == PinnedBy(es, f)
  {
    if es != [] { PinsCounted(es[1..], f); }
  }

  /** What the next step of a call gives back: levels of depth it lowers, references it drops. */
  function Drops(k: Call): multiset<Resource> {
    match k
    case Raised(e) => if e.mode == Full then multiset{} else multiset{Depth(e.bd.queue)}
    case Removed(_, _, e) => if e.mode == Full then multiset{Depth(e.bd.queue)} else multiset{}
    case Resumed(_, _, e) => multiset{Pin(e.file)}
    case Dropping(_, f) => multiset{Pin(f)}
    case Draining(_, es, resumed) =>
      if es == [] then multiset{}
      else if resumed then multiset{Pin(es[0].file)}
      else if es[0].mode == Full then multiset{Depth(es[0].bd.queue)}
      else multiset{}
    case _ => multiset{}
  }

  /** A call gives back only what it holds. */
  lemma DropsOwn(k: Call, r: Resource)
    ensures Drops(k)[r] <= CallHolds(k, r)
  {
    if k.Draining? && k.es != [] {
      assert Total(k.es, EntryHolds, r) == EntryHolds(k.es[0], r) + Total(k.es[1..], EntryHolds, r);
    }
  }

  /** No step takes a depth or a reference count below zero: what it gives back is there. */
  lemma NeverBelowZero(ss: seq<State>, es: seq<Event>, i: nat)
    requires IsRun(ss, es) && i < |es| && es[i].Run?
    ensures Drops(ss[i].calls[es[i].i]) <= ss[i].held
    ensures ss[i + 1].held + Drops(ss[i].calls[es[i].i]) >= ss[i].held
  {
    hide CallHolds; hide EntryHolds;
    RunKeepsInv(ss, es, i);
    var k := ss[i].calls[es[i].i];
    forall r
      ensures Drops(k)[r] <= ss[i].held[r]
    {
      TotalCovers(ss[i].calls, CallHolds, r, es[i].i);
      DropsOwn(k, r);
    }
    StepDrops(ss[i].held, k);
  }

  lemma StepDrops(held: multiset<Resource>, k: Call)
    ensures NextHeld(held, k) + Drops(k) >= held
  {
    forall r
      ensures (NextHeld(held, k) + Drops(k))[r] >= held[r]
    {
      StepDropsOf(held, k, r);
    }
  }

  lemma StepDropsOf(held: multiset<Resource>, k: Call, r: Resource)
    ensures NextHeld(held, k)[r] + Drops(k)[r] >= held[r]
  {
  }

  lemma SomeOwner(s: State)
    requires FdsOk(s)
    ensures s.tracked == [] || exists o :: OwnerLive(s, o)
  {
    if s.tracked != [] { assert OwnerLive(s, s.tracked[0].owner); }
  }

  /** A closed file owns nothing, and once every file is closed nothing is held at all. */
  lemma NothingLeftBehind(ss: seq<State>, es: seq<Event>, i: nat)
    requires IsRun(ss, es) && i < |ss|
    ensures forall o, j :: o !in ss[i].open && Unused(ss[i], o) && 0 <= j < |ss[i].tracked| ==>
              ss[i].tracked[j].owner != o
    ensures ss[i].open == {} && (forall k :: 0 <= k < |ss[i].calls| ==> ss[i].calls[k] == Idle) ==>
              ss[i].tracked == [] && ss[i].held == multiset{}
  {
    var s := ss[i];
    RunKeepsInv(ss, es, i);
    forall o, j | o !in s.open && Unused(s, o) && 0 <= j < |s.tracked|
      ensures s.tracked[j].owner != o
    {
      assert OwnerLive(s, s.tracked[j].owner);
    }
    SomeOwner(s);
    if s.open == {} && forall k :: 0 <= k < |s.calls| ==> s.calls[k] == Idle {
      assert forall o :: !OwnerLive(s, o);
      forall r
        ensures s.held[r] == 0
      {
        TotalNone(s.calls, CallHolds, r);
      }
    }
  }

  // ---------------------------------------------------------------- which entries match

  /** No owner has the same device, mode and, for a single hardware context, context tracked twice. */
  lemma TrackedOnce(ss: seq<State>, es: seq<Event>, i: nat, j: nat, k: nat)
    requires IsRun(ss, es) && i < |ss| && j < k < |ss[i].tracked|
    ensures var x, y := ss[i].tracked[j], ss[i].tracked[k];
            !(x.owner == y.owner && x.bd == y.bd && x.mode == y.mode && (x.mode == Hctx ==> x.hctx == y.hctx))
  {
    hide IsRun; hide Conserved; hide FdsOk; hide SectionOk;
    RunKeepsInv(ss, es, i);
  }

  /**
   QUIESCE_NS enters its critical section exactly when its checks pass and its owner has no
   tracked entry for the same device, mode and, in HCTX mode, context; otherwise it gives up.
   */
  lemma QuiesceEnters(s: State, i: nat, ok: bool)
    requires Enabled(s, Run(i, ok)) && s.calls[i].Quiescing?
    ensures var n, e := Step(s, Run(i, ok)), s.calls[i].e;
            && (n.calls[i] == Checked(e) <==> ok && !Holds(s.tracked, e))
            && (n.calls[i] != Checked(e) ==> n.calls[i] == Dropping(e.owner, e.file))
            && n.tracked == s.tracked && n.held == s.held
  {
    TrackedIff(s.tracked, s.calls[i].e);
  }

  /**
   UNQUIESCE_NS takes an entry off the list exactly when its owner has one tracked for the same
   device, mode and, in HCTX mode, context; it takes such a one, and leaves all others in
   their order.
   */
  lemma UnquiesceRemoves(s: State, i: nat, ok: bool)
    requires Enabled(s, Run(i, ok)) && s.calls[i].Unquiescing?
    ensures var n, e := Step(s, Run(i, ok)), s.calls[i].e;
            && (n.calls[i].Removed? <==> Holds(s.tracked, e))
            && (n.calls[i].Removed? ==>
                exists j :: 0 <= j < |s.tracked| && s.tracked[j].owner == e.owner && s.tracked[j].bd == e.bd &&
                            s.tracked[j].mode == e.mode && (e.mode == Hctx ==> s.tracked[j].hctx == e.hctx) &&
                            n.tracked == s.tracked[..j] + s.tracked[j + 1..] &&
                            n.calls[i] == Removed(e.owner, e.file, s.tracked[j]))
            && (!n.calls[i].Removed? ==> n.tracked == s.tracked && n.calls[i] == Dropping(e.owner, e.file))
  {
    TrackedIff(s.tracked, s.calls[i].e);
    hide FirstMatch;
    var m := FirstMatch(s.tracked, Like(s.calls[i].e));
    assert m < |s.tracked| ==> Like(s.calls[i].e)(s.tracked[m]);
  }

  /** Call i has been busy with the QUIESCE_NS for e since event k. */
  ghost predicate Busy(ss: seq<State>, es: seq<Event>, k: nat, n: nat, i: nat, e: Entry) {
    && k < n < |ss| == |es| + 1 && es[k] == Quiesce(i, e)
    && forall m :: k < m < n ==> i < |ss[m].calls| && ss[m].calls[i] != Idle
  }

  /** A check or an allocation of call i before the lock failed. */
  ghost predicate Refused(ss: seq<State>, es: seq<Event>, k: nat, n: nat, i: nat) {
    exists m :: k < m < n < |ss| && m < |es| && i < |ss[m].calls| && ss[m].calls[i].Quiescing? && es[m] == Run(i, false)
  }

  ghost predicate HeldIn(ss: seq<State>, k: nat, n: nat, e: Entry) {
    exists m :: k < m <= n < |ss| && Holds(ss[m].tracked, e)
  }

  /** What call i, busy with e, has done or has still to do. */
  ghost predicate OnTheWay(ss: seq<State>, es: seq<Event>, k: nat, n: nat, i: nat, e: Entry)
    requires n < |ss| && i < |ss[n].calls|
  {
    match ss[n].calls[i]
    case Quiescing(x) => x == e
    case Checked(x) => x == e
    case Raised(x) => x == e
    case Stopped(x) => x == e
    case Dropping(_, _) => HeldIn(ss, k, n, e) || Refused(ss, es, k, n, i)
    case Idle => HeldIn(ss, k, n, e) || Refused(ss, es, k, n, i)
    case _ => false
  }

  lemma CallStays(s: State, e: Event, i: nat)
    requires Enabled(s, e) && i < |s.calls| && s.calls[i] != Idle
    ensures |Step(s, e).calls| == |s.calls|
    ensures !(e.Run? && e.i == i) ==> Step(s, e).calls[i] == s.calls[i]
  {
    hide NextCall; hide NextTracked; hide NextHeld;
  }

  lemma InSectionNext(s: State, i: nat, ok: bool)
    requires Enabled(s, Run(i, ok)) && InSection(s.calls[i])
    ensures var n, k := Step(s, Run(i, ok)), s.calls[i];
            if n.calls[i] == Idle then n.tracked == [k.e] + s.tracked else InSection(n.calls[i]) && n.calls[i].e == k.e
  {
  }

  lemma OnTheWayNext(ss: seq<State>, es: seq<Event>, k: nat, n: nat, i: nat, e: Entry)
    requires IsRun(ss, es) && k < n < |es| && i < |ss[n].calls| && ss[n].calls[i] != Idle
    requires OnTheWay(ss, es, k, n, i, e)
    ensures i < |ss[n + 1].calls| && OnTheWay(ss, es, k, n + 1, i, e)
  {
    hide Step; hide Enabled; hide Holds;
    var s, v := ss[n], es[n];
    CallStays(s, v, i);
    if HeldIn(ss, k, n, e) {
      var m :| k < m <= n && Holds(ss[m].tracked, e);
      assert HeldIn(ss, k, n + 1, e);
    }
    if Refused(ss, es, k, n, i) {
      var m :| k < m < n && i < |ss[m].calls| && ss[m].calls[i].Quiescing? && es[m] == Run(i, false);
      assert Refused(ss, es, k, n + 1, i);
    }
    if v.Run? && v.i == i {
      if s.calls[i].Quiescing? {
        QuiesceEnters(s, i, v.ok);
        if v.ok && ss[n + 1].calls[i] != Checked(e) {
          assert HeldIn(ss, k, n + 1, e);
        }
      } else if InSection(s.calls[i]) {
        InSectionNext(s, i, v.ok);
        if ss[n + 1].calls[i] == Idle {
          HoldsFirst(ss[n + 1].tracked, e);
        }
      } else {
        DropEnds(s, i, v.ok);
      }
    }
  }

  lemma HoldsFirst(tracked: seq<Entry>, e: Entry)
    requires tracked != [] && tracked[0] == e
    ensures Holds(tracked, e)
  {
  }

  lemma DropEnds(s: State, i: nat, ok: bool)
    requires Enabled(s, Run(i, ok)) && s.calls[i].Dropping?
    ensures Step(s, Run(i, ok)).calls[i] == Idle
  {
  }

  lemma {:induction false} BusyOnTheWay(ss: seq<State>, es: seq<Event>, k: nat, n: nat, i: nat, e: Entry)
    requires IsRun(ss, es) && Busy(ss, es, k, n, i, e)
    ensures i < |ss[n].calls| && OnTheWay(ss, es, k, n, i, e)
    decreases n
  {
    hide Step; hide OnTheWay;
    if n == k + 1 {
      assert Enabled(ss[k], es[k]);
      QuiesceStarts(ss[k], i, e);
      assert OnTheWay(ss, es, k, n, i, e) by { StartedOnTheWay(ss, es, k, n, i, e); }
    } else {
      hide Enabled;
      BusyOnTheWay(ss, es, k, n - 1, i, e);
      OnTheWayNext(ss, es, k, n - 1, i, e);
    }
  }

  lemma QuiesceStarts(s: State, i: nat, e: Entry)
    requires Enabled(s, Quiesce(i, e))
    ensures i < |Step(s, Quiesce(i, e)).calls| && Step(s, Quiesce(i, e)).calls[i] == Quiescing(e)
  {
  }

  lemma StartedOnTheWay(ss: seq<State>, es: seq<Event>, k: nat, n: nat, i: nat, e: Entry)
    requires n < |ss| && i < |ss[n].calls| && ss[n].calls[i] == Quiescing(e)
    ensures OnTheWay(ss, es, k, n, i, e)
  {
  }

  /**
   A QUIESCE_NS that has completed, and was not refused before the lock, has seen its owner,
   device and mode, and its context in HCTX mode, tracked.
   */
  lemma QuiesceTracks(ss: seq<State>, es: seq<Event>, k: nat, n: nat, i: nat, e: Entry)
    requires IsRun(ss, es) && Busy(ss, es, k, n, i, e) && i < |ss[n].calls| && ss[n].calls[i] == Idle
    ensures HeldIn(ss, k, n, e) || Refused(ss, es, k, n, i)
  {
    hide Step; hide Enabled; hide HeldIn; hide Refused;
    BusyOnTheWay(ss, es, k, n, i, e);
  }

  // ---------------------------------------------------------------- progress

  /** The files opened and not released since. */
  function Opened(es: seq<Event>): set<nat> {
    if es == [] then {}
    else
      var e := es[|es| - 1];
      var before := Opened(es[..|es| - 1]);
      if e.Open? then before + {e.owner} else if e.Release? then before - {e.owner} else before
  }

  lemma {:induction false} OpenFiles(ss: seq<State>, es: seq<Event>, i: nat)
    requires IsRun(ss, es) && i < |ss|
    ensures ss[i].open == Opened(es[..i])
  {
    hide NextCall; hide NextTracked; hide NextHeld;
    if i > 0 {
      OpenFiles(ss, es, i - 1);
      assert es[..i][..i - 1] == es[..i - 1];
    }
  }

  /** Steps a call has left. */
  function StepsLeft(tracked: seq<Entry>, k: Call): nat {
    match k
    case Idle => 0
    case Quiescing(_) => 4
    case Checked(_) => 3
    case Raised(_) => 2
    case Stopped(_) => 1
    case Unquiescing(_) => 4
    case Removed(_, _, _) => 3
    case Resumed(_, _, _) => 2
    case Dropping(_, _) => 1
    case Releasing(o) => 2 * |Taken(tracked, OwnedBy(o))| + 2
    case Draining(_, es, resumed) => 2 * |es| + if resumed && es != [] then 0 else 1
  }

  /** A call that needs quiesced_ns_lock for its next step. */
  predicate NeedsLock(k: Call) { k.Quiescing? || k.Unquiescing? || k.Releasing? }

  /**
   No call is stuck: a call under way can take its next step, or waits for the lock and the
   call that holds it can; and every step brings a call nearer to its end.
   */
  lemma CallsEnd(s: State, i: nat, ok: bool)
    requires i < |s.calls| && s.calls[i] != Idle
    ensures !NeedsLock(s.calls[i]) || LockFree(s) ==> Enabled(s, Run(i, ok))
    ensures NeedsLock(s.calls[i]) && !LockFree(s) ==>
              exists j :: 0 <= j < |s.calls| && InSection(s.calls[j]) && Enabled(s, Run(j, ok))
    ensures Enabled(s, Run(i, ok)) ==>
              var n := Step(s, Run(i, ok)); StepsLeft(n.tracked, n.calls[i]) < StepsLeft(s.tracked, s.calls[i])
  {
    hide NextCall; hide NextTracked; hide NextHeld; hide StepsLeft;
    StepNearer(s.tracked, s.calls[i], ok);
    if !LockFree(s) {
      var j :| 0 <= j < |s.calls| && InSection(s.calls[j]);
      assert Enabled(s, Run(j, ok));
    }
  }

  lemma StepNearer(tracked: seq<Entry>, k: Call, ok: bool)
    requires k != Idle
    ensures StepsLeft(NextTracked(tracked, k), NextCall(tracked, k, ok)) < StepsLeft(tracked, k)
  {
    hide Taken; hide Rest; hide FirstMatch;
  }
}
