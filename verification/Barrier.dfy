/**
 The cross-GPU barrier: how setupIpcHandles wires the signal pointer tables through
 PeerIndexing, and the store-and-poll protocol of crossGpuBarrier over them, for any number
 of ranks and blocks. Each store and each load is one step; a pointer into a peer's signal
 buffer is an address (rank, slot).
 */
module Barrier {
  import opened Modular

  datatype Config = Config(ranks: nat, blocks: nat)

  function Peers(c: Config): nat { if c.ranks == 0 then 0 else c.ranks - 1 }

  /** Thread x of block b on rank r: it serves one peer. */
  datatype Lane = Lane(r: nat, b: nat, x: nat)

  /** A signal slot in the buffer of a rank. */
  datatype Address = Address(rank: nat, slot: nat)

  predicate IsLane(c: Config, l: Lane) { l.r < c.ranks && l.b < c.blocks && l.x < Peers(c) }

  // ---------------------------------------------------------------- PeerIndexing

  function PeerToLocalIndex(myrank: nat, peer: nat): nat
    requires peer != myrank
  {
    if peer < myrank then peer else peer - 1
  }

  function MyIndexOnPeer(myrank: nat, peer: nat): nat
    requires peer != myrank
  {
    if myrank < peer then myrank else myrank - 1
  }

  function SignalSlot(block: nat, peerLocalIdx: nat, nPeer: nat): nat {
    block * nPeer + peerLocalIdx
  }

  /** The peer a local index stands for. */
  function PeerAt(myrank: nat, x: nat): (peer: nat)
    ensures peer != myrank && PeerToLocalIndex(myrank, peer) == x
  {
    if x < myrank then x else x + 1
  }

  /** The slot a lane polls, and the slot of the peer it stores to. */
  function Polled(c: Config, l: Lane): Address {
    Address(l.r, SignalSlot(l.b, l.x, Peers(c)))
  }

  function Target(c: Config, l: Lane): Address {
    var peer := PeerAt(l.r, l.x);
    Address(peer, SignalSlot(l.b, MyIndexOnPeer(l.r, peer), Peers(c)))
  }

  /** The lane of the peer that serves this rank, in the same block. */
  function Partner(l: Lane): Lane {
    var peer := PeerAt(l.r, l.x);
    Lane(peer, l.b, MyIndexOnPeer(l.r, peer))
  }

  lemma SlotInjective(c: Config, l: Lane, m: Lane)
    requires IsLane(c, l) && IsLane(c, m) && Polled(c, l) == Polled(c, m)
    ensures l == m
  {
    Unique(Peers(c), l.b, l.x, m.b, m.x);
  }

  lemma SlotBound(c: Config, b: nat, x: nat)
    requires b < c.blocks && x < Peers(c)
    ensures SignalSlot(b, x, Peers(c)) < c.blocks * Peers(c)
  {
    var n := Peers(c);
    assert (c.blocks - b) * n >= n by { MulAtLeast(c.blocks - b, n); }
    assert c.blocks * n == b * n + (c.blocks - b) * n;
  }

  /**
   The wiring pairs lanes up: a lane stores exactly where its partner polls, the partner
   is the same block on another rank, and the partner of the partner is the lane itself.
   */
  lemma WiringPairs(c: Config, l: Lane)
    requires IsLane(c, l)
    ensures IsLane(c, Partner(l)) && Partner(l).r != l.r && Partner(l).b == l.b
    ensures Target(c, l) == Polled(c, Partner(l))
    ensures Partner(Partner(l)) == l
  {
  }

  /** Every slot has exactly one remote writer: the partner of the lane that polls it. */
  lemma OneWriter(c: Config, l: Lane, w: Lane)
    requires IsLane(c, l) && IsLane(c, w)
    ensures Target(c, w) == Polled(c, l) <==> w == Partner(l)
  {
    WiringPairs(c, l);
    WiringPairs(c, w);
    if Target(c, w) == Polled(c, l) {
      SlotInjective(c, Partner(w), l);
    }
  }

  /** Each peer of a rank is served by exactly one lane of each block. */
  lemma LaneOfPeer(c: Config, r: nat, peer: nat, b: nat)
    requires r < c.ranks && peer < c.ranks && r != peer && b < c.blocks
    ensures IsLane(c, Lane(r, b, PeerToLocalIndex(r, peer)))
    ensures Partner(Lane(r, b, PeerToLocalIndex(r, peer))).r == peer
  {
  }

  /** The entry of a rank's pointer table for a lane is the slot its partner polls. */
  predicate Wired(c: Config, table: seq<Address>, l: Lane) {
    var slot := SignalSlot(l.b, l.x, Peers(c));
    slot < |table| && table[slot] == Target(c, l)
  }

  /** The inner loop of the pointer wiring: the entries for one peer, one per block. */
  method WirePeer(c: Config, rank: nat, peer: nat, ptrs: array<Address>)
    requires rank < c.ranks && peer < c.ranks && peer != rank && ptrs.Length == c.blocks * Peers(c)
    modifies ptrs
    ensures forall l :: IsLane(c, l) && l.r == rank && PeerAt(rank, l.x) == peer ==> Wired(c, ptrs[..], l)
    ensures forall l :: IsLane(c, l) && l.r == rank && Wired(c, old(ptrs[..]), l) ==> Wired(c, ptrs[..], l)
  {
    var nPeer, peerIdx, myIdx := Peers(c), PeerToLocalIndex(rank, peer), MyIndexOnPeer(rank, peer);
    var b := 0;
    while b < c.blocks
      invariant b <= c.blocks
      invariant forall l :: IsLane(c, l) && l.r == rank && PeerAt(rank, l.x) == peer && l.b < b ==>
                  Wired(c, ptrs[..], l)
      invariant forall l :: IsLane(c, l) && l.r == rank && Wired(c, old(ptrs[..]), l) ==> Wired(c, ptrs[..], l)
    {
      SlotBound(c, b, peerIdx);
      ghost var before := ptrs[..];
      ptrs[SignalSlot(b, peerIdx, nPeer)] := Address(peer, SignalSlot(b, myIdx, nPeer));
      WriteWires(c, before, Lane(rank, b, peerIdx));
      assert ptrs[..] == before[SignalSlot(b, peerIdx, nPeer) := Target(c, Lane(rank, b, peerIdx))];
      b := b + 1;
    }
  }

  lemma WriteWires(c: Config, table: seq<Address>, here: Lane)
    requires IsLane(c, here) && SignalSlot(here.b, here.x, Peers(c)) < |table|
    ensures var after := table[SignalSlot(here.b, here.x, Peers(c)) := Target(c, here)];
            && Wired(c, after, here)
            && forall l :: IsLane(c, l) && l.r == here.r && Wired(c, table, l) ==> Wired(c, after, l)
  {
    var after := table[SignalSlot(here.b, here.x, Peers(c)) := Target(c, here)];
    forall l | IsLane(c, l) && l.r == here.r && Wired(c, table, l)
      ensures Wired(c, after, l)
    {
      if SignalSlot(l.b, l.x, Peers(c)) == SignalSlot(here.b, here.x, Peers(c)) { SlotInjective(c, l, here); }
    }
  }

  /** The pointer-table loop of setupIpcHandles. */
  method WireSignals(c: Config, rank: nat) returns (ptrs: array<Address>)
    requires rank < c.ranks
    ensures ptrs.Length == c.blocks * Peers(c)
    ensures forall l :: IsLane(c, l) && l.r == rank ==> Wired(c, ptrs[..], l)
  {
    ptrs := new Address[c.blocks * Peers(c)](_ => Address(0, 0));
    var peer := 0;
    while peer < c.ranks
      invariant peer <= c.ranks && fresh(ptrs)
      invariant forall l :: IsLane(c, l) && l.r == rank && PeerAt(rank, l.x) < peer ==> Wired(c, ptrs[..], l)
    {
      if peer != rank {
        WirePeer(c, rank, peer, ptrs);
      }
      peer := peer + 1;
    }
  }

  // ---------------------------------------------------------------- the protocol

  datatype Phase = Out | Storing | Polling | Done

  /** A block of a rank. */
  datatype Group = Group(r: nat, b: nat)

  predicate IsGroup(c: Config, g: Group) { g.r < c.ranks && g.b < c.blocks }

  function Of(l: Lane): Group { Group(l.r, l.b) }

  /** Signal slots, lane phases, and how many barriers each block has entered and left. */
  datatype State = State(signal: map<Address, nat>, phase: map<Lane, Phase>,
                         entered: map<Group, nat>, left: map<Group, nat>)

  ghost predicate Typed(c: Config, s: State) {
    && (forall l :: IsLane(c, l) ==> l in s.phase && Polled(c, l) in s.signal)
    && (forall g :: IsGroup(c, g) ==> g in s.entered && g in s.left)
  }

  ghost predicate Init(c: Config, s: State) {
    && Typed(c, s)
    && (forall l :: IsLane(c, l) ==> s.phase[l] == Out && s.signal[Polled(c, l)] == 0)
    && (forall g :: IsGroup(c, g) ==> s.entered[g] == 0 && s.left[g] == 0)
  }

  datatype Event = Enter(g: Group) | Store(l: Lane) | Poll(l: Lane) | Leave(g: Group)

  ghost predicate Enabled(c: Config, s: State, e: Event) {
    && Typed(c, s)
    && match e
       case Enter(g) => IsGroup(c, g) && s.entered[g] == s.left[g]
       case Store(l) => IsLane(c, l) && s.phase[l] == Storing
       case Poll(l) => IsLane(c, l) && s.phase[l] == Polling
       case Leave(g) =>
         && IsGroup(c, g) && s.entered[g] == s.left[g] + 1
         && forall l :: IsLane(c, l) && Of(l) == g ==> s.phase[l] == Done
  }

  /** Phases after all lanes of g moved to ph. */
  function AllTo(s: State, g: Group, ph: Phase): map<Lane, Phase> {
    map l | l in s.phase :: if Of(l) == g then ph else s.phase[l]
  }

  /** The epoch passed as expectedSignal grows by one per call: it is the entry count. */
  ghost function Step(c: Config, s: State, e: Event): State
    requires Enabled(c, s, e)
  {
    match e
    case Enter(g) => s.(entered := s.entered[g := s.entered[g] + 1], phase := AllTo(s, g, Storing))
    case Store(l) => s.(signal := s.signal[Target(c, l) := s.entered[Of(l)]], phase := s.phase[l := Polling])
    case Poll(l) =>
      if s.signal[Polled(c, l)] < s.entered[Of(l)] then s else s.(phase := s.phase[l := Done])
    case Leave(g) => s.(left := s.left[g := s.left[g] + 1], phase := AllTo(s, g, Out))
  }

  /** The epoch a lane stored last. */
  ghost function LastStored(c: Config, s: State, l: Lane): int
    requires Typed(c, s) && IsLane(c, l)
  {
    if s.phase[l] == Storing then (s.entered[Of(l)] as int) - 1 else s.entered[Of(l)] as int
  }

  ghost predicate LaneOk(c: Config, s: State, l: Lane)
    requires Typed(c, s) && IsLane(c, l)
  {
    && IsLane(c, Partner(l))
    && (s.phase[l] == Out <==> s.entered[Of(l)] == s.left[Of(l)])
    && s.signal[Polled(c, l)] == LastStored(c, s, Partner(l))
    && (s.phase[l] == Done ==> s.entered[Of(l)] <= LastStored(c, s, Partner(l)))
  }

  ghost predicate Inv(c: Config, s: State) {
    && Typed(c, s)
    && (forall g :: IsGroup(c, g) ==> s.left[g] <= s.entered[g] <= s.left[g] + 1)
    && (forall l {:trigger LaneOk(c, s, l)} :: IsLane(c, l) ==> LaneOk(c, s, l))
    && (forall g, h :: IsGroup(c, g) && IsGroup(c, h) && g.b == h.b ==> s.left[g] <= s.entered[h])
  }

  lemma InitHolds(c: Config, s: State)
    requires Init(c, s)
    ensures Inv(c, s)
  {
    forall l | IsLane(c, l)
      ensures LaneOk(c, s, l)
    {
      WiringPairs(c, l);
    }
  }

  lemma EnterPreserves(c: Config, s: State, g: Group)
    requires Inv(c, s) && Enabled(c, s, Enter(g))
    ensures Inv(c, Step(c, s, Enter(g)))
  {
    hide Partner; hide Polled; hide Target;
    var n := Step(c, s, Enter(g));
    forall l | IsLane(c, l)
      ensures LaneOk(c, n, l)
    {
      var p := Partner(l);
      WiringPairs(c, l);
      assert LaneOk(c, s, l) && LaneOk(c, s, p);
    }
  }

  lemma StorePreserves(c: Config, s: State, l: Lane)
    requires Inv(c, s) && Enabled(c, s, Store(l))
    ensures Inv(c, Step(c, s, Store(l)))
  {
    hide Partner; hide Polled; hide Target;
    var n := Step(c, s, Store(l));
    WiringPairs(c, l);
    forall m | IsLane(c, m)
      ensures Polled(c, m) in n.signal && LaneOk(c, n, m)
    {
      WiringPairs(c, m);
      OneWriter(c, m, l);
      assert LaneOk(c, s, m) && LaneOk(c, s, Partner(m));
    }
  }

  lemma PollPreserves(c: Config, s: State, l: Lane)
    requires Inv(c, s) && Enabled(c, s, Poll(l))
    ensures Inv(c, Step(c, s, Poll(l)))
  {
    hide Partner; hide Polled; hide Target; hide IsLane; hide LaneOk;
    var n := Step(c, s, Poll(l));
    forall m | IsLane(c, m)
      ensures LaneOk(c, n, m)
    {
      WiringPairs(c, m);
      assert LaneOk(c, s, m);
      PolledLane(c, s, l, m);
    }
  }

  lemma PolledLane(c: Config, s: State, l: Lane, m: Lane)
    requires Enabled(c, s, Poll(l)) && Typed(c, Step(c, s, Poll(l))) && IsLane(c, m) && LaneOk(c, s, m)
    ensures LaneOk(c, Step(c, s, Poll(l)), m)
  {
    hide Partner; hide Polled; hide Target; hide IsLane;
  }

  /** A block all of whose lanes are done has been joined by every peer. */
  lemma DoneMeansJoined(c: Config, s: State, g: Group, h: Group)
    requires Inv(c, s) && IsGroup(c, g) && IsGroup(c, h) && g.b == h.b
    requires forall l :: IsLane(c, l) && Of(l) == g ==> s.phase[l] == Done
    ensures s.entered[g] <= s.entered[h]
  {
    if g != h {
      var l := Lane(g.r, g.b, PeerToLocalIndex(g.r, h.r));
      LaneOfPeer(c, g.r, h.r, g.b);
      WiringPairs(c, l);
      assert LaneOk(c, s, l);
      assert Of(Partner(l)) == h;
    }
  }

  lemma LeavePreserves(c: Config, s: State, g: Group)
    requires Inv(c, s) && Enabled(c, s, Leave(g))
    ensures Inv(c, Step(c, s, Leave(g)))
  {
    hide Partner; hide Polled; hide Target;
    var n := Step(c, s, Leave(g));
    forall l | IsLane(c, l)
      ensures LaneOk(c, n, l)
    {
      WiringPairs(c, l);
      assert LaneOk(c, s, l) && LaneOk(c, s, Partner(l));
    }
    forall h | IsGroup(c, h) && g.b == h.b
      ensures s.entered[g] <= s.entered[h]
    {
      DoneMeansJoined(c, s, g, h);
    }
  }

  lemma StepPreserves(c: Config, s: State, e: Event)
    requires Inv(c, s) && Enabled(c, s, e)
    ensures Inv(c, Step(c, s, e))
  {
    hide Inv; hide Step;
    match e
    case Enter(g) => EnterPreserves(c, s, g);
    case Store(l) => StorePreserves(c, s, l);
    case Poll(l) => PollPreserves(c, s, l);
    case Leave(g) => LeavePreserves(c, s, g);
  }

  // ---------------------------------------------------------------- runs

  ghost predicate IsRun(c: Config, ss: seq<State>, es: seq<Event>) {
    && |ss| == |es| + 1 && Init(c, ss[0])
    && forall i :: 0 <= i < |es| ==> Enabled(c, ss[i], es[i]) && ss[i + 1] == Step(c, ss[i], es[i])
  }

  lemma {:induction false} RunKeepsInv(c: Config, ss: seq<State>, es: seq<Event>, i: nat)
    requires IsRun(c, ss, es) && i < |ss|
    ensures Inv(c, ss[i])
  {
    hide Inv; hide Step; hide Enabled; hide Init;
    if i == 0 {
      InitHolds(c, ss[0]);
    } else {
      RunKeepsInv(c, ss, es, i - 1);
      StepPreserves(c, ss[i - 1], es[i - 1]);
    }
  }

  /**
   Barrier safety: whenever a block has left barrier e, the same block on every rank has
   entered it; and no two ranks are ever more than one barrier apart in a block.
   */
  lemma NoneLeavesEarly(c: Config, ss: seq<State>, es: seq<Event>, i: nat, g: Group, h: Group)
    requires IsRun(c, ss, es) && i < |ss| && IsGroup(c, g) && IsGroup(c, h) && g.b == h.b
    ensures Typed(c, ss[i])
    ensures ss[i].left[g] <= ss[i].entered[h]
    ensures ss[i].entered[g] <= ss[i].entered[h] + 1 && ss[i].entered[h] <= ss[i].entered[g] + 1
  {
    RunKeepsInv(c, ss, es, i);
  }

  /** Slots only ever grow, so an epoch once stored is never hidden by a later store. */
  lemma {:induction false} SignalsGrow(c: Config, ss: seq<State>, es: seq<Event>, i: nat, k: nat, l: Lane)
    requires IsRun(c, ss, es) && i <= k < |ss| && IsLane(c, l)
    ensures Typed(c, ss[i]) && Typed(c, ss[k])
    ensures ss[i].signal[Polled(c, l)] <= ss[k].signal[Polled(c, l)]
    decreases k
  {
    hide Step; hide Enabled; hide Init; hide LaneOk;
    RunKeepsInv(c, ss, es, i);
    RunKeepsInv(c, ss, es, k);
    if i < k {
      SignalsGrow(c, ss, es, i, k - 1, l);
      RunKeepsInv(c, ss, es, k - 1);
      StepGrowsSignal(c, ss[k - 1], es[k - 1], l);
    }
  }

  lemma StepGrowsSignal(c: Config, s: State, e: Event, l: Lane)
    requires Inv(c, s) && Enabled(c, s, e) && IsLane(c, l) && Typed(c, Step(c, s, e))
    ensures s.signal[Polled(c, l)] <= Step(c, s, e).signal[Polled(c, l)]
  {
    hide Partner; hide Polled; hide Target;
    if e.Store? {
      WiringPairs(c, l);
      OneWriter(c, l, e.l);
      assert LaneOk(c, s, l);
    }
  }

  /**
   No lost wake-up: along every run, a lane that polls is held up only by a partner that
   has not entered the barrier yet or still has its own store to do, which is enabled.
   */
  lemma HeldUpOnlyByPartner(c: Config, ss: seq<State>, es: seq<Event>, i: nat, l: Lane)
    requires IsRun(c, ss, es) && i < |ss| && IsLane(c, l) && Typed(c, ss[i]) && ss[i].phase[l] == Polling
    ensures IsLane(c, Partner(l)) && Enabled(c, ss[i], Poll(l))
    ensures Step(c, ss[i], Poll(l)).phase[l] != Done <==>
            ss[i].entered[Of(Partner(l))] < ss[i].entered[Of(l)] ||
            (ss[i].entered[Of(Partner(l))] == ss[i].entered[Of(l)] && Enabled(c, ss[i], Store(Partner(l))))
  {
    RunKeepsInv(c, ss, es, i);
    WiringPairs(c, l);
    assert LaneOk(c, ss[i], l) && LaneOk(c, ss[i], Partner(l));
  }

  // ---------------------------------------------------------------- progress

  /** A sequence of enabled events, none of them an entry, leads from s to n. */
  ghost predicate Leads(c: Config, s: State, es: seq<Event>, n: State)
    decreases |es|
  {
    if es == [] then s == n
    else !es[0].Enter? && Enabled(c, s, es[0]) && Leads(c, Step(c, s, es[0]), es[1..], n)
  }

  lemma {:induction false} Concat(c: Config, s: State, es: seq<Event>, m: State, fs: seq<Event>, n: State)
    requires Leads(c, s, es, m) && Leads(c, m, fs, n)
    ensures Leads(c, s, es + fs, n)
    decreases |es|
  {
    hide Step; hide Enabled;
    if es == [] {
      assert es + fs == fs;
    } else {
      Concat(c, Step(c, s, es[0]), es[1..], m, fs, n);
      assert (es + fs)[1..] == es[1..] + fs;
    }
  }

  /** Block b of every rank has entered barrier e, and possibly a later one. */
  ghost predicate AllIn(c: Config, s: State, b: nat, e: nat) {
    Typed(c, s) && forall g :: IsGroup(c, g) && g.b == b ==> s.entered[g] >= e
  }

  /** The blocks number b that have yet to leave barrier e, and their lanes in a phase. */
  function Behind(c: Config, s: State, b: nat, e: nat): set<Group> {
    set g | g in s.left && IsGroup(c, g) && g.b == b && s.left[g] < e
  }

  function LanesIn(c: Config, s: State, b: nat, e: nat, ph: Phase): set<Lane> {
    set l | l in s.phase && IsLane(c, l) && Of(l) in Behind(c, s, b, e) && s.phase[l] == ph
  }

  /** A block that is behind is inside barrier e. */
  lemma BehindIsInside(c: Config, s: State, g: Group, b: nat, e: nat)
    requires Inv(c, s) && AllIn(c, s, b, e) && g in Behind(c, s, b, e)
    ensures s.entered[g] == e && s.left[g] + 1 == e
  {
  }

  lemma {:induction false} CanStore(c: Config, s: State, b: nat, e: nat) returns (es: seq<Event>, n: State)
    requires Inv(c, s) && AllIn(c, s, b, e)
    ensures Leads(c, s, es, n) && Inv(c, n) && AllIn(c, n, b, e) && LanesIn(c, n, b, e, Storing) == {}
    decreases |LanesIn(c, s, b, e, Storing)|
  {
    hide Inv; hide LaneOk; hide Target;
    if LanesIn(c, s, b, e, Storing) == {} {
      es, n := [], s;
    } else {
      var l :| l in LanesIn(c, s, b, e, Storing);
      StepPreserves(c, s, Store(l));
      var m := Step(c, s, Store(l));
      InvTyped(c, m);
      assert LanesIn(c, m, b, e, Storing) == LanesIn(c, s, b, e, Storing) - {l};
      var rest: seq<Event>;
      rest, n := CanStore(c, m, b, e);
      es := [Store(l)] + rest;
      assert es[1..] == rest;
    }
  }

  lemma InvTyped(c: Config, s: State)
    requires Inv(c, s)
    ensures Typed(c, s)
  {
  }

  /**
   With every store of the blocks behind done, a poll of one of them succeeds: its partner
   has stored e, or has gone on and stored at least that.
   */
  lemma PollSucceeds(c: Config, s: State, l: Lane, b: nat, e: nat)
    requires Inv(c, s) && AllIn(c, s, b, e) && LanesIn(c, s, b, e, Storing) == {}
    requires IsLane(c, l) && Of(l) in Behind(c, s, b, e)
    ensures Typed(c, s) && s.signal[Polled(c, l)] >= s.entered[Of(l)]
  {
    WiringPairs(c, l);
    var p := Partner(l);
    BehindIsInside(c, s, Of(l), b, e);
    assert LaneOk(c, s, l) && LaneOk(c, s, p) && p !in LanesIn(c, s, b, e, Storing);
    assert IsGroup(c, Of(p)) && s.left[Of(p)] <= s.entered[Of(p)];
  }

  lemma {:induction false} CanPoll(c: Config, s: State, b: nat, e: nat) returns (es: seq<Event>, n: State)
    requires Inv(c, s) && AllIn(c, s, b, e) && LanesIn(c, s, b, e, Storing) == {}
    ensures Leads(c, s, es, n) && Inv(c, n) && AllIn(c, n, b, e)
    ensures LanesIn(c, n, b, e, Storing) == {} && LanesIn(c, n, b, e, Polling) == {}
    decreases |LanesIn(c, s, b, e, Polling)|
  {
    hide Inv; hide LaneOk; hide Polled;
    if LanesIn(c, s, b, e, Polling) == {} {
      es, n := [], s;
    } else {
      var l :| l in LanesIn(c, s, b, e, Polling);
      InvTyped(c, s);
      PollSucceeds(c, s, l, b, e);
      StepPreserves(c, s, Poll(l));
      var m := Step(c, s, Poll(l));
      assert LanesIn(c, m, b, e, Polling) == LanesIn(c, s, b, e, Polling) - {l};
      assert LanesIn(c, m, b, e, Storing) == {} by {
        forall k | k in LanesIn(c, m, b, e, Storing) ensures k in LanesIn(c, s, b, e, Storing) {}
      }
      var rest: seq<Event>;
      rest, n := CanPoll(c, m, b, e);
      es := [Poll(l)] + rest;
      assert es[1..] == rest;
    }
  }

  /** With every poll of the blocks behind done, one of them can leave. */
  lemma LeaveEnabled(c: Config, s: State, g: Group, b: nat, e: nat)
    requires Inv(c, s) && AllIn(c, s, b, e) && g in Behind(c, s, b, e)
    requires LanesIn(c, s, b, e, Storing) == {} && LanesIn(c, s, b, e, Polling) == {}
    ensures Enabled(c, s, Leave(g)) && s.left[g] + 1 == e
  {
    BehindIsInside(c, s, g, b, e);
    forall l | IsLane(c, l) && Of(l) == g
      ensures s.phase[l] == Done
    {
      assert LaneOk(c, s, l) && l !in LanesIn(c, s, b, e, Storing) && l !in LanesIn(c, s, b, e, Polling);
    }
  }

  lemma {:induction false} CanLeave(c: Config, s: State, b: nat, e: nat) returns (es: seq<Event>, n: State)
    requires Inv(c, s) && AllIn(c, s, b, e)
    requires LanesIn(c, s, b, e, Storing) == {} && LanesIn(c, s, b, e, Polling) == {}
    ensures Leads(c, s, es, n) && Inv(c, n) && AllIn(c, n, b, e) && Behind(c, n, b, e) == {}
    decreases |Behind(c, s, b, e)|
  {
    hide Inv; hide LaneOk; hide Polled;
    if Behind(c, s, b, e) == {} {
      es, n := [], s;
    } else {
      var g :| g in Behind(c, s, b, e);
      LeaveEnabled(c, s, g, b, e);
      StepPreserves(c, s, Leave(g));
      var m := Step(c, s, Leave(g));
      InvTyped(c, m);
      assert Behind(c, m, b, e) == Behind(c, s, b, e) - {g};
      LeaveQuiet(c, s, g, b, e);
      var rest: seq<Event>;
      rest, n := CanLeave(c, m, b, e);
      es := [Leave(g)] + rest;
      assert es[1..] == rest;
    }
  }

  lemma LeaveQuiet(c: Config, s: State, g: Group, b: nat, e: nat)
    requires Enabled(c, s, Leave(g)) && LanesIn(c, s, b, e, Storing) == {} && LanesIn(c, s, b, e, Polling) == {}
    ensures var m := Step(c, s, Leave(g));
            LanesIn(c, m, b, e, Storing) == {} && LanesIn(c, m, b, e, Polling) == {}
  {
    var m := Step(c, s, Leave(g));
    forall k, ph | (ph == Storing || ph == Polling) && k in LanesIn(c, m, b, e, ph)
      ensures k in LanesIn(c, s, b, e, ph)
    {
    }
  }

  /**
   Barrier progress. Once a block has entered barrier e on every rank, whether or not some
   ranks are in the next one already, stores, polls and exits alone lead from any state of a
   run to one in which it has left barrier e on every rank.
   */
  lemma EveryoneLeaves(c: Config, s: State, b: nat, e: nat) returns (es: seq<Event>, n: State)
    requires Inv(c, s) && AllIn(c, s, b, e)
    ensures Leads(c, s, es, n) && Typed(c, n)
    ensures forall g :: IsGroup(c, g) && g.b == b ==> n.left[g] >= e
  {
    hide LaneOk;
    var fs, m := CanStore(c, s, b, e);
    var gs, k := CanPoll(c, m, b, e);
    var hs: seq<Event>;
    hs, n := CanLeave(c, k, b, e);
    Concat(c, m, gs, k, hs, n);
    Concat(c, s, fs, m, gs + hs, n);
    es := fs + (gs + hs);
    forall g | IsGroup(c, g) && g.b == b
      ensures n.left[g] >= e
    {
      assert g !in Behind(c, n, b, e);
    }
  }
}
