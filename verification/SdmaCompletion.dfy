/**
 Completion and progress of the multi-producer queue: what a return of quietAll or
 waitSignal guarantees, that nothing gets stuck, and that the queue can always drain.
 */
module SdmaCompletion {
  import opened SdmaPackets
  import opened SdmaRing
  import opened SdmaQueue
  import opened SdmaQueueRuns

  // ---------------------------------------------------------------- quietAll

  /** Thread t polls in quietAll and its next step returns. */
  predicate QuietReturns(c: Config, s: State, t: nat) {
    && t < |s.threads| && s.threads[t].pc.Quiet? && Enabled(c, s, Run(t))
    && Step(c, s, Run(t)).threads[t].pc.Idle?
  }

  /**
   quietAll returns only when the engine has run every packet of every batch of the thread:
   of all of them without a state, and of those submitted with it when polling through it.
   */
  lemma QuietCovers(c: Config, s: State, t: nat)
    requires Reachable(c, s) && QuietReturns(c, s, t)
    ensures SharedOk(c, s.g)
    ensures forall j :: 0 <= j < |s.g.log| && s.g.log[j].owner == t ==>
              (s.threads[t].pc.viaState && !s.g.log[j].op.tracked) || j < s.g.ring.region
  {
    hide Inv; hide Granted; hide Size; hide Reachable; hide End;
    ReachableInv(c, s);
    var th, g := s.threads[t], s.g;
    assert PcOk(c, g, t, th) && MemoryOk(g, t, th);
    assert th.pc.target <= g.ring.rptr;
    forall j | 0 <= j < |g.log| && g.log[j].owner == t && (th.pc.viaState ==> g.log[j].op.tracked)
      ensures j < g.ring.region
    {
      assert j < g.committed;
      ConsumedIff(c, g.ring, j);
      if !th.pc.viaState {
        EndsGrow(c, g, j, th.last.value);
      }
    }
  }

  lemma EndsGrow(c: Config, g: Shared, i: nat, j: nat)
    requires SharedOk(c, g) && i <= j < |g.ring.regions|
    ensures End(g.ring.regions[i]) <= End(g.ring.regions[j])
  {
    hide Inv; hide Granted; hide Size;
    if i < j { EarlierEnds(c, g, i, j); }
  }

  /**
   Polling through the state covers all batches of the thread exactly when its latest
   submission was given the state: a later untracked one is not waited for.
   */
  lemma QuietExact(c: Config, s: State, t: nat)
    requires Reachable(c, s) && t < |s.threads| && HeldTicket(s.threads[t].pc) == None
    ensures SharedOk(c, s.g)
    ensures var g := s.g; var th := s.threads[t];
            (forall j :: 0 <= j < |g.log| && g.log[j].owner == t ==> End(g.ring.regions[j]) <= th.maxWrite) <==>
            (th.last.Some? ==> th.last.value < |g.log| && g.log[th.last.value].op.tracked)
  {
    hide Inv; hide Granted; hide Size; hide Reachable; hide End;
    ReachableInv(c, s);
    var th, g := s.threads[t], s.g;
    assert PcOk(c, g, t, th) && MemoryOk(g, t, th);
    if th.last.Some? && g.log[th.last.value].op.tracked {
      forall j | 0 <= j < |g.log| && g.log[j].owner == t
        ensures End(g.ring.regions[j]) <= th.maxWrite
      {
        EndsGrow(c, g, j, th.last.value);
      }
    }
  }

  // ---------------------------------------------------------------- signals

  /** Packets that add one to the signal at address a. */
  predicate Signals(p: Packet, a: int) {
    match p
    case Atomic(addr, delta) => addr == a && delta == 1
    case CopySignal(_, _, _, addr, delta) => addr == a && delta == 1
    case _ => false
  }

  /** Apart from adding one, the packet leaves the eight bytes of the signal alone. */
  predicate Disciplined(p: Packet, a: int) {
    if Signals(p, a) then p.CopySignal? ==> p.dst + p.size <= a || a + 8 <= p.dst
    else forall b :: a <= b < a + 8 ==> !Touches(p, b)
  }

  predicate AllDisciplined(rs: seq<Region>, a: int) {
    forall j, p :: 0 <= j < |rs| && 0 <= p < |rs[j].packets| ==> Disciplined(rs[j].packets[p], a)
  }

  function CountSignals(ps: seq<Packet>, a: int): nat {
    if ps == [] then 0 else (if Signals(ps[0], a) then 1 else 0) + CountSignals(ps[1..], a)
  }

  lemma {:induction false} CountAppend(ps: seq<Packet>, qs: seq<Packet>, a: int)
    ensures CountSignals(ps + qs, a) == CountSignals(ps, a) + CountSignals(qs, a)
  {
    if ps == [] {
      assert ps + qs == qs;
    } else {
      assert (ps + qs)[1..] == ps[1..] + qs;
      CountAppend(ps[1..], qs, a);
    }
  }

  lemma SameCell(m: Memory, n: Memory, a: int)
    requires forall b :: a <= b < a + 8 ==> ByteAt(n, b) == ByteAt(m, b)
    ensures Read64(n, a) == Read64(m, a)
  {
    assert ByteAt(n, a) == ByteAt(m, a) && ByteAt(n, a + 1) == ByteAt(m, a + 1);
    assert ByteAt(n, a + 2) == ByteAt(m, a + 2) && ByteAt(n, a + 3) == ByteAt(m, a + 3);
    assert ByteAt(n, a + 4) == ByteAt(m, a + 4) && ByteAt(n, a + 5) == ByteAt(m, a + 5);
    assert ByteAt(n, a + 6) == ByteAt(m, a + 6) && ByteAt(n, a + 7) == ByteAt(m, a + 7);
  }

  /** A disciplined packet adds one to the signal, or nothing. */
  lemma ExecSignal(m: Memory, p: Packet, a: int)
    requires Disciplined(p, a)
    ensures Read64(Exec(m, p), a) == (Read64(m, a) + if Signals(p, a) then 1 else 0) % 0x1_0000_0000_0000_0000
  {
    hide Read64; hide Write64;
    if !Signals(p, a) {
      forall b | a <= b < a + 8
        ensures ByteAt(Exec(m, p), b) == ByteAt(m, b)
      {
        ExecFrame(m, p, b);
      }
      SameCell(m, Exec(m, p), a);
    } else if p.Atomic? {
      ReadBack64(m, a, (Read64(m, a) + 1) % 0x1_0000_0000_0000_0000);
    } else {
      var n := CopyBytes(m, p.src, p.dst, p.size);
      SameCell(m, n, a);
      ReadBack64(n, a, (Read64(n, a) + 1) % 0x1_0000_0000_0000_0000);
    }
  }

  /** How one step changes memory and the list of packets run. */
  lemma StepMemory(c: Config, s: State, e: Event, a: int)
    requires QueueInv(c, s) && Enabled(c, s, e) && AllDisciplined(s.g.ring.regions, a)
    requires e.Outside? ==> e.a < a || a + 8 <= e.a
    requires Read64(s.g.ring.mem, a) == CountSignals(s.g.ring.executed, a) % 0x1_0000_0000_0000_0000
    ensures var r := Step(c, s, e).g.ring;
            Read64(r.mem, a) == CountSignals(r.executed, a) % 0x1_0000_0000_0000_0000
  {
    hide Inv; hide Granted; hide ThreadsOk; hide Read64; hide Decode; hide Window; hide Exec;
    hide CountSignals; hide RunThread;
    var r := s.g.ring;
    match e
    case Outside(b, v) =>
      SameCell(r.mem, r.mem[b := v], a);
    case Engine =>
      hide Disciplined; hide Signals;
      ExecutePreserves(c, r);
      EngineReads(c, r);
      ExecSignal(r.mem, Expected(r), a);
      CountAppend(r.executed, [Expected(r)], a);
      CountOne(Expected(r), a);
    case _ => ProducersKeepMemory(c, s, e);
  }

  lemma ProducersKeepMemory(c: Config, s: State, e: Event)
    requires Enabled(c, s, e) && !e.Engine? && !e.Outside?
    ensures var r := Step(c, s, e).g.ring; r.mem == s.g.ring.mem && r.executed == s.g.ring.executed
  {
    hide Grant; hide NewIndex; hide Fits; hide PlacedWords; hide Slot;
  }

  lemma CountOne(p: Packet, a: int)
    ensures CountSignals([p], a) == if Signals(p, a) then 1 else 0
  {
    assert [p][1..] == [];
  }

  /** Along a run that keeps its hands off the signal, its value counts the signals run. */
  lemma {:induction false} SignalCounts(c: Config, ss: seq<State>, es: seq<Event>, a: int, i: nat)
    requires IsRun(c, ss, es) && i < |ss| && Read64(ss[0].g.ring.mem, a) == 0
    requires forall k :: 0 <= k < |es| && es[k].Outside? ==> es[k].a < a || a + 8 <= es[k].a
    requires AllDisciplined(ss[i].g.ring.regions, a)
    ensures Read64(ss[i].g.ring.mem, a) == CountSignals(ss[i].g.ring.executed, a) % 0x1_0000_0000_0000_0000
  {
    hide QueueInv; hide Step; hide Enabled; hide Read64; hide Disciplined;
    if i > 0 {
      PointersGrow(c, ss, es, i - 1, i);
      PrefixDisciplined(ss[i - 1].g.ring.regions, ss[i].g.ring.regions, a);
      SignalCounts(c, ss, es, a, i - 1);
      RunKeepsInv(c, ss, es, i - 1);
      StepMemory(c, ss[i - 1], es[i - 1], a);
    }
  }

  lemma PrefixDisciplined(rs: seq<Region>, ts: seq<Region>, a: int)
    requires rs <= ts && AllDisciplined(ts, a)
    ensures AllDisciplined(rs, a)
  {
    hide Disciplined;
    assert forall j :: 0 <= j < |rs| ==> rs[j] == ts[j];
  }

  /** Number of signals in the reservations before number j. */
  function SignalsBefore(rs: seq<Region>, j: nat, a: int): nat
    requires j <= |rs|
  {
    CountSignals(Flatten(rs[..j]), a)
  }

  /** Position of the first packet of a batch in its reservation: behind the padding. */
  function FirstOfBatch(c: Config, r: Region, op: Op): nat
    requires ValidConfig(c)
  {
    |PadPackets(Pad(c, r.base, Bytes(op.packets)))|
  }

  /** The engine has run packet p of region j. */
  predicate HasRun(r: Ring, j: nat, p: nat) { j < r.region || (j == r.region && p < r.packet) }

  /** waitSignal on a for n polls in thread t and its next step returns. */
  predicate WaitReturns(c: Config, s: State, t: nat, a: int, n: nat) {
    && t < |s.threads| && s.threads[t].pc == Await(a, n) && Enabled(c, s, Run(t))
    && Step(c, s, Run(t)).threads[t].pc.Idle?
  }

  /**
   waitSignal(a, n) returns only after the copies of the first n signalling batches, in
   commit order, have been run: along every run in which the signal starts at zero and is
   changed by nothing but the batches of this queue, one increment at a time.
   */
  lemma WaitCovers(c: Config, ss: seq<State>, es: seq<Event>, i: nat, t: nat, a: int, n: nat, j: nat)
    requires IsRun(c, ss, es) && i < |ss| && Read64(ss[0].g.ring.mem, a) == 0
    requires forall k :: 0 <= k < |es| && es[k].Outside? ==> es[k].a < a || a + 8 <= es[k].a
    requires AllDisciplined(ss[i].g.ring.regions, a) && WaitReturns(c, ss[i], t, a, n)
    requires j < |ss[i].g.ring.regions| && SignalsBefore(ss[i].g.ring.regions, j, a) < n
    ensures SharedOk(c, ss[i].g)
    ensures HasRun(ss[i].g.ring, j, FirstOfBatch(c, ss[i].g.ring.regions[j], ss[i].g.log[j].op))
  {
    hide Inv; hide Granted; hide ThreadsOk; hide Read64; hide Disciplined; hide CountSignals; hide Pad;
    SignalCounts(c, ss, es, a, i);
    RunKeepsInv(c, ss, es, i);
    var g := ss[i].g;
    assert Read64(g.ring.mem, a) >= n;
    assert CountSignals(g.ring.executed, a) >= n by {
      ModBelow(CountSignals(g.ring.executed, a));
    }
    EnoughSignals(c, g, a, n, j);
  }

  lemma ModBelow(x: nat)
    ensures x % 0x1_0000_0000_0000_0000 <= x
  {
  }

  lemma {:induction false} SignalsGrow(rs: seq<Region>, i: nat, j: nat, a: int)
    requires i <= j <= |rs|
    ensures SignalsBefore(rs, i, a) <= SignalsBefore(rs, j, a)
  {
    FlattenSplit(rs[..j], i);
    assert rs[..j][..i] == rs[..i];
    CountAppend(Flatten(rs[..i]), Flatten(rs[..j][i..]), a);
  }

  lemma CountPrefix(ps: seq<Packet>, k: nat, a: int)
    requires k <= |ps|
    ensures CountSignals(ps[..k], a) <= CountSignals(ps, a)
  {
    assert ps == ps[..k] + ps[k..];
    CountAppend(ps[..k], ps[k..], a);
  }

  lemma PadIsSilent(pad: nat, k: nat, a: int)
    requires k <= |PadPackets(pad)|
    ensures CountSignals(PadPackets(pad)[..k], a) == 0
  {
    CountPrefix(PadPackets(pad), k, a);
  }

  lemma EnoughSignals(c: Config, g: Shared, a: int, n: nat, j: nat)
    requires SharedOk(c, g) && j < |g.ring.regions|
    requires CountSignals(g.ring.executed, a) >= n > SignalsBefore(g.ring.regions, j, a)
    ensures HasRun(g.ring, j, FirstOfBatch(c, g.ring.regions[j], g.log[j].op))
  {
    hide Intact; hide ValidOp; hide CountSignals; hide Pad; hide IndexOf; hide Ordered; hide Chained;
    hide Flatten; hide PadPackets; hide Size;
    var r := g.ring;
    if r.region <= j {
      var part := if r.packet == 0 then [] else r.regions[r.region].packets[..r.packet];
      CountAppend(Flatten(r.regions[..r.region]), part, a);
      if r.packet == 0 { CountNone(a); }
      if r.region < j {
        NextSignals(r.regions, r.region, r.packet, a);
        SignalsGrow(r.regions, r.region + 1, j, a);
      } else {
        SilentUntilBatch(c, r.regions[j], g.log[j].op, r.packet, a);
      }
    }
  }

  lemma CountNone(a: int)
    ensures CountSignals([], a) == 0
  {
  }

  lemma NextSignals(rs: seq<Region>, r: nat, p: nat, a: int)
    requires r < |rs| && p <= |rs[r].packets|
    ensures SignalsBefore(rs, r, a) + CountSignals(rs[r].packets[..p], a) <= SignalsBefore(rs, r + 1, a)
  {
    assert rs[..r + 1] == rs[..r] + [rs[r]];
    FlattenSnoc(rs[..r], rs[r]);
    CountAppend(Flatten(rs[..r]), rs[r].packets, a);
    CountPrefix(rs[r].packets, p, a);
  }

  lemma SilentUntilBatch(c: Config, r: Region, op: Op, p: nat, a: int)
    requires ValidConfig(c) && r.packets == Grant(c, r.base, op) && p <= |r.packets|
    requires CountSignals(r.packets[..p], a) > 0
    ensures p > FirstOfBatch(c, r, op)
  {
    hide CountSignals; hide Pad; hide Size; hide PadPackets;
    var pad := Pad(c, r.base, Bytes(op.packets));
    if p <= |PadPackets(pad)| {
      assert r.packets[..p] == PadPackets(pad)[..p];
      PadIsSilent(pad, p, a);
    }
  }

  /** The first packet of a putSignal batch is its copy, fused or not. */
  lemma CopyComesFirst(g: Generation, r: Request)
    requires r.put.Some?
    ensures var p := Batch(g, r)[0];
            && (p.Copy? || p.CopySignal?)
            && p.src == r.put.value.src && p.dst == r.put.value.dst && p.size == r.put.value.size
  {
  }

  // ---------------------------------------------------------------- progress

  /**
   A producer inside an operation can always take its next step, except for a CAS that would
   take the index to 2^64; and so can the engine with work.
   */
  lemma NeverStuck(c: Config, s: State)
    requires Reachable(c, s)
    ensures ValidConfig(c)
    ensures forall t :: 0 <= t < |s.threads| && !s.threads[t].pc.Idle? && !s.threads[t].pc.Cas? ==>
              Enabled(c, s, Run(t))
    ensures forall t :: 0 <= t < |s.threads| && s.threads[t].pc.Cas? ==>
              (var Cas(op, cur, _) := s.threads[t].pc;
               Enabled(c, s, Run(t)) <==> NewIndex(c, cur, op) < 0x1_0000_0000_0000_0000)
    ensures s.g.ring.rptr < s.g.ring.wptr ==> Enabled(c, s, Engine)
  {
    hide QueueInv; hide Reachable; hide NewIndex;
    ReachableInv(c, s);
    CasEnabled(c, s);
    forall t | 0 <= t < |s.threads| && !s.threads[t].pc.Idle? && !s.threads[t].pc.Cas?
      ensures Enabled(c, s, Run(t))
    {
      RunEnabled(c, s, t);
    }
    if s.g.ring.rptr < s.g.ring.wptr { EngineEnabled(c, s); }
  }

  lemma CasEnabled(c: Config, s: State)
    requires QueueInv(c, s)
    ensures ValidConfig(c)
    ensures forall t :: 0 <= t < |s.threads| && s.threads[t].pc.Cas? ==>
              (var Cas(op, cur, _) := s.threads[t].pc;
               Enabled(c, s, Run(t)) <==> NewIndex(c, cur, op) < 0x1_0000_0000_0000_0000)
  {
    hide Granted; hide Size; hide Intact; hide Before; hide IndexOf; hide ThreadsOk; hide NewIndex;
  }

  lemma RunEnabled(c: Config, s: State, t: nat)
    requires QueueInv(c, s) && t < |s.threads| && !s.threads[t].pc.Idle? && !s.threads[t].pc.Cas?
    ensures Enabled(c, s, Run(t))
  {
    hide Granted; hide Size; hide Intact; hide Before; hide IndexOf; hide MemoryOk; hide PlacedWords; hide EncodeAll;
    var pc := s.threads[t].pc;
    assert PcOk(c, s.g, t, s.threads[t]);
    if pc.Place? { HeldRegion(c, s.g, t, pc.op, pc.ticket, pc.base); }
  }

  lemma EngineEnabled(c: Config, s: State)
    requires QueueInv(c, s) && s.g.ring.rptr < s.g.ring.wptr
    ensures Enabled(c, s, Engine)
  {
    hide Granted; hide ThreadsOk; hide Decode; hide Window; hide Intact; hide Before; hide IndexOf;
    ExecutePreserves(c, s.g.ring);
  }

  /**
   Once the engine has caught up, a reservation is granted exactly when the batch and its
   padding fit in less than a ring; half a ring is always enough.
   */
  lemma GrantedWhenDrained(c: Config, s: State, op: Op)
    requires Reachable(c, s) && s.g.ring.rptr == s.g.ring.limit && ValidOp(c, op)
    requires ValidConfig(c) && NewIndex(c, s.g.ring.limit, op) < 0x1_0000_0000_0000_0000
    ensures Fits(c, NewIndex(c, s.g.ring.limit, op), s.g.ring.rptr) <==>
            Pad(c, s.g.ring.limit, Bytes(op.packets)) + Bytes(op.packets) < c.ringBytes
    ensures 2 * Bytes(op.packets) <= c.ringBytes ==> Fits(c, NewIndex(c, s.g.ring.limit, op), s.g.ring.rptr)
  {
    hide QueueInv; hide Reachable; hide SubU64; hide Size; hide Encodable;
    ReachableInv(c, s);
    AlignedLimitOf(c, s);
    SubExact(NewIndex(c, s.g.ring.limit, op), s.g.ring.rptr);
    SizePositive(op.packets);
    PadAligned(c, s.g.ring.limit, Bytes(op.packets));
  }

  lemma AlignedLimitOf(c: Config, s: State)
    requires QueueInv(c, s)
    ensures s.g.ring.limit % 4 == 0
  {
    hide Inv; hide Granted; hide ThreadsOk;
    AlignedLimit(c, s.g.ring);
  }

  /** Steps left until the holder of the next ticket has committed. */
  function StagesLeft(s: State): nat {
    if s.g.committed < |s.g.log| && s.g.log[s.g.committed].owner < |s.threads| then
      match s.threads[s.g.log[s.g.committed].owner].pc
      case Place(_, ticket, _, k) =>
        if ticket < |s.g.ring.regions| && k <= Size(s.g.ring.regions[ticket].packets)
        then 4 + (Size(s.g.ring.regions[ticket].packets) - k) else 4
      case AwaitTurn(_, _, _) => 4
      case StoreWptr(_, _, _) => 3
      case StoreDoorbell(_, _, _) => 2
      case _ => 1
    else 0
  }

  /** A sequence of enabled events leads from s to s'. */
  ghost predicate Leads(c: Config, s: State, es: seq<Event>, s': State)
    decreases |es|
  {
    if es == [] then s == s'
    else Enabled(c, s, es[0]) && Leads(c, Step(c, s, es[0]), es[1..], s')
  }

  /** The event that brings the queue closer to empty. */
  function Helper(s: State): Event {
    if s.g.ring.rptr < s.g.ring.wptr then Engine
    else if s.g.committed < |s.g.log| then Run(s.g.log[s.g.committed].owner) else Engine
  }

  lemma HelperRuns(c: Config, s: State)
    requires QueueInv(c, s) && s.g.ring.rptr < s.g.ring.limit
    ensures Enabled(c, s, Helper(s))
    ensures Helper(s).Run? ==>
              && s.g.committed < |s.g.log| && s.g.log[s.g.committed].owner == Helper(s).t
              && HeldTicket(s.threads[Helper(s).t].pc) == Some(s.g.committed)
  {
    hide Granted; hide Size; hide Intact; hide Before; hide IndexOf; hide ThreadsOk;
    if s.g.ring.rptr < s.g.ring.wptr {
      EngineEnabled(c, s);
    } else {
      assert s.g.committed < |s.g.log|;
      RunEnabled(c, s, s.g.log[s.g.committed].owner);
    }
  }

  lemma HelperEngine(c: Config, s: State)
    requires QueueInv(c, s) && Enabled(c, s, Engine)
    ensures var s' := Step(c, s, Engine);
            && |s'.g.log| == |s.g.log| && s'.g.committed == s.g.committed && StagesLeft(s') == StagesLeft(s)
            && s'.g.ring.limit == s.g.ring.limit && s.g.ring.rptr < s'.g.ring.rptr
  {
    hide Inv; hide Granted; hide ThreadsOk; hide Decode; hide Window; hide Exec; hide Size;
    ExecutePreserves(c, s.g.ring);
  }

  lemma HelperHolder(c: Config, s: State, t: nat)
    requires QueueInv(c, s) && Enabled(c, s, Run(t)) && s.g.committed < |s.g.log|
    requires s.g.log[s.g.committed].owner == t && HeldTicket(s.threads[t].pc) == Some(s.g.committed)
    ensures var s' := Step(c, s, Run(t));
            && |s'.g.log| == |s.g.log| && s'.g.ring.limit == s.g.ring.limit
            && (s'.g.committed > s.g.committed ||
                (s'.g.committed == s.g.committed && StagesLeft(s') < StagesLeft(s)))
  {
    hide Inv; hide Granted; hide MemoryOk; hide Size; hide PlacedWords; hide Slot; hide NewIndex;
    var th, g := s.threads[t], s.g;
    assert PcOk(c, g, t, th);
    if th.pc.AwaitTurn? {
      TurnIffNext(c, g, t, th.pc.op, th.pc.ticket, th.pc.base);
    } else if th.pc.Place? {
      HeldRegion(c, g, t, th.pc.op, th.pc.ticket, th.pc.base);
    }
  }

  /** Nothing was reserved, and a thread that held no reservation is where it was. */
  ghost predicate Bystander(s: State, n: State) {
    && n.g.log == s.g.log && n.g.ring.regions == s.g.ring.regions && |n.threads| == |s.threads|
    && forall t :: 0 <= t < |s.threads| && HeldTicket(s.threads[t].pc) == None ==> n.threads[t] == s.threads[t]
  }

  lemma HolderLeaves(c: Config, s: State, t: nat)
    requires QueueInv(c, s) && Enabled(c, s, Run(t)) && HeldTicket(s.threads[t].pc).Some?
    ensures Bystander(s, Step(c, s, Run(t)))
  {
    hide Inv; hide Granted; hide ThreadsOk; hide Size; hide PlacedWords; hide Slot; hide NewIndex; hide Read64;
  }

  lemma EngineLeaves(c: Config, s: State)
    requires Enabled(c, s, Engine)
    ensures Bystander(s, Step(c, s, Engine))
  {
    hide Decode; hide Window; hide Exec;
  }

  /**
   From every reachable state the queue can drain: some sequence of steps that reserves
   nothing leads to a state where the engine has consumed everything reserved.
   */
  lemma CanDrain(c: Config, s: State) returns (es: seq<Event>, s': State)
    requires QueueInv(c, s)
    ensures Leads(c, s, es, s') && s'.g.ring.limit == s.g.ring.limit == s'.g.ring.rptr
    ensures QueueInv(c, s') && Bystander(s, s') && forall k :: 0 <= k < |es| ==> es[k].Run? || es[k].Engine?
    decreases |s.g.log| - s.g.committed, StagesLeft(s), s.g.ring.limit - s.g.ring.rptr
  {
    hide QueueInv; hide Step; hide Enabled; hide StagesLeft; hide Helper;
    LimitAhead(c, s);
    if s.g.ring.rptr == s.g.ring.limit {
      es, s' := [], s;
    } else {
      HelperRuns(c, s);
      var e := Helper(s);
      var n := Step(c, s, e);
      StepPreserves(c, s, e);
      LimitAhead(c, n);
      if e.Run? {
        HelperHolder(c, s, e.t);
        HolderLeaves(c, s, e.t);
      } else {
        EngineHelps(s);
        HelperEngine(c, s);
        EngineLeaves(c, s);
      }
      var rest: seq<Event>;
      rest, s' := CanDrain(c, n);
      es := [e] + rest;
      assert es[1..] == rest;
    }
  }

  lemma EngineHelps(s: State)
    requires !Helper(s).Run?
    ensures Helper(s) == Engine
  {
  }

  lemma LimitAhead(c: Config, s: State)
    requires QueueInv(c, s)
    ensures s.g.ring.rptr <= s.g.ring.limit && s.g.committed <= |s.g.log|
  {
    hide Inv; hide Granted; hide ThreadsOk;
    PointersOrdered(c, s.g.ring);
  }

  // ---------------------------------------------------------------- an uncontended submission

  /** Thread t is submitting op, holds the only outstanding reservation if any, and has room. */
  predicate Alone(c: Config, s: State, t: nat, op: Op) {
    && ValidConfig(c) && t < |s.threads| && s.g.committed == |s.g.log|
    && NewIndex(c, s.g.ring.limit, op) < 0x1_0000_0000_0000_0000
    && match s.threads[t].pc
       case LoadIndex(o) => o == op && Fits(c, NewIndex(c, s.g.ring.limit, op), s.g.ring.rptr)
       case Test(o, cur) => o == op && cur == s.g.ring.limit && Fits(c, NewIndex(c, cur, op), s.g.ring.rptr)
       case ReadHw(o, cur) => o == op && cur == s.g.ring.limit && Fits(c, NewIndex(c, cur, op), s.g.ring.rptr)
       case Cas(o, cur, _) => o == op && cur == s.g.ring.limit
       case _ => false
  }

  /** One thread on its own gets through ReserveQueueSpace in at most four steps. */
  lemma AloneReserves(c: Config, s: State, t: nat, op: Op) returns (es: seq<Event>, s': State)
    requires QueueInv(c, s) && Alone(c, s, t, op)
    ensures Leads(c, s, es, s') && QueueInv(c, s') && t < |s'.threads|
    ensures s'.g.log == s.g.log + [Entry(t, op)] && s'.g.committed == s.g.committed == |s.g.log|
    ensures HeldTicket(s'.threads[t].pc) == Some(|s.g.log|) && s'.threads[t].pc.Place?
    ensures s'.g.ring.rptr == s.g.ring.rptr && s'.g.ring.region == s.g.ring.region
    ensures s'.threads[t].maxWrite == s.threads[t].maxWrite && forall k :: 0 <= k < |es| ==> es[k] == Run(t)
    decreases match s.threads[t].pc case LoadIndex(_) => 3 case Test(_, _) => 2 case ReadHw(_, _) => 1 case _ => 0
  {
    hide QueueInv; hide Fits; hide NewIndex; hide Grant;
    AloneEnabled(c, s, t, op);
    var n := Step(c, s, Run(t));
    StepPreserves(c, s, Run(t));
    if s.threads[t].pc.Cas? {
      es, s' := [Run(t)], n;
      assert es[1..] == [];
    } else {
      var rest: seq<Event>;
      rest, s' := AloneReserves(c, n, t, op);
      es := [Run(t)] + rest;
      assert es[1..] == rest;
    }
  }

  lemma AloneEnabled(c: Config, s: State, t: nat, op: Op)
    requires QueueInv(c, s) && Alone(c, s, t, op)
    ensures Enabled(c, s, Run(t))
  {
    hide Granted; hide Size; hide ThreadsOk; hide Intact; hide Before; hide IndexOf;
  }

  /** The holder of the next ticket gets through placePacket and submitPacket on its own. */
  lemma HolderSubmits(c: Config, s: State, t: nat) returns (es: seq<Event>, s': State)
    requires QueueInv(c, s) && s.g.committed < |s.g.log| && s.g.log[s.g.committed].owner == t < |s.threads|
    requires HeldTicket(s.threads[t].pc) == Some(s.g.committed)
    ensures Leads(c, s, es, s') && QueueInv(c, s') && t < |s'.threads| && s'.threads[t].pc == Idle
    ensures s'.g.log == s.g.log && s'.g.committed == s.g.committed + 1
    ensures s'.g.ring.rptr == s.g.ring.rptr && s'.g.ring.region == s.g.ring.region
    ensures !s.g.log[s.g.committed].op.tracked ==> s'.threads[t].maxWrite == s.threads[t].maxWrite
    ensures forall k :: 0 <= k < |es| ==> es[k] == Run(t)
    decreases StagesLeft(s)
  {
    hide QueueInv; hide StagesLeft;
    RunEnabled(c, s, t);
    var n := Step(c, s, Run(t));
    StepPreserves(c, s, Run(t));
    HelperHolder(c, s, t);
    HolderLocals(c, s, t);
    if n.g.committed > s.g.committed {
      es, s' := [Run(t)], n;
      assert es[1..] == [];
    } else {
      var rest: seq<Event>;
      rest, s' := HolderSubmits(c, n, t);
      es := [Run(t)] + rest;
      assert es[1..] == rest;
    }
  }

  lemma HolderLocals(c: Config, s: State, t: nat)
    requires QueueInv(c, s) && t < |s.threads| && HeldTicket(s.threads[t].pc).Some? && Enabled(c, s, Run(t))
    ensures var j := HeldTicket(s.threads[t].pc).value;
            && j < |s.g.log| && s.g.log[j].op == s.threads[t].pc.op
    ensures var n := Step(c, s, Run(t));
            && n.g.log == s.g.log && n.g.ring.rptr == s.g.ring.rptr && n.g.ring.region == s.g.ring.region
            && (n.g.committed == s.g.committed || (n.g.committed == s.g.committed + 1 && n.threads[t].pc.Idle?))
            && (HeldTicket(n.threads[t].pc) == HeldTicket(s.threads[t].pc) || n.g.committed == s.g.committed + 1)
            && (!s.threads[t].pc.op.tracked ==> n.threads[t].maxWrite == s.threads[t].maxWrite)
  {
    hide Inv; hide Granted; hide MemoryOk; hide Size; hide PlacedWords; hide Slot; hide NewIndex;
    assert PcOk(c, s.g, t, s.threads[t]);
  }

  /**
   The failing case of QuietExact, from any state at rest (the initial one, for instance):
   the thread submits a batch without its state, polls through the state, and quietAll
   returns although the engine has not run the batch.
   */
  lemma QuietMissesUntracked(c: Config, s: State, t: nat, op: Op) returns (es: seq<Event>, s': State)
    requires Reachable(c, s) && t < |s.threads| && s.threads[t].pc.Idle?
    requires s.g.committed == |s.g.log| && s.g.ring.rptr == s.g.ring.limit
    requires ValidConfig(c) && ValidOp(c, op) && !op.tracked && 2 * Bytes(op.packets) <= c.ringBytes
    requires NewIndex(c, s.g.ring.limit, op) < 0x1_0000_0000_0000_0000
    ensures Leads(c, s, es, s') && QuietReturns(c, s', t) && s'.threads[t].pc.viaState
    ensures |s.g.log| < |s'.g.log| && s'.g.log[|s.g.log|] == Entry(t, op) && s'.g.ring.region <= |s.g.log|
  {
    hide Reachable; hide QueueInv; hide Fits; hide NewIndex; hide ValidOp;
    ReachableInv(c, s);
    GrantedWhenDrained(c, s, op);
    AtRest(c, s, t);
    var s1 := Step(c, s, Begin(t, op));
    StepPreserves(c, s, Begin(t, op));
    var es1, s2 := AloneReserves(c, s1, t, op);
    var es2, s3 := HolderSubmits(c, s2, t);
    s' := Step(c, s3, BeginQuiet(t, true));
    PollReturns(c, s3, t);
    Chain(c, s2, es2, s3, BeginQuiet(t, true));
    Concat(c, s1, es1, s2, es2 + [BeginQuiet(t, true)], s');
    es := [Begin(t, op)] + (es1 + (es2 + [BeginQuiet(t, true)]));
    assert es[1..] == es1 + (es2 + [BeginQuiet(t, true)]);
  }

  lemma AtRest(c: Config, s: State, t: nat)
    requires QueueInv(c, s) && t < |s.threads| && s.g.committed == |s.g.log| && s.g.ring.rptr == s.g.ring.limit
    ensures s.threads[t].maxWrite <= s.g.ring.rptr && s.g.ring.region <= |s.g.log|
  {
    hide Granted; hide Size; hide Intact; hide Before; hide IndexOf; hide PcOk;
    var th := s.threads[t];
    assert MemoryOk(s.g, t, th);
    if th.last.Some? { BoundaryMonotone(c, s.g.ring.regions, th.last.value + 1, |s.g.ring.regions|); }
  }

  lemma PollReturns(c: Config, s: State, t: nat)
    requires QueueInv(c, s) && t < |s.threads| && s.threads[t].pc.Idle? && s.threads[t].maxWrite <= s.g.ring.rptr
    ensures Enabled(c, s, BeginQuiet(t, true)) && QuietReturns(c, Step(c, s, BeginQuiet(t, true)), t)
  {
    hide Granted; hide Size; hide Intact; hide Before; hide IndexOf; hide ThreadsOk;
  }

  lemma {:induction false} Chain(c: Config, s: State, es: seq<Event>, n: State, e: Event)
    requires Leads(c, s, es, n) && Enabled(c, n, e)
    ensures Leads(c, s, es + [e], Step(c, n, e))
    decreases |es|
  {
    hide Step; hide Enabled;
    if es == [] {
      assert (es + [e])[1..] == [];
    } else {
      Chain(c, Step(c, s, es[0]), es[1..], n, e);
      assert (es + [e])[1..] == es[1..] + [e];
    }
  }

  lemma {:induction false} Concat(c: Config, s: State, es: seq<Event>, n: State, fs: seq<Event>, s': State)
    requires Leads(c, s, es, n) && Leads(c, n, fs, s')
    ensures Leads(c, s, es + fs, s')
    decreases |es|
  {
    hide Step; hide Enabled;
    if es == [] {
      assert es + fs == fs;
    } else {
      Concat(c, Step(c, s, es[0]), es[1..], n, fs, s');
      assert (es + fs)[1..] == es[1..] + fs;
    }
  }
}
