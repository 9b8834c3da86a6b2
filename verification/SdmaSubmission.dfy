/**
 Every batch a producer begins is submitted, once and in its order: what the handles take on
 is what they have reserved and what they are still reserving.
 */
module SdmaSubmission {
  import opened SdmaPackets
  import opened SdmaRing
  import opened SdmaQueue
  import opened SdmaQueueRuns
  import opened SdmaSingleProducer

  // ---------------------------------------------------------------- the multi-producer handle

  /** The batches thread t has begun, in order. */
  function Begun(es: seq<Event>, t: nat): seq<Op> {
    if es == [] then []
    else
      var e := es[|es| - 1];
      Begun(es[..|es| - 1], t) + if e.Begin? && e.t == t then [e.op] else []
  }

  /** The reservations of thread t, in order. */
  function Logged(log: seq<Entry>, t: nat): seq<Op> {
    if log == [] then []
    else
      var e := log[|log| - 1];
      Logged(log[..|log| - 1], t) + if e.owner == t then [e.op] else []
  }

  /** The batch a thread has begun and not reserved yet. */
  function InHand(pc: Pc): seq<Op> {
    match pc
    case LoadIndex(op) => [op]
    case Test(op, _) => [op]
    case ReadHw(op, _) => [op]
    case Cas(op, _, _) => [op]
    case _ => []
  }

  lemma LoggedNext(log: seq<Entry>, e: Entry, t: nat)
    ensures Logged(log + [e], t) == Logged(log, t) + if e.owner == t then [e.op] else []
  {
    assert (log + [e])[..|log|] == log;
  }

  /** A step takes a batch in hand when the thread begins it, and lets go of it by reserving it. */
  lemma StepKeepsBatches(c: Config, s: State, e: Event, t: nat)
    requires Enabled(c, s, e) && t < |s.threads|
    ensures |Step(c, s, e).threads| == |s.threads|
    ensures var n := Step(c, s, e);
            Logged(n.g.log, t) + InHand(n.threads[t].pc) ==
            Logged(s.g.log, t) + InHand(s.threads[t].pc) + if e.Begin? && e.t == t then [e.op] else []
  {
    hide Logged; hide Fits; hide NewIndex; hide Grant; hide PlacedWords; hide Execute; hide Decode; hide Window;
    hide Read64; hide Slot;
    if e.Run? && s.threads[e.t].pc.Cas? {
      LoggedNext(s.g.log, Entry(e.t, s.threads[e.t].pc.op), t);
    }
  }

  /**
   Along every interleaving the batches a thread has begun are those it has reserved, in the
   same order, and the one it is still reserving: none is dropped and none comes twice.
   */
  lemma {:induction false} BatchesKept(c: Config, ss: seq<State>, es: seq<Event>, i: nat, t: nat)
    requires IsRun(c, ss, es) && i < |ss| && t < |ss[0].threads|
    ensures |ss[i].threads| == |ss[0].threads|
    ensures Begun(es[..i], t) == Logged(ss[i].g.log, t) + InHand(ss[i].threads[t].pc)
  {
    hide Step; hide Enabled; hide Logged; hide InHand;
    if i == 0 {
      StartsEmpty(c, ss[0], t);
    } else {
      BatchesKept(c, ss, es, i - 1, t);
      StepKeepsBatches(c, ss[i - 1], es[i - 1], t);
      assert es[..i][..i - 1] == es[..i - 1];
    }
  }

  lemma StartsEmpty(c: Config, s: State, t: nat)
    requires Init(c, s) && t < |s.threads|
    ensures Logged(s.g.log, t) == [] && InHand(s.threads[t].pc) == []
  {
  }

  lemma {:induction false} LoggedAppend(a: seq<Entry>, b: seq<Entry>, t: nat)
    ensures Logged(a + b, t) == Logged(a, t) + Logged(b, t)
    decreases |b|
  {
    if b == [] {
      assert a + b == a;
    } else {
      assert (a + b)[..|a + b| - 1] == a + b[..|b| - 1];
      LoggedAppend(a, b[..|b| - 1], t);
    }
  }

  lemma {:induction false} NoneLogged(log: seq<Entry>, t: nat, j: nat)
    requires Logged(log, t) == [] && j < |log|
    ensures log[j].owner != t
  {
    if j < |log| - 1 { NoneLogged(log[..|log| - 1], t, j); }
  }

  lemma {:induction false} OneLogged(log: seq<Entry>, t: nat, op: Op) returns (j: nat)
    requires Logged(log, t) == [op]
    ensures j < |log| && log[j] == Entry(t, op) && forall k :: 0 <= k < |log| && log[k].owner == t ==> k == j
  {
    var front, e := log[..|log| - 1], log[|log| - 1];
    if e.owner == t {
      assert Logged(front, t) == (Logged(front, t) + [e.op])[..|Logged(front, t)|] == [];
      assert e == Entry(t, op) by { assert (Logged(front, t) + [e.op])[0] == e.op; }
      j := |log| - 1;
      forall k | 0 <= k < |log| && log[k].owner == t
        ensures k == j
      {
        if k < |front| { NoneLogged(front, t, k); }
      }
    } else {
      j := OneLogged(front, t, op);
      forall k | 0 <= k < |log| && log[k].owner == t
        ensures k == j
      {
        assert k < |front| && front[k].owner == t;
      }
    }
  }

  lemma {:induction false} BegunLater(c: Config, ss: seq<State>, es: seq<Event>, i: nat, k: nat, t: nat)
    requires IsRun(c, ss, es) && i < k < |ss| && t < |ss[0].threads|
    requires forall m :: i < m < k ==> t < |ss[m].threads| && !ss[m].threads[t].pc.Idle?
    ensures Begun(es[..k], t) == Begun(es[..i + 1], t)
    decreases k
  {
    hide Step; hide Enabled;
    if k > i + 1 {
      BegunLater(c, ss, es, i, k - 1, t);
      assert es[..k][..k - 1] == es[..k - 1];
      BeginNeedsRest(c, ss[k - 1], es[k - 1], t);
    }
  }

  lemma BeginNeedsRest(c: Config, s: State, e: Event, t: nat)
    requires Enabled(c, s, e) && t < |s.threads| && !s.threads[t].pc.Idle?
    ensures !(e.Begin? && e.t == t)
  {
  }

  /** The entries of thread t in this part of the log: exactly one, for this batch. */
  predicate ExactlyOne(log: seq<Entry>, from: nat, to: nat, t: nat, op: Op) {
    exists j :: from <= j < to <= |log| && log[j] == Entry(t, op) &&
                forall m :: from <= m < |log| && log[m].owner == t ==> m == j
  }

  /**
   Exactly once: when a thread comes to rest after beginning a batch, exactly one reservation of
   its own has been made since, it is for that batch, and it has been committed.
   */
  lemma SubmittedOnce(c: Config, ss: seq<State>, es: seq<Event>, i: nat, k: nat, t: nat, op: Op)
    requires IsRun(c, ss, es) && i < k < |ss| && t < |ss[0].threads| && es[i] == Begin(t, op)
    requires t < |ss[k].threads| && ss[k].threads[t].pc.Idle?
    requires forall m :: i < m < k ==> t < |ss[m].threads| && !ss[m].threads[t].pc.Idle?
    ensures ExactlyOne(ss[k].g.log, |ss[i].g.log|, ss[k].g.committed, t, op)
  {
    hide Step; hide Logged; hide Begun; hide QueueInv;
    BatchesKept(c, ss, es, i, t);
    BatchesKept(c, ss, es, k, t);
    BegunLater(c, ss, es, i, k, t);
    assert es[..i + 1] == es[..i] + [es[i]];
    BegunNext(es[..i], es[i], t);
    assert Enabled(c, ss[i], es[i]);
    hide Enabled;
    PointersGrow(c, ss, es, i, k);
    var before, after := ss[i].g.log, ss[k].g.log;
    var since := after[|before|..];
    assert after == before + since;
    LoggedAppend(before, since, t);
    SameTail(Logged(before, t), Logged(since, t), [op], Begun(es[..i], t), Begun(es[..k], t));
    var j := OneLogged(since, t, op);
    RunKeepsInv(c, ss, es, k);
    RestingCommitted(c, ss[k], t, |before| + j);
    forall m | |before| <= m < |after| && after[m].owner == t
      ensures m == |before| + j
    {
      assert since[m - |before|] == after[m];
    }
  }

  lemma SameTail(a: seq<Op>, b: seq<Op>, d: seq<Op>, early: seq<Op>, late: seq<Op>)
    requires early == a + [] && late == a + b + [] && late == early + d
    ensures b == d
  {
    assert early == a && late == a + b;
    assert b == (a + b)[|a|..] && d == (a + d)[|a|..];
  }

  lemma BegunNext(es: seq<Event>, e: Event, t: nat)
    ensures Begun(es + [e], t) == Begun(es, t) + if e.Begin? && e.t == t then [e.op] else []
  {
    assert (es + [e])[..|es|] == es;
  }

  lemma RestingCommitted(c: Config, s: State, t: nat, j: nat)
    requires QueueInv(c, s) && t < |s.threads| && s.threads[t].pc.Idle? && j < |s.g.log| && s.g.log[j].owner == t
    ensures j < s.g.committed <= |s.g.log|
  {
    hide Inv; hide Granted; hide ThreadsOk;
  }

  /** The read index thread t saw when it last read it for a batch with its state, or zero. */
  function LastRead(ss: seq<State>, es: seq<Event>, i: nat, t: nat): nat
    requires i < |ss| && i <= |es|
  {
    if i == 0 then 0
    else if es[i - 1] == Run(t) && t < |ss[i - 1].threads| && ss[i - 1].threads[t].pc.ReadHw? &&
            ss[i - 1].threads[t].pc.op.cached then ss[i - 1].g.ring.rptr
    else LastRead(ss, es, i - 1, t)
  }

  lemma StepKeepsCache(c: Config, s: State, e: Event, t: nat)
    requires Enabled(c, s, e) && t < |s.threads|
    ensures |Step(c, s, e).threads| == |s.threads|
    ensures Step(c, s, e).threads[t].cachedHw ==
            if e == Run(t) && s.threads[t].pc.ReadHw? && s.threads[t].pc.op.cached then s.g.ring.rptr
            else s.threads[t].cachedHw
  {
    hide Fits; hide NewIndex; hide Grant; hide PlacedWords; hide Execute; hide Decode; hide Window; hide Read64;
    hide Slot;
  }

  /** The cache of a state holds the latest read index read through it, and nothing else changes it. */
  lemma {:induction false} CacheIsLatest(c: Config, ss: seq<State>, es: seq<Event>, i: nat, t: nat)
    requires IsRun(c, ss, es) && i < |ss| && t < |ss[0].threads|
    ensures t < |ss[i].threads| == |ss[0].threads| && ss[i].threads[t].cachedHw == LastRead(ss, es, i, t)
  {
    hide Step; hide Enabled;
    if i > 0 {
      CacheIsLatest(c, ss, es, i - 1, t);
      StepKeepsCache(c, ss[i - 1], es[i - 1], t);
    }
  }

  /**
   The fast path: with a state, a reservation goes to its compare-and-swap without reading the
   read index exactly when the one last read through the state already leaves the room.
   */
  lemma FastPathIff(c: Config, ss: seq<State>, es: seq<Event>, i: nat, t: nat, op: Op, cur: nat)
    requires IsRun(c, ss, es) && i < |es| && t < |ss[0].threads| && t < |ss[i].threads| && es[i] == Run(t)
    requires ss[i].threads[t].pc == Test(op, cur) && ValidConfig(c)
    ensures t < |ss[i + 1].threads|
    ensures var upto, seen := NewIndex(c, cur, op), LastRead(ss, es, i, t);
            ss[i + 1].threads[t].pc ==
            if op.cached && (upto - seen) % 0x1_0000_0000_0000_0000 < c.ringBytes then Cas(op, cur, seen)
            else ReadHw(op, cur)
  {
    hide NewIndex; hide Step; hide Enabled;
    CacheIsLatest(c, ss, es, i, t);
    TestStep(c, ss[i], t, op, cur);
  }

  lemma TestStep(c: Config, s: State, t: nat, op: Op, cur: nat)
    requires Enabled(c, s, Run(t)) && t < |s.threads| && s.threads[t].pc == Test(op, cur) && ValidConfig(c)
    ensures |Step(c, s, Run(t)).threads| == |s.threads|
    ensures var upto, seen := NewIndex(c, cur, op), s.threads[t].cachedHw;
            Step(c, s, Run(t)).threads[t].pc ==
            if op.cached && (upto - seen) % 0x1_0000_0000_0000_0000 < c.ringBytes then Cas(op, cur, seen)
            else ReadHw(op, cur)
  {
    hide NewIndex;
  }

  // ---------------------------------------------------------------- the single-producer handle

  function SpBegun(es: seq<SpEvent>): seq<Op> {
    if es == [] then []
    else
      var e := es[|es| - 1];
      SpBegun(es[..|es| - 1]) + if e.SpBegin? then [e.op] else []
  }

  function SpInHand(pc: SpPc): seq<Op> { if Reserving(pc) then [pc.op] else [] }

  lemma SpStepKeepsBatches(c: Config, s: SpState, e: SpEvent)
    requires SpEnabled(c, s, e)
    ensures var n := SpStep(c, s, e);
            n.ops + SpInHand(n.pc) == s.ops + SpInHand(s.pc) + if e.SpBegin? then [e.op] else []
  {
    hide Fits; hide Wrap; hide EncodeAll; hide Execute; hide Decode; hide Window; hide Size; hide ZeroNops; hide Slot;
  }

  /** The same for the single producer: what was begun is what was reserved and what is being reserved. */
  lemma {:induction false} SpBatchesKept(c: Config, ss: seq<SpState>, es: seq<SpEvent>, i: nat)
    requires SpIsRun(c, ss, es) && i < |ss|
    ensures SpBegun(es[..i]) == ss[i].ops + SpInHand(ss[i].pc)
  {
    hide SpStep; hide SpEnabled;
    if i > 0 {
      SpBatchesKept(c, ss, es, i - 1);
      SpStepKeepsBatches(c, ss[i - 1], es[i - 1]);
      assert es[..i][..i - 1] == es[..i - 1];
    }
  }

  /** The doorbell has been rung for everything published, or is about to be. */
  predicate Rung(c: Config, s: SpState)
    requires ValidConfig(c)
  {
    match s.pc
    case PadDoorbell(_, cur) => s.doorbell <= s.ring.wptr == cur + ToEnd(c, cur)
    case OpDoorbell(op, cur) => s.doorbell <= s.ring.wptr == cur + Bytes(op.packets)
    case _ => s.doorbell == s.ring.wptr
  }

  lemma SpStepRings(c: Config, s: SpState, e: SpEvent)
    requires SpInv(c, s) && SpEnabled(c, s, e) && Rung(c, s)
    ensures Rung(c, SpStep(c, s, e))
  {
    hide Inv; hide Laid; hide Submitted; hide AllClear; hide Fits; hide Wrap; hide EncodeAll; hide Decode; hide Window;
    hide Size; hide ZeroNops; hide Slot; hide Exec; hide ValidOp;
    if e.SpRun? && (s.pc.PadWptr? || s.pc.OpWptr?) { StoringAhead(c, s); }
  }

  lemma StoringAhead(c: Config, s: SpState)
    requires SpInv(c, s) && (s.pc.PadWptr? || s.pc.OpWptr?)
    ensures ValidConfig(c) && s.ring.wptr == s.pc.cur
  {
    hide Laid; hide Submitted; hide AllClear; hide Wrap; hide Size; hide ZeroNops; hide ValidOp; hide Intact;
    hide Before; hide IndexOf; hide Ordered;
    var rs := s.ring.regions;
    assert rs[s.ring.published].base == Boundary(c, rs, s.ring.published);
  }

  /**
   Along every run of the single producer the doorbell is never ahead of wptr, and is at wptr
   whenever the producer is not just between its two stores: the engine is told of every batch.
   */
  lemma {:induction false} SpDoorbellFollows(c: Config, ss: seq<SpState>, es: seq<SpEvent>, i: nat)
    requires SpIsRun(c, ss, es) && i < |ss|
    ensures ValidConfig(c) && Rung(c, ss[i]) && ss[i].doorbell <= ss[i].ring.wptr
  {
    hide SpStep; hide SpEnabled; hide SpInv;
    SpRunKeepsInv(c, ss, es, i);
    if i > 0 {
      SpDoorbellFollows(c, ss, es, i - 1);
      SpRunKeepsInv(c, ss, es, i - 1);
      SpStepRings(c, ss[i - 1], es[i - 1]);
    }
  }
}
