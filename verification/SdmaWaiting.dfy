/**
 When the polling calls of the multi-producer queue return: waitSignal exactly once enough
 increments have been run, quietAll exactly once the batches it waits for have been run, and
 both can always be brought to return by what is already under way.
 */
module SdmaWaiting {
  import opened SdmaPackets
  import opened SdmaRing
  import opened SdmaQueue
  import opened SdmaQueueRuns
  import opened SdmaCompletion

  // ---------------------------------------------------------------- waitSignal

  /** The signal at a holds the number of increments run. */
  predicate Counts(r: Ring, a: int) { Read64(r.mem, a) == CountSignals(r.executed, a) % 0x1_0000_0000_0000_0000 }

  lemma WaitStep(c: Config, s: State, t: nat, a: int, n: nat)
    requires QueueInv(c, s) && t < |s.threads| && s.threads[t].pc == Await(a, n)
    requires Counts(s.g.ring, a) && CountSignals(s.g.ring.executed, a) < 0x1_0000_0000_0000_0000
    ensures Enabled(c, s, Run(t))
    ensures Step(c, s, Run(t)).threads[t].pc.Idle? <==> CountSignals(s.g.ring.executed, a) >= n
    ensures CountSignals(s.g.ring.executed, a) < n ==> Step(c, s, Run(t)) == s
  {
    hide Inv; hide Granted; hide ThreadsOk; hide CountSignals; hide Read64;
    RunEnabled(c, s, t);
    assert s.threads[t := s.threads[t]] == s.threads;
  }

  /**
   waitSignal(a, n) returns on its next step exactly when at least n of the packets run have
   incremented the signal, and otherwise polls on: along every run in which the signal starts
   at zero and is changed by nothing but the batches of this queue, one increment at a time.
   */
  lemma WaitIff(c: Config, ss: seq<State>, es: seq<Event>, i: nat, t: nat, a: int, n: nat)
    requires IsRun(c, ss, es) && i < |ss| && Read64(ss[0].g.ring.mem, a) == 0
    requires forall k :: 0 <= k < |es| && es[k].Outside? ==> es[k].a < a || a + 8 <= es[k].a
    requires AllDisciplined(ss[i].g.ring.regions, a) && t < |ss[i].threads| && ss[i].threads[t].pc == Await(a, n)
    requires CountSignals(ss[i].g.ring.executed, a) < 0x1_0000_0000_0000_0000
    ensures WaitReturns(c, ss[i], t, a, n) <==> CountSignals(ss[i].g.ring.executed, a) >= n
    ensures CountSignals(ss[i].g.ring.executed, a) < n ==>
              Enabled(c, ss[i], Run(t)) && Step(c, ss[i], Run(t)) == ss[i]
  {
    hide QueueInv; hide CountSignals; hide Read64; hide AllDisciplined; hide Step; hide Enabled;
    SignalCounts(c, ss, es, a, i);
    RunKeepsInv(c, ss, es, i);
    WaitStep(c, ss[i], t, a, n);
  }

  /** Steps of producers and of the engine keep the signal at the number of increments run. */
  lemma {:induction false} CountsStay(c: Config, s: State, es: seq<Event>, n: State, a: int)
    requires QueueInv(c, s) && Leads(c, s, es, n) && Counts(s.g.ring, a)
    requires forall k :: 0 <= k < |es| ==> es[k].Run? || es[k].Engine?
    requires AllDisciplined(n.g.ring.regions, a)
    ensures Counts(n.g.ring, a) && AllDisciplined(s.g.ring.regions, a)
    decreases |es|
  {
    hide QueueInv; hide Step; hide Enabled; hide CountSignals; hide Read64; hide AllDisciplined;
    if es != [] {
      var m := Step(c, s, es[0]);
      StepPreserves(c, s, es[0]);
      StepGrows(c, s, es[0]);
      LeadsGrow(c, m, es[1..], n);
      PrefixDisciplined(m.g.ring.regions, n.g.ring.regions, a);
      PrefixDisciplined(s.g.ring.regions, m.g.ring.regions, a);
      StepMemory(c, s, es[0], a);
      CountsStay(c, m, es[1..], n, a);
    }
  }

  lemma {:induction false} LeadsGrow(c: Config, s: State, es: seq<Event>, n: State)
    requires QueueInv(c, s) && Leads(c, s, es, n)
    ensures s.g.ring.regions <= n.g.ring.regions
    decreases |es|
  {
    hide QueueInv; hide Step; hide Enabled;
    if es != [] {
      StepPreserves(c, s, es[0]);
      StepGrows(c, s, es[0]);
      LeadsGrow(c, Step(c, s, es[0]), es[1..], n);
    }
  }

  /** An engine that has caught up with everything reserved has run all of it. */
  lemma DrainedRan(c: Config, s: State)
    requires QueueInv(c, s) && s.g.ring.rptr == s.g.ring.limit
    ensures s.g.ring.region == |s.g.ring.regions| && s.g.ring.executed == Flatten(s.g.ring.regions)
  {
    hide Granted; hide ThreadsOk; hide Intact; hide Size; hide IndexOf; hide Flatten;
    var r := s.g.ring;
    if r.regions != [] { ConsumedIff(c, r, |r.regions| - 1); }
    assert r.regions[..|r.regions|] == r.regions;
  }

  /**
   Progress: once n increments of the signal are reserved, what is under way can bring
   waitSignal(a, n) to return, without anything new being reserved.
   */
  lemma WaitCanReturn(c: Config, ss: seq<State>, es: seq<Event>, i: nat, t: nat, a: int, n: nat)
    returns (fs: seq<Event>, s': State)
    requires IsRun(c, ss, es) && i < |ss| && Read64(ss[0].g.ring.mem, a) == 0
    requires forall k :: 0 <= k < |es| && es[k].Outside? ==> es[k].a < a || a + 8 <= es[k].a
    requires AllDisciplined(ss[i].g.ring.regions, a) && t < |ss[i].threads| && ss[i].threads[t].pc == Await(a, n)
    requires n <= CountSignals(Flatten(ss[i].g.ring.regions), a) < 0x1_0000_0000_0000_0000
    ensures Leads(c, ss[i], fs, s') && s'.g.log == ss[i].g.log && WaitReturns(c, s', t, a, n)
    ensures forall k :: 0 <= k < |fs| ==> fs[k].Run? || fs[k].Engine?
  {
    hide IsRun; hide QueueInv; hide CountSignals; hide Read64; hide AllDisciplined; hide Step; hide Enabled; hide Leads;
    hide Flatten;
    assert Counts(ss[i].g.ring, a) by { SignalCounts(c, ss, es, a, i); }
    RunKeepsInv(c, ss, es, i);
    fs, s' := CanDrain(c, ss[i]);
    DrainedRan(c, s');
    CountsStay(c, ss[i], fs, s', a);
    WaitStep(c, s', t, a, n);
  }

  // ---------------------------------------------------------------- quietAll

  /** Thread t has been polling in quietAll since event i, where it began. */
  ghost predicate Polls(ss: seq<State>, es: seq<Event>, i: nat, k: nat, t: nat, viaState: bool) {
    && i < k < |ss| == |es| + 1 && es[i] == BeginQuiet(t, viaState)
    && forall m :: i < m <= k ==> t < |ss[m].threads| && ss[m].threads[t].pc.Quiet?
  }

  lemma QuietStays(c: Config, s: State, e: Event, t: nat)
    requires Enabled(c, s, e) && t < |s.threads| && s.threads[t].pc.Quiet?
    ensures t < |Step(c, s, e).threads|
    ensures Step(c, s, e).threads[t].pc.Quiet? ==> Step(c, s, e).threads[t].pc == s.threads[t].pc
  {
    hide Execute; hide Grant; hide NewIndex; hide PlacedWords; hide Slot; hide Fits;
  }

  /** What quietAll waits for is fixed when it begins. */
  lemma {:induction false} TargetFixed(c: Config, ss: seq<State>, es: seq<Event>, i: nat, k: nat, t: nat,
                                       viaState: bool)
    requires IsRun(c, ss, es) && Polls(ss, es, i, k, t, viaState)
    ensures t < |ss[i].threads|
    ensures ss[k].threads[t].pc ==
            Quiet(if viaState then ss[i].threads[t].maxWrite else ss[i].g.ring.wptr, viaState)
    decreases k
  {
    if k == i + 1 {
      assert Enabled(c, ss[i], es[i]);
    } else {
      hide Step; hide Enabled;
      TargetFixed(c, ss, es, i, k - 1, t, viaState);
      QuietStays(c, ss[k - 1], es[k - 1], t);
    }
  }

  lemma QuietStep(c: Config, s: State, t: nat)
    requires QueueInv(c, s) && t < |s.threads| && s.threads[t].pc.Quiet?
    ensures Enabled(c, s, Run(t))
    ensures QuietReturns(c, s, t) <==> s.threads[t].pc.target <= s.g.ring.rptr
  {
    hide Inv; hide Granted; hide ThreadsOk;
    RunEnabled(c, s, t);
  }

  /** A boundary of regions reserved earlier is reached exactly when the regions before it have run. */
  lemma ReachedIff(c: Config, old': seq<Region>, r: Ring, p: nat)
    requires Inv(c, r) && old' <= r.regions && p <= |old'|
    ensures Boundary(c, old', p) <= r.rptr <==> p <= r.region
  {
    hide Size; hide Intact; hide Before; hide IndexOf;
    if p > 0 {
      ConsumedIff(c, r, p - 1);
    } else {
      PositionAhead(c, r);
    }
  }

  lemma PositionAhead(c: Config, r: Ring)
    requires Inv(c, r)
    ensures c.start <= r.rptr
  {
    hide Size; hide Intact; hide Before;
    if r.region > 0 { BoundaryMonotone(c, r.regions, 0, r.region); }
  }

  /** quietAll without a state returns exactly when everything published at its beginning has run. */
  lemma QuietIff(c: Config, ss: seq<State>, es: seq<Event>, i: nat, k: nat, t: nat)
    requires IsRun(c, ss, es) && Polls(ss, es, i, k, t, false)
    ensures QuietReturns(c, ss[k], t) <==> ss[i].g.ring.published <= ss[k].g.ring.region
  {
    hide IsRun; hide Step; hide Enabled; hide QuietReturns;
    TargetFixed(c, ss, es, i, k, t, false);
    RunKeepsInv(c, ss, es, i);
    RunKeepsInv(c, ss, es, k);
    PointersGrow(c, ss, es, i, k);
    hide ThreadsOk; hide Granted; hide Intact; hide Size; hide Before; hide IndexOf; hide Boundary;
    QuietStep(c, ss[k], t);
    ReachedIff(c, ss[i].g.ring.regions, ss[k].g.ring, ss[i].g.ring.published);
  }

  /** maxWritePtr is the end of a submission of the thread that was given its state, if there is one. */
  predicate MaxIsEnd(g: Shared, t: nat, th: Thread)
    requires |g.log| == |g.ring.regions| && g.committed <= |g.log|
  {
    th.maxWrite == 0 ||
    exists j :: 0 <= j < g.committed && g.log[j].owner == t && g.log[j].op.tracked &&
                End(g.ring.regions[j]) == th.maxWrite
  }

  lemma MaxKept(c: Config, s: State, e: Event, t: nat)
    requires Enabled(c, s, e) && t < |s.threads|
    ensures |Step(c, s, e).threads| == |s.threads| && s.g.committed <= Step(c, s, e).g.committed
    ensures !(e == Run(t) && s.threads[t].pc.StoreCommitted?) ==>
              Step(c, s, e).threads[t].maxWrite == s.threads[t].maxWrite
  {
    hide Execute; hide Grant; hide NewIndex; hide PlacedWords; hide Slot; hide Fits; hide Read64;
  }

  /** submitPacket records the end of its reservation. */
  lemma CommitRecords(c: Config, s: State, t: nat, op: Op, j: nat, base: nat)
    requires QueueInv(c, s) && t < |s.threads| && s.threads[t].pc == StoreCommitted(op, j, base)
    ensures Enabled(c, s, Run(t)) && Step(c, s, Run(t)).g.committed == j + 1
    ensures j < |s.g.log| && s.g.log[j] == Entry(t, op) && j < |s.g.ring.regions|
    ensures op.tracked ==> Step(c, s, Run(t)).threads[t].maxWrite == End(s.g.ring.regions[j])
    ensures !op.tracked ==> Step(c, s, Run(t)).threads[t].maxWrite == s.threads[t].maxWrite
  {
    hide QueueInv; hide NewIndex; hide End;
    HeldEnd(c, s, t, op, j, base);
    RunEnabled(c, s, t);
  }

  lemma HeldEnd(c: Config, s: State, t: nat, op: Op, j: nat, base: nat)
    requires QueueInv(c, s) && t < |s.threads| && s.threads[t].pc == StoreCommitted(op, j, base)
    ensures ValidConfig(c) && j == s.g.committed < |s.g.log| && s.g.log[j] == Entry(t, op)
    ensures j < |s.g.ring.regions| && End(s.g.ring.regions[j]) == NewIndex(c, base, op)
  {
    hide Intact; hide MemoryOk; hide Size; hide Before; hide IndexOf; hide Pad; hide Grant; hide ValidOp; hide NewIndex;
    hide Ordered; hide Chained;
    assert PcOk(c, s.g, t, s.threads[t]);
    PadFacts(c, base, op);
  }

  lemma MaxStep(c: Config, s: State, e: Event, t: nat)
    requires QueueInv(c, s) && Enabled(c, s, e) && t < |s.threads| && MaxIsEnd(s.g, t, s.threads[t])
    ensures QueueInv(c, Step(c, s, e)) && t < |Step(c, s, e).threads|
    ensures MaxIsEnd(Step(c, s, e).g, t, Step(c, s, e).threads[t])
  {
    hide Inv; hide Granted; hide ThreadsOk; hide Step; hide Enabled; hide End;
    StepPreserves(c, s, e);
    StepGrows(c, s, e);
    MaxKept(c, s, e, t);
    var n := Step(c, s, e);
    if e == Run(t) && s.threads[t].pc.StoreCommitted? {
      var StoreCommitted(op, j, base) := s.threads[t].pc;
      CommitRecords(c, s, t, op, j, base);
    }
    if n.threads[t].maxWrite != 0 {
      var j := if n.threads[t].maxWrite != s.threads[t].maxWrite then s.threads[t].pc.ticket else
                 var k :| 0 <= k < s.g.committed && s.g.log[k].owner == t && s.g.log[k].op.tracked &&
                          End(s.g.ring.regions[k]) == s.threads[t].maxWrite; k;
      assert 0 <= j < n.g.committed && n.g.log[j] == s.g.log[j] && n.g.ring.regions[j] == s.g.ring.regions[j];
    }
  }

  lemma {:induction false} RunMax(c: Config, ss: seq<State>, es: seq<Event>, i: nat, t: nat)
    requires IsRun(c, ss, es) && i < |ss| && t < |ss[0].threads|
    ensures QueueInv(c, ss[i]) && t < |ss[i].threads| && MaxIsEnd(ss[i].g, t, ss[i].threads[t])
  {
    hide QueueInv; hide Step; hide Enabled; hide MaxIsEnd;
    if i == 0 {
      RunKeepsInv(c, ss, es, 0);
      assert MaxIsEnd(ss[0].g, t, ss[0].threads[t]) by { StartMax(c, ss[0], t); }
    } else {
      RunMax(c, ss, es, i - 1, t);
      MaxStep(c, ss[i - 1], es[i - 1], t);
    }
  }

  lemma StartMax(c: Config, s: State, t: nat)
    requires Init(c, s) && t < |s.threads| && QueueInv(c, s)
    ensures MaxIsEnd(s.g, t, s.threads[t])
  {
    hide QueueInv;
  }

  lemma {:induction false} SameThreadCount(c: Config, ss: seq<State>, es: seq<Event>, i: nat)
    requires IsRun(c, ss, es) && i < |ss|
    ensures |ss[i].threads| == |ss[0].threads|
  {
    hide Step; hide Enabled;
    if i > 0 {
      SameThreadCount(c, ss, es, i - 1);
      ThreadsStay(c, ss[i - 1], es[i - 1]);
    }
  }

  lemma ThreadsStay(c: Config, s: State, e: Event)
    requires Enabled(c, s, e)
    ensures |Step(c, s, e).threads| == |s.threads|
  {
    hide RunThread; hide Execute; hide CanRun;
  }

  /** The batches thread t had committed with its state before s have run in r. */
  predicate TrackedRan(g: Shared, t: nat, r: Ring) {
    forall j :: 0 <= j < g.committed <= |g.log| && g.log[j].owner == t && g.log[j].op.tracked ==> j < r.region
  }

  /** The end recorded for a thread is reached exactly when its tracked batches have run. */
  lemma MaxReachedIff(c: Config, s: State, t: nat, r: Ring)
    requires QueueInv(c, s) && t < |s.threads| && MaxIsEnd(s.g, t, s.threads[t])
    requires Inv(c, r) && s.g.ring.regions <= r.regions
    ensures s.threads[t].maxWrite <= r.rptr <==> TrackedRan(s.g, t, r)
  {
    hide Inv; hide Granted; hide Size; hide PcOk; hide End;
    var g, max := s.g, s.threads[t].maxWrite;
    assert MemoryOk(g, t, s.threads[t]);
    if max <= r.rptr {
      forall j | 0 <= j < g.committed && g.log[j].owner == t && g.log[j].op.tracked
        ensures j < r.region
      {
        ConsumedIff(c, r, j);
      }
    } else if TrackedRan(g, t, r) {
      var j :| 0 <= j < g.committed && g.log[j].owner == t && g.log[j].op.tracked && End(g.ring.regions[j]) == max;
      ConsumedIff(c, r, j);
      assert false;
    }
  }

  /** quietAll through a state returns exactly when the thread's batches submitted with it have run. */
  lemma QuietStateIff(c: Config, ss: seq<State>, es: seq<Event>, i: nat, k: nat, t: nat)
    requires IsRun(c, ss, es) && Polls(ss, es, i, k, t, true)
    ensures QuietReturns(c, ss[k], t) <==> TrackedRan(ss[i].g, t, ss[k].g.ring)
  {
    hide Step; hide Enabled; hide QuietReturns; hide QueueInv; hide MaxIsEnd; hide TrackedRan; hide Inv;
    TargetFixed(c, ss, es, i, k, t, true);
    SameThreadCount(c, ss, es, i);
    RunMax(c, ss, es, i, t);
    RunKeepsInv(c, ss, es, k);
    PointersGrow(c, ss, es, i, k);
    QuietStep(c, ss[k], t);
    InvOf(c, ss[k]);
    MaxReachedIff(c, ss[i], t, ss[k].g.ring);
  }

  lemma InvOf(c: Config, s: State)
    requires QueueInv(c, s)
    ensures Inv(c, s.g.ring)
  {
    hide Inv; hide Granted; hide ThreadsOk;
  }

  /** Progress: what is under way can bring quietAll to return, without anything new being reserved. */
  lemma QuietCanReturn(c: Config, ss: seq<State>, es: seq<Event>, i: nat, k: nat, t: nat, viaState: bool)
    returns (fs: seq<Event>, s': State)
    requires IsRun(c, ss, es) && Polls(ss, es, i, k, t, viaState)
    ensures Leads(c, ss[k], fs, s') && s'.g.log == ss[k].g.log && QuietReturns(c, s', t)
    ensures forall j :: 0 <= j < |fs| ==> fs[j].Run? || fs[j].Engine?
  {
    hide Step; hide Enabled; hide QuietReturns; hide QueueInv; hide Leads; hide MaxIsEnd;
    TargetFixed(c, ss, es, i, k, t, viaState);
    SameThreadCount(c, ss, es, i);
    RunMax(c, ss, es, i, t);
    RunKeepsInv(c, ss, es, k);
    PointersGrow(c, ss, es, i, k);
    TargetsBelow(c, ss[i], t);
    fs, s' := CanDrain(c, ss[k]);
    QuietStep(c, s', t);
  }

  lemma TargetsBelow(c: Config, s: State, t: nat)
    requires QueueInv(c, s) && t < |s.threads| && MaxIsEnd(s.g, t, s.threads[t])
    ensures s.threads[t].maxWrite <= s.g.ring.limit && s.g.ring.wptr <= s.g.ring.limit
  {
    hide Granted; hide ThreadsOk; hide Size; hide Intact; hide Before; hide IndexOf;
    PointersOrdered(c, s.g.ring);
    if s.threads[t].maxWrite != 0 {
      var j :| 0 <= j < s.g.committed && End(s.g.ring.regions[j]) == s.threads[t].maxWrite;
      BoundaryMonotone(c, s.g.ring.regions, j + 1, |s.g.ring.regions|);
    }
  }
}
