/**
 The lock-free timing statistics (device path of updateTimingStats): any number of updates
 interleave their atomic adds, plain loads and compare-and-swaps. The totals are 64-bit.
 */
module TimingStats {
  import opened Holding
  import opened Modular

  datatype Phase = Start | Counted | Summed | MinLoop(seen: nat) | MinDone | MaxLoop(seen: nat) | Done

  /** One call: its sample and where it is. */
  datatype Update = Update(duration: nat, at: Phase)

  datatype Stats = Stats(count: nat, sum: nat, min: nat, max: nat)

  datatype State = State(stats: Stats, updates: seq<Update>)

  predicate Typed(v: Stats) { v.count < WORD64 && v.sum < WORD64 }

  predicate Init(init: Stats, s: State) {
    && s.stats == init && Typed(init)
    && forall i :: 0 <= i < |s.updates| ==> s.updates[i].at == Start
  }

  /** The next step of a call: the statistics and the phase after it. */
  function Act(v: Stats, u: Update): (Stats, Phase) {
    match u.at
    case Start => (v.(count := (v.count + 1) % WORD64), Counted)
    case Counted => (v.(sum := (v.sum + u.duration) % WORD64), Summed)
    case Summed => (v, MinLoop(v.min))
    case MinLoop(seen) =>
      if u.duration >= seen then (v, MinDone)
      else if v.min == seen then (v.(min := u.duration), MinDone)
      else (v, MinLoop(v.min))
    case MinDone => (v, MaxLoop(v.max))
    case MaxLoop(seen) =>
      if u.duration <= seen then (v, Done)
      else if v.max == seen then (v.(max := u.duration), Done)
      else (v, MaxLoop(v.max))
    case Done => (v, Done)
  }

  function Step(s: State, i: nat): State
    requires i < |s.updates|
  {
    var u := s.updates[i];
    var (v, at) := Act(s.stats, u);
    State(v, s.updates[i := u.(at := at)])
  }

  // ---------------------------------------------------------------- invariant

  /** What is added up. */
  datatype Added = Calls | Durations

  function Adds(u: Update, what: Added): nat {
    match what
    case Calls => One(u.at != Start)
    case Durations => if u.at == Start || u.at == Counted then 0 else u.duration
  }

  predicate SumsOk(init: Stats, s: State, calls: nat, durations: nat) {
    s.stats.count == (init.count + calls) % WORD64 && s.stats.sum == (init.sum + durations) % WORD64
  }

  predicate PastMin(p: Phase) { p == MinDone || p.MaxLoop? || p == Done }

  /** A call past its loop is accounted for; one inside has seen a value not below min. */
  predicate UpdateOk(v: Stats, u: Update) {
    && (PastMin(u.at) ==> v.min <= u.duration)
    && (u.at == Done ==> v.max >= u.duration)
    && (u.at.MinLoop? ==> u.at.seen >= v.min)
    && (u.at.MaxLoop? ==> u.at.seen <= v.max)
  }

  predicate Attained(x: nat, start: nat, us: seq<Update>) {
    x == start || exists i :: 0 <= i < |us| && us[i].duration == x
  }

  ghost predicate Inv(init: Stats, s: State) {
    && SumsOk(init, s, Total(s.updates, Adds, Calls), Total(s.updates, Adds, Durations))
    && s.stats.min <= init.min && s.stats.max >= init.max
    && Attained(s.stats.min, init.min, s.updates) && Attained(s.stats.max, init.max, s.updates)
    && forall i :: 0 <= i < |s.updates| ==> UpdateOk(s.stats, s.updates[i])
  }

  /** min only falls and max only rises, towards samples. */
  lemma ActMoves(v: Stats, u: Update)
    requires UpdateOk(v, u)
    ensures var (n, at) := Act(v, u);
            && n.min <= v.min && n.max >= v.max
            && (n.min == v.min || n.min == u.duration) && (n.max == v.max || n.max == u.duration)
            && UpdateOk(n, u.(at := at))
  {
  }

  lemma ActAdds(v: Stats, u: Update)
    ensures var (n, at) := Act(v, u);
            && n.count == (if u.at == Start then (v.count + 1) % WORD64 else v.count)
            && n.sum == (if u.at == Counted then (v.sum + u.duration) % WORD64 else v.sum)
            && Adds(u.(at := at), Calls) == Adds(u, Calls) + One(u.at == Start)
            && Adds(u.(at := at), Durations) == Adds(u, Durations) + if u.at == Counted then u.duration else 0
  {
  }

  lemma AttainedStays(x: nat, start: nat, us: seq<Update>, i: nat, at: Phase)
    requires i < |us| && Attained(x, start, us)
    ensures Attained(x, start, us[i := us[i].(at := at)])
    ensures Attained(us[i].duration, start, us[i := us[i].(at := at)])
  {
    var ns := us[i := us[i].(at := at)];
    assert ns[i].duration == us[i].duration;
    if x != start {
      var k :| 0 <= k < |us| && us[k].duration == x;
      assert ns[k].duration == x;
    }
  }

  lemma StepPreserves(init: Stats, s: State, i: nat)
    requires Inv(init, s) && i < |s.updates|
    ensures Inv(init, Step(s, i))
  {
    hide Act; hide Total; hide Adds; hide Attained; hide UpdateOk;
    var n := Step(s, i);
    ActMoves(s.stats, s.updates[i]);
    ActAdds(s.stats, s.updates[i]);
    TotalUpdate(s.updates, Adds, Calls, i, n.updates[i]);
    TotalUpdate(s.updates, Adds, Durations, i, n.updates[i]);
    AttainedStays(s.stats.min, init.min, s.updates, i, n.updates[i].at);
    AttainedStays(s.stats.max, init.max, s.updates, i, n.updates[i].at);
    UpdatesStay(s.stats, n.stats, s.updates, n.updates, i);
  }

  lemma UpdatesStay(v: Stats, n: Stats, us: seq<Update>, ns: seq<Update>, i: nat)
    requires i < |us| == |ns| && UpdateOk(n, ns[i]) && n.min <= v.min && n.max >= v.max
    requires forall j :: 0 <= j < |us| ==> UpdateOk(v, us[j])
    requires forall j :: 0 <= j < |us| && j != i ==> ns[j] == us[j]
    ensures forall j :: 0 <= j < |ns| ==> UpdateOk(n, ns[j])
  {
    hide UpdateOk;
    forall j | 0 <= j < |ns|
      ensures UpdateOk(n, ns[j])
    {
      if j != i { Monotone(v, n, us[j]); }
    }
  }

  lemma Monotone(v: Stats, n: Stats, u: Update)
    requires UpdateOk(v, u) && n.min <= v.min && n.max >= v.max
    ensures UpdateOk(n, u)
  {
  }

  ghost predicate IsRun(init: Stats, ss: seq<State>, es: seq<nat>) {
    && |ss| == |es| + 1 && Init(init, ss[0])
    && forall i :: 0 <= i < |es| ==> es[i] < |ss[i].updates| && ss[i + 1] == Step(ss[i], es[i])
  }

  lemma {:induction false} RunKeepsInv(init: Stats, ss: seq<State>, es: seq<nat>, i: nat)
    requires IsRun(init, ss, es) && i < |ss|
    ensures Inv(init, ss[i])
  {
    if i == 0 {
      TotalNone(ss[0].updates, Adds, Calls);
      TotalNone(ss[0].updates, Adds, Durations);
    } else {
      hide Inv; hide Step;
      RunKeepsInv(init, ss, es, i - 1);
      StepPreserves(init, ss[i - 1], es[i - 1]);
    }
  }

  // ---------------------------------------------------------------- results

  function SumOf(us: seq<Update>): nat {
    if us == [] then 0 else us[0].duration + SumOf(us[1..])
  }

  lemma {:induction false} AllAdded(us: seq<Update>)
    requires forall i :: 0 <= i < |us| ==> us[i].at == Done
    ensures Total(us, Adds, Calls) == |us| && Total(us, Adds, Durations) == SumOf(us)
  {
    if us != [] { AllAdded(us[1..]); }
  }

  /**
   Once every call has finished, whatever the interleaving, the statistics are those of the
   samples and the initial values: count and sum modulo 2^64, the least and the greatest.
   */
  lemma FinalStats(init: Stats, ss: seq<State>, es: seq<nat>, i: nat)
    requires IsRun(init, ss, es) && i < |ss|
    requires forall k :: 0 <= k < |ss[i].updates| ==> ss[i].updates[k].at == Done
    ensures var v, us := ss[i].stats, ss[i].updates;
            && v.count == (init.count + |us|) % WORD64 && v.sum == (init.sum + SumOf(us)) % WORD64
            && v.min <= init.min && Attained(v.min, init.min, us)
            && (forall k :: 0 <= k < |us| ==> v.min <= us[k].duration)
            && v.max >= init.max && Attained(v.max, init.max, us)
            && (forall k :: 0 <= k < |us| ==> v.max >= us[k].duration)
  {
    hide IsRun;
    RunKeepsInv(init, ss, es, i);
    AllAdded(ss[i].updates);
    forall k | 0 <= k < |ss[i].updates|
      ensures ss[i].stats.min <= ss[i].updates[k].duration <= ss[i].stats.max
    {
      assert UpdateOk(ss[i].stats, ss[i].updates[k]);
    }
  }

  /**
   Along every run a compare-and-swap that fails hands back a value strictly nearer to the
   sample, and one that succeeds leaves the loop: the loops end under any interference.
   */
  lemma RetryCloser(init: Stats, ss: seq<State>, es: seq<nat>, i: nat)
    requires IsRun(init, ss, es) && i < |es|
    ensures var u, n := ss[i].updates[es[i]], ss[i + 1].updates[es[i]];
            && (u.at.MinLoop? && n.at.MinLoop? ==> n.at.seen < u.at.seen)
            && (u.at.MaxLoop? && n.at.MaxLoop? ==> n.at.seen > u.at.seen && u.duration > u.at.seen)
            && (u.at.MinLoop? ==> n.at.MinLoop? || n.at == MinDone)
            && (u.at.MaxLoop? ==> n.at.MaxLoop? || n.at == Done)
  {
    RunKeepsInv(init, ss, es, i);
    assert UpdateOk(ss[i].stats, ss[i].updates[es[i]]);
  }

  /** How many stages a call has before it. */
  function StagesLeft(at: Phase): nat {
    match at
    case Start => 6
    case Counted => 5
    case Summed => 4
    case MinLoop(_) => 3
    case MinDone => 2
    case MaxLoop(_) => 1
    case Done => 0
  }

  /** How far the value a loop has seen is from the sample. */
  function Distance(u: Update): nat {
    match u.at
    case MinLoop(seen) => if u.duration < seen then seen - u.duration else 0
    case MaxLoop(seen) => if u.duration > seen then u.duration - seen else 0
    case _ => 0
  }

  /**
   Termination under any interference: every step of a call that is not done takes it to a
   later stage, or in a loop strictly nearer to the sample; and no step moves another call.
   */
  lemma EveryStepAdvances(init: Stats, ss: seq<State>, es: seq<nat>, i: nat, j: nat)
    requires IsRun(init, ss, es) && i < |es| && j < |ss[i].updates|
    ensures |ss[i + 1].updates| == |ss[i].updates|
    ensures var u, n := ss[i].updates[j], ss[i + 1].updates[j];
            && n.duration == u.duration && (j != es[i] ==> n == u)
            && (j == es[i] && u.at != Done ==>
                  StagesLeft(n.at) < StagesLeft(u.at) ||
                  (StagesLeft(n.at) == StagesLeft(u.at) && Distance(n) < Distance(u)))
  {
    RunKeepsInv(init, ss, es, i);
    assert UpdateOk(ss[i].stats, ss[i].updates[j]);
  }

  /** The state after n steps of call i alone. */
  function Alone(s: State, i: nat, n: nat): (r: State)
    requires i < |s.updates|
    ensures |r.updates| == |s.updates|
    decreases n
  {
    if n == 0 then s else Alone(Step(s, i), i, n - 1)
  }

  /** Left alone, a call is done after at most eight steps, from wherever it is. */
  lemma FinishesAlone(s: State, i: nat)
    requires i < |s.updates|
    ensures Alone(s, i, 8).updates[i].at == Done
  {
    AloneFrom(s, i, 8);
  }

  /** Steps a call needs at most when left alone: a loop may have to read its value again. */
  function StepsLeft(at: Phase): nat {
    match at
    case Start => 8
    case Counted => 7
    case Summed => 6
    case MinLoop(_) => 5
    case MinDone => 3
    case MaxLoop(_) => 2
    case Done => 0
  }

  lemma {:induction false} AloneFrom(s: State, i: nat, n: nat)
    requires i < |s.updates|
    requires var u := s.updates[i];
             n >= StepsLeft(u.at) - (if u.at == MinLoop(s.stats.min) || u.at == MaxLoop(s.stats.max) then 1 else 0)
    ensures Alone(s, i, n).updates[i].at == Done
    decreases n
  {
    if n > 0 { AloneFrom(Step(s, i), i, n - 1); }
  }
}
