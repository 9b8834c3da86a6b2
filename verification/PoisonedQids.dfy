/**
 The poisoned-QID tracker of the kernel module: probes that mark a queue as hijacked
 (poisoned_qid_mark_created) or deleted (poisoned_qid_mark_deleted), and the delayed worker
 that hands deleted queues over for resurrection (first phase of rocm_xio_resurrect_work_fn).

 QidTracker holds the list and runs the bodies of the critical sections, loops included;
 the state machine below interleaves those critical sections, for any number of probes.
 */
module PoisonedQids {
  import opened KernelList

  datatype Key = Key(bdf: nat, qid: nat)

  datatype Entry = Entry(key: Key, created: bool, needs: bool)

  function ForKey(key: Key): Entry -> bool { (e: Entry) => e.key == key }

  /** Index of the first entry for a key, or the length of the list. */
  function First(es: seq<Entry>, key: Key): nat { FirstMatch(es, ForKey(key)) }

  predicate Tracked(es: seq<Entry>, key: Key) { First(es, key) < |es| }

  function SetCreated(es: seq<Entry>, key: Key): seq<Entry> {
    var i := First(es, key);
    if i < |es| then es[i := es[i].(created := true)] else es
  }

  /** The second critical section of mark_created: re-check, else insert at the head. */
  function Recheck(es: seq<Entry>, key: Key): seq<Entry> {
    if Tracked(es, key) then SetCreated(es, key) else [Entry(key, true, false)] + es
  }

  /** Whether mark_deleted finds a hijacked queue and schedules the worker. */
  predicate Hijacked(es: seq<Entry>, key: Key) {
    var i := First(es, key);
    i < |es| && es[i].created
  }

  function SetNeeds(es: seq<Entry>, key: Key): seq<Entry> {
    if Hijacked(es, key) then es[First(es, key) := es[First(es, key)].(needs := true)] else es
  }

  /** One list entry under the sweep; got says whether its clone could be allocated. */
  function SweepOne(e: Entry, got: bool): Entry {
    if e.needs && got then e.(needs := false, created := false) else e
  }

  function Swept(es: seq<Entry>, got: seq<bool>): (r: seq<Entry>)
    requires |got| == |es|
    ensures |r| == |es|
  {
    seq(|es|, i requires 0 <= i < |es| => SweepOne(es[i], got[i]))
  }

  /** The keys cloned onto to_resurrect, in list order. */
  function Clones(es: seq<Entry>, got: seq<bool>): seq<Key>
    requires |got| == |es|
  {
    if es == [] then []
    else (if es[0].needs && got[0] then [es[0].key] else []) + Clones(es[1..], got[1..])
  }

  predicate OutOfMemory(es: seq<Entry>, got: seq<bool>)
    requires |got| == |es|
  {
    exists i :: 0 <= i < |es| && es[i].needs && !got[i]
  }

  // ---------------------------------------------------------------- the critical sections

  class QidTracker {
    var entries: seq<Entry>

    constructor ()
      ensures entries == []
    {
      entries := [];
    }

    /** First critical section of mark_created. */
    method MarkIfTracked(key: Key) returns (found: bool)
      modifies this
      ensures found == Tracked(old(entries), key)
      ensures entries == SetCreated(old(entries), key)
    {
      var i := Find(entries, ForKey(key));
      found := i < |entries|;
      if found {
        entries := entries[i := entries[i].(created := true)];
      }
    }

    /** Second critical section of mark_created, with the freshly allocated entry. */
    method RecheckAndInsert(key: Key)
      modifies this
      ensures entries == Recheck(old(entries), key)
    {
      var found := MarkIfTracked(key);
      if !found {
        entries := [Entry(key, true, false)] + entries;
      }
    }

    /** The critical section of mark_deleted. */
    method MarkDeleted(key: Key) returns (schedule: bool)
      modifies this
      ensures schedule == Hijacked(old(entries), key)
      ensures entries == SetNeeds(old(entries), key)
    {
      schedule := false;
      var i := Find(entries, ForKey(key));
      if i < |entries| && entries[i].created {
        entries := entries[i := entries[i].(needs := true)];
        schedule := true;
      }
    }

    /** The first phase of the worker; got is the outcome of each clone allocation. */
    method Sweep(got: seq<bool>) returns (clones: seq<Key>, oom: bool)
      requires |got| == |entries|
      modifies this
      ensures entries == Swept(old(entries), got)
      ensures clones == Clones(old(entries), got)
      ensures oom == OutOfMemory(old(entries), got)
    {
      hide Clones; hide Swept;
      ghost var es := entries;
      clones, oom := [], false;
      var i := 0;
      SweepStart(es, got);
      while i < |entries|
        invariant i <= |entries| == |es|
        invariant entries == Swept(es[..i], got[..i]) + es[i..]
        invariant clones == Clones(es[..i], got[..i])
        invariant oom == exists j :: 0 <= j < i && es[j].needs && !got[j]
      {
        SweepNext(es, got, i);
        if entries[i].needs {
          if !got[i] {
            oom := true;
          } else {
            clones := clones + [entries[i].key];
            entries := entries[i := entries[i].(needs := false, created := false)];
          }
        }
        i := i + 1;
      }
      assert es[..i] == es && got[..i] == got && es[i..] == [];
    }
  }

  lemma SweepStart(es: seq<Entry>, got: seq<bool>)
    requires |got| == |es|
    ensures es == Swept(es[..0], got[..0]) + es[0..]
    ensures Clones(es[..0], got[..0]) == []
  {
  }

  /** One iteration of the sweep extends the swept prefix by one entry. */
  lemma SweepNext(es: seq<Entry>, got: seq<bool>, i: nat)
    requires |got| == |es| && i < |es|
    ensures (Swept(es[..i], got[..i]) + es[i..])[i] == es[i]
    ensures (Swept(es[..i], got[..i]) + es[i..])[i := SweepOne(es[i], got[i])] ==
            Swept(es[..i + 1], got[..i + 1]) + es[i + 1..]
    ensures Clones(es[..i + 1], got[..i + 1]) ==
            Clones(es[..i], got[..i]) + if es[i].needs && got[i] then [es[i].key] else []
  {
    ClonesAppend(es[..i], got[..i], es[i], got[i]);
    assert es[..i] + [es[i]] == es[..i + 1] && got[..i] + [got[i]] == got[..i + 1];
  }

  lemma {:induction false} ClonesAppend(es: seq<Entry>, got: seq<bool>, e: Entry, g: bool)
    requires |got| == |es|
    ensures Clones(es + [e], got + [g]) == Clones(es, got) + if e.needs && g then [e.key] else []
  {
    if es == [] {
      assert es + [e] == [e] && got + [g] == [g];
    } else {
      assert (es + [e])[1..] == es[1..] + [e] && (got + [g])[1..] == got[1..] + [g];
      ClonesAppend(es[1..], got[1..], e, g);
    }
  }

  // ---------------------------------------------------------------- the state machine

  /** A probe call and where it is between its critical sections. */
  datatype Call =
    | NoCall
    | Searching(key: Key)
    | Allocating(key: Key)
    | Inserting(key: Key)
    | Deleting(key: Key)
    | Scheduling(key: Key)

  /** The worker: started but not swept, swept (with or without a failed clone), resurrecting. */
  datatype Worker = Sleeping | Started | AfterSweep(oom: bool) | Resurrecting

  /**
   queued says that the delayed work is pending. raised and handed count, per key, how often
   needs_resurrect went up and how often the key was cloned for resurrection.
   */
  datatype State = State(entries: seq<Entry>, calls: seq<Call>, worker: Worker, queued: bool,
                         raised: multiset<Key>, handed: multiset<Key>)

  predicate Init(s: State) {
    && s.entries == [] && !s.queued && s.worker == Sleeping
    && s.raised == multiset{} && s.handed == multiset{}
    && forall i :: 0 <= i < |s.calls| ==> s.calls[i] == NoCall
  }

  datatype Event =
    | ProbeCreate(i: nat, key: Key)
    | ProbeDelete(i: nat, key: Key)
    | RunCall(i: nat, memory: bool)
    | TimerFires
    | RunWorker(got: seq<bool>)

  predicate Enabled(s: State, e: Event) {
    match e
    case ProbeCreate(i, _) => i < |s.calls| && s.calls[i] == NoCall
    case ProbeDelete(i, _) => i < |s.calls| && s.calls[i] == NoCall
    case RunCall(i, _) => i < |s.calls| && s.calls[i] != NoCall
    case TimerFires => s.queued && s.worker == Sleeping
    case RunWorker(got) => s.worker != Sleeping && |got| == |s.entries|
  }

  function RunProbe(s: State, i: nat, memory: bool): State
    requires i < |s.calls| && s.calls[i] != NoCall
  {
    match s.calls[i]
    case Searching(key) =>
      s.(entries := SetCreated(s.entries, key),
         calls := s.calls[i := if Tracked(s.entries, key) then NoCall else Allocating(key)])
    case Allocating(key) => s.(calls := s.calls[i := if memory then Inserting(key) else NoCall])
    case Inserting(key) => s.(entries := Recheck(s.entries, key), calls := s.calls[i := NoCall])
    case Deleting(key) =>
      var up := Hijacked(s.entries, key) && !s.entries[First(s.entries, key)].needs;
      s.(entries := SetNeeds(s.entries, key),
         calls := s.calls[i := if Hijacked(s.entries, key) then Scheduling(key) else NoCall],
         raised := if up then s.raised + multiset{key} else s.raised)
    case Scheduling(key) => s.(queued := true, calls := s.calls[i := NoCall])
  }

  function Step(s: State, e: Event): State
    requires Enabled(s, e)
  {
    match e
    case ProbeCreate(i, key) => s.(calls := s.calls[i := Searching(key)])
    case ProbeDelete(i, key) => s.(calls := s.calls[i := Deleting(key)])
    case RunCall(i, memory) => RunProbe(s, i, memory)
    case TimerFires => s.(queued := false, worker := Started)
    case RunWorker(got) =>
      match s.worker
      case Started =>
        s.(entries := Swept(s.entries, got), worker := AfterSweep(OutOfMemory(s.entries, got)),
           handed := s.handed + multiset(Clones(s.entries, got)))
      case AfterSweep(oom) => s.(queued := s.queued || oom, worker := Resurrecting)
      case Resurrecting => s.(worker := Sleeping)
  }

  // ---------------------------------------------------------------- invariant

  predicate UniqueKeys(es: seq<Entry>) {
    forall i, j :: 0 <= i < j < |es| ==> es[i].key != es[j].key
  }

  /** Something is on its way that will look at every entry needing resurrection. */
  predicate Covered(s: State, key: Key) {
    || s.queued
    || s.worker == Started
    || s.worker == AfterSweep(true)
    || exists i :: 0 <= i < |s.calls| && s.calls[i] == Scheduling(key)
  }

  function Needing(es: seq<Entry>): multiset<Key> {
    if es == [] then multiset{}
    else (if es[0].needs then multiset{es[0].key} else multiset{}) + Needing(es[1..])
  }

  predicate Inv(s: State) {
    && ListOk(s.entries)
    && (forall i :: 0 <= i < |s.entries| && s.entries[i].needs ==> Covered(s, s.entries[i].key))
    && s.raised == s.handed + Needing(s.entries)
  }

  lemma {:induction false} NeedingUpdate(es: seq<Entry>, i: nat, e: Entry)
    requires i < |es| && e.key == es[i].key
    ensures e.needs == es[i].needs ==> Needing(es[i := e]) == Needing(es)
    ensures e.needs && !es[i].needs ==> Needing(es[i := e]) == Needing(es) + multiset{e.key}
  {
    if i == 0 {
      assert es[0 := e][1..] == es[1..];
    } else {
      assert es[i := e][1..] == es[1..][i - 1 := e];
      NeedingUpdate(es[1..], i - 1, e);
    }
  }

  /** The sweep moves exactly the cloned keys out of the needing ones. */
  lemma {:induction false} SweepConserves(es: seq<Entry>, got: seq<bool>)
    requires |got| == |es|
    ensures Needing(es) == Needing(Swept(es, got)) + multiset(Clones(es, got))
  {
    if es != [] {
      var rest := Swept(es, got)[1..];
      assert rest == Swept(es[1..], got[1..]);
      SweepConserves(es[1..], got[1..]);
      var head := if es[0].needs && got[0] then [es[0].key] else [];
      assert multiset(head + Clones(es[1..], got[1..])) == multiset(head) + multiset(Clones(es[1..], got[1..]));
    }
  }

  lemma SameCover(s: State, n: State, i: nat, key: Key)
    requires Covered(s, key) && i < |s.calls| && |n.calls| == |s.calls|
    requires n.queued == s.queued && n.worker == s.worker
    requires forall j :: 0 <= j < |s.calls| && j != i ==> n.calls[j] == s.calls[j]
    requires !s.calls[i].Scheduling?
    ensures Covered(n, key)
  {
    if !s.queued && s.worker != Started && s.worker != AfterSweep(true) {
      var j :| 0 <= j < |s.calls| && s.calls[j] == Scheduling(key);
      assert n.calls[j] == Scheduling(key);
    }
  }

  /** What the list part of the invariant asks of a list. */
  predicate ListOk(es: seq<Entry>) {
    UniqueKeys(es) && forall i :: 0 <= i < |es| && es[i].needs ==> es[i].created
  }

  lemma SetCreatedKeeps(es: seq<Entry>, key: Key)
    requires ListOk(es)
    ensures ListOk(SetCreated(es, key)) && Needing(SetCreated(es, key)) == Needing(es)
  {
    hide Needing;
    var f := First(es, key);
    if f < |es| { NeedingUpdate(es, f, es[f].(created := true)); }
  }

  lemma RecheckKeeps(es: seq<Entry>, key: Key)
    requires ListOk(es)
    ensures ListOk(Recheck(es, key)) && Needing(Recheck(es, key)) == Needing(es)
  {
    SetCreatedKeeps(es, key);
    if !Tracked(es, key) {
      assert Recheck(es, key)[1..] == es;
    }
  }

  lemma SetNeedsKeeps(es: seq<Entry>, key: Key)
    requires ListOk(es)
    ensures ListOk(SetNeeds(es, key))
    ensures Needing(SetNeeds(es, key)) ==
            if Hijacked(es, key) && !es[First(es, key)].needs then Needing(es) + multiset{key} else Needing(es)
  {
    hide Needing;
    var f := First(es, key);
    if f < |es| { NeedingUpdate(es, f, es[f].(needs := true)); }
  }

  lemma ProbeKeepsList(s: State, i: nat, memory: bool)
    requires i < |s.calls| && s.calls[i] != NoCall && ListOk(s.entries) && s.raised == s.handed + Needing(s.entries)
    ensures var n := RunProbe(s, i, memory);
            ListOk(n.entries) && n.raised == n.handed + Needing(n.entries)
  {
    hide Needing; hide ListOk; hide First;
    match s.calls[i]
    case Searching(key) => SetCreatedKeeps(s.entries, key);
    case Inserting(key) => RecheckKeeps(s.entries, key);
    case Deleting(key) => SetNeedsKeeps(s.entries, key);
    case _ =>
  }

  lemma ProbeKeepsCover(s: State, i: nat, memory: bool, j: nat)
    requires Inv(s) && i < |s.calls| && s.calls[i] != NoCall
    requires j < |RunProbe(s, i, memory).entries| && RunProbe(s, i, memory).entries[j].needs
    ensures Covered(RunProbe(s, i, memory), RunProbe(s, i, memory).entries[j].key)
  {
    hide Needing;
    var n := RunProbe(s, i, memory);
    var key := n.entries[j].key;
    if s.calls[i].Scheduling? {
    } else if s.calls[i].Deleting? && key == s.calls[i].key && Hijacked(s.entries, key) {
      assert n.calls[i] == Scheduling(key);
    } else {
      var k := if s.calls[i].Inserting? && !Tracked(s.entries, s.calls[i].key) then j - 1 else j;
      assert s.entries[k].key == key && s.entries[k].needs;
      SameCover(s, n, i, key);
    }
  }

  lemma SweptKeepsList(es: seq<Entry>, got: seq<bool>)
    requires |got| == |es| && UniqueKeys(es)
    requires forall i :: 0 <= i < |es| && es[i].needs ==> es[i].created
    ensures UniqueKeys(Swept(es, got))
    ensures forall i :: 0 <= i < |es| && Swept(es, got)[i].needs ==>
              Swept(es, got)[i] == es[i] && es[i].created && OutOfMemory(es, got)
  {
    var r := Swept(es, got);
    forall i | 0 <= i < |es|
      ensures r[i].key == es[i].key
      ensures r[i].needs ==> r[i] == es[i] && es[i].created && OutOfMemory(es, got)
    {
      assert r[i] == SweepOne(es[i], got[i]);
    }
    forall i, j | 0 <= i < j < |r|
      ensures r[i].key != r[j].key
    {
      assert r[i].key == es[i].key && r[j].key == es[j].key;
    }
  }

  lemma WorkerPreserves(s: State, got: seq<bool>)
    requires Inv(s) && Enabled(s, RunWorker(got))
    ensures Inv(Step(s, RunWorker(got)))
  {
    hide Needing; hide Clones; hide Swept; hide UniqueKeys; hide OutOfMemory;
    var n := Step(s, RunWorker(got));
    if s.worker == Started {
      SweepConserves(s.entries, got);
      SweptKeepsList(s.entries, got);
    } else {
      forall j | 0 <= j < |n.entries| && n.entries[j].needs
        ensures Covered(n, n.entries[j].key)
      {
        assert Covered(s, s.entries[j].key);
      }
    }
  }

  lemma BeginPreserves(s: State, e: Event)
    requires Inv(s) && Enabled(s, e) && (e.ProbeCreate? || e.ProbeDelete?)
    ensures Inv(Step(s, e))
  {
    var n := Step(s, e);
    forall j | 0 <= j < |n.entries| && n.entries[j].needs
      ensures Covered(n, n.entries[j].key)
    {
      SameCover(s, n, e.i, n.entries[j].key);
    }
  }

  lemma StepPreserves(s: State, e: Event)
    requires Inv(s) && Enabled(s, e)
    ensures Inv(Step(s, e))
  {
    match e
    case RunCall(i, memory) =>
      ProbeKeepsList(s, i, memory);
      forall j | 0 <= j < |RunProbe(s, i, memory).entries| && RunProbe(s, i, memory).entries[j].needs
        ensures Covered(RunProbe(s, i, memory), RunProbe(s, i, memory).entries[j].key)
      {
        ProbeKeepsCover(s, i, memory, j);
      }
    case RunWorker(got) => WorkerPreserves(s, got);
    case TimerFires =>
    case _ => BeginPreserves(s, e);
  }

  ghost predicate IsRun(ss: seq<State>, es: seq<Event>) {
    && |ss| == |es| + 1 && Init(ss[0])
    && forall i :: 0 <= i < |es| ==> Enabled(ss[i], es[i]) && ss[i + 1] == Step(ss[i], es[i])
  }

  /**
   Along every interleaving of probes and worker: at most one entry per (bdf, qid), a queue
   needing resurrection is hijacked and has something on its way to look at it, and every
   raise of the flag has been handed over exactly once or is still pending.
   */
  lemma RaisesAccounted(ss: seq<State>, es: seq<Event>, i: nat)
    requires IsRun(ss, es) && i < |ss|
    ensures UniqueKeys(ss[i].entries)
    ensures forall j :: 0 <= j < |ss[i].entries| && ss[i].entries[j].needs ==>
              ss[i].entries[j].created && Covered(ss[i], ss[i].entries[j].key)
    ensures ss[i].raised == ss[i].handed + Needing(ss[i].entries)
  {
    RunKeepsInv(ss, es, i);
  }

  lemma {:induction false} RunKeepsInv(ss: seq<State>, es: seq<Event>, i: nat)
    requires IsRun(ss, es) && i < |ss|
    ensures Inv(ss[i])
  {
    hide Inv; hide Step; hide Enabled;
    if i == 0 {
      InitHolds(ss[0]);
    } else {
      RunKeepsInv(ss, es, i - 1);
      StepPreserves(ss[i - 1], es[i - 1]);
    }
  }

  lemma InitHolds(s: State)
    requires Init(s)
    ensures Inv(s)
  {
  }

  /**
   A sweep with memory for every clone leaves nothing pending and hands each needing key
   over once; without memory for one, that entry keeps both flags.
   */
  lemma SweepHandsOver(es: seq<Entry>, got: seq<bool>)
    requires |got| == |es| && UniqueKeys(es)
    ensures (forall i :: 0 <= i < |es| ==> !Swept(es, got)[i].needs) <==> !OutOfMemory(es, got)
    ensures forall i :: 0 <= i < |es| && es[i].needs && !got[i] ==> Swept(es, got)[i] == es[i]
    ensures forall i :: 0 <= i < |es| ==> multiset(Clones(es, got))[es[i].key] == if es[i].needs && got[i] then 1 else 0
  {
    forall i | 0 <= i < |es|
      ensures Swept(es, got)[i].needs == (es[i].needs && !got[i])
    {
      assert Swept(es, got)[i] == SweepOne(es[i], got[i]);
    }
    forall i | 0 <= i < |es|
      ensures multiset(Clones(es, got))[es[i].key] == if es[i].needs && got[i] then 1 else 0
    {
      CloneCount(es, got, i);
    }
  }

  lemma {:induction false} NotCloned(es: seq<Entry>, got: seq<bool>, key: Key)
    requires |got| == |es| && forall j :: 0 <= j < |es| ==> es[j].key != key
    ensures key !in Clones(es, got)
  {
    if es != [] { NotCloned(es[1..], got[1..], key); }
  }

  lemma {:induction false} CloneCount(es: seq<Entry>, got: seq<bool>, i: nat)
    requires |got| == |es| && UniqueKeys(es) && i < |es|
    ensures multiset(Clones(es, got))[es[i].key] == if es[i].needs && got[i] then 1 else 0
  {
    var head := if es[0].needs && got[0] then [es[0].key] else [];
    var tail := Clones(es[1..], got[1..]);
    assert multiset(head + tail) == multiset(head) + multiset(tail);
    if i == 0 {
      NotCloned(es[1..], got[1..], es[0].key);
    } else {
      CloneCount(es[1..], got[1..], i - 1);
    }
  }

  // ---------------------------------------------------------------- nothing waits for ever

  /** A sequence of enabled events leads from s to n. */
  ghost predicate Leads(s: State, es: seq<Event>, n: State)
    decreases |es|
  {
    if es == [] then s == n else Enabled(s, es[0]) && Leads(Step(s, es[0]), es[1..], n)
  }

  /** How far the worker is from its next sweep. */
  function Away(s: State): nat {
    match s.worker
    case Started => 0
    case Sleeping => if s.queued then 1 else 2
    case Resurrecting => 3
    case AfterSweep(_) => 4
  }

  predicate Waiting(s: State) { exists i :: 0 <= i < |s.entries| && s.entries[i].needs }

  /** The event is not the critical section of a delete of key. */
  predicate Spares(s: State, e: Event, key: Key) {
    e.RunCall? && e.i < |s.calls| ==> s.calls[e.i] != Deleting(key)
  }

  /** A sequence of enabled events without a delete of key leads from s to n. */
  ghost predicate Continues(s: State, es: seq<Event>, n: State, key: Key)
    decreases |es|
  {
    if es == [] then s == n
    else Enabled(s, es[0]) && Spares(s, es[0], key) && Continues(Step(s, es[0]), es[1..], n, key)
  }

  lemma {:induction false} ContinuesLeads(s: State, es: seq<Event>, n: State, key: Key)
    requires Continues(s, es, n, key)
    ensures Leads(s, es, n)
    decreases |es|
  {
    hide Step; hide Enabled; hide Spares;
    if es != [] { ContinuesLeads(Step(s, es[0]), es[1..], n, key); }
  }

  /** The step that brings the sweep nearer. */
  lemma Nearer(s: State, key: Key) returns (e: Event)
    requires Inv(s) && Waiting(s) && s.worker != Started
    ensures Enabled(s, e) && Spares(s, e, key)
    ensures var n := Step(s, e); Away(n) < Away(s) && n.entries == s.entries && n.raised == s.raised
  {
    if s.worker != Sleeping {
      e := RunWorker(AllGot(s.entries));
    } else if s.queued {
      e := TimerFires;
    } else {
      var k :| 0 <= k < |s.entries| && s.entries[k].needs;
      assert Covered(s, s.entries[k].key);
      var i :| 0 <= i < |s.calls| && s.calls[i] == Scheduling(s.entries[k].key);
      e := RunCall(i, true);
    }
  }

  function AllGot(es: seq<Entry>): seq<bool> { seq(|es|, _ => true) }

  /** While a queue needs resurrection, a sweep with memory for every clone is within reach. */
  lemma CanSweep(s: State, key: Key) returns (es: seq<Event>, n: State)
    requires Inv(s) && Waiting(s)
    ensures Continues(s, es, n, key) && Inv(n)
    ensures n.entries == Swept(s.entries, AllGot(s.entries)) && n.raised == s.raised
    decreases Away(s)
  {
    hide Inv; hide Swept;
    if s.worker == Started {
      var e := RunWorker(AllGot(s.entries));
      n, es := Step(s, e), [e];
      assert es[1..] == [];
      StepPreserves(s, e);
    } else {
      var e := Nearer(s, key);
      StepPreserves(s, e);
      var rest: seq<Event>;
      rest, n := CanSweep(Step(s, e), key);
      es := [e] + rest;
      assert es[1..] == rest;
    }
  }

  /**
   From every state of a run in which a queue needs resurrection, steps of the worker and of
   probes already under way lead to a state where every raise of the flag has been handed over.
   */
  lemma CanHandOver(s: State) returns (es: seq<Event>, n: State)
    requires Inv(s) && Waiting(s)
    ensures Leads(s, es, n) && n.raised == n.handed == s.raised && Needing(n.entries) == multiset{}
  {
    es, n := CanSweep(s, Key(0, 0));
    ContinuesLeads(s, es, n, Key(0, 0));
    NoneNeeding(n.entries);
  }

  lemma {:induction false} NoneNeeding(es: seq<Entry>)
    requires forall i :: 0 <= i < |es| ==> !es[i].needs
    ensures Needing(es) == multiset{}
  {
    if es != [] { NoneNeeding(es[1..]); }
  }

  // ---------------------------------------------------------------- a create against a pending delete

  /** The call is a create whose next critical section completes it. */
  predicate Completes(s: State, i: nat) {
    && i < |s.calls|
    && (s.calls[i].Inserting? || (s.calls[i].Searching? && Tracked(s.entries, s.calls[i].key)))
  }

  predicate Pending(es: seq<Entry>, key: Key) { Tracked(es, key) && es[First(es, key)].needs }

  /** A delete of key would raise the flag. */
  predicate WouldRaise(s: State, key: Key) { Hijacked(s.entries, key) && !Pending(s.entries, key) }

  lemma FirstIs(es: seq<Entry>, i: nat)
    requires UniqueKeys(es) && i < |es|
    ensures First(es, es[i].key) == i
  {
    var f := First(es, es[i].key);
    assert ForKey(es[i].key)(es[i]);
  }

  /** A hijacked entry that needs nothing outlasts everything but a delete of its own key. */
  lemma ListKeepsEntry(es: seq<Entry>, key: Key, other: Key)
    requires UniqueKeys(es) && Entry(key, true, false) in es
    ensures Entry(key, true, false) in SetCreated(es, other) && Entry(key, true, false) in Recheck(es, other)
    ensures other != key ==> Entry(key, true, false) in SetNeeds(es, other)
  {
    var i :| 0 <= i < |es| && es[i] == Entry(key, true, false);
    assert SetCreated(es, other)[i] == es[i];
    if !Tracked(es, other) { assert Recheck(es, other)[i + 1] == es[i]; }
    if other != key { assert SetNeeds(es, other)[i] == es[i]; }
  }

  lemma SweepKeepsEntry(es: seq<Entry>, got: seq<bool>, key: Key)
    requires |got| == |es| && Entry(key, true, false) in es
    ensures Entry(key, true, false) in Swept(es, got)
  {
    var i :| 0 <= i < |es| && es[i] == Entry(key, true, false);
    assert Swept(es, got)[i] == es[i];
  }

  lemma EntryLasts(s: State, e: Event, key: Key)
    requires ListOk(s.entries) && Enabled(s, e) && Spares(s, e, key) && Entry(key, true, false) in s.entries
    ensures Entry(key, true, false) in Step(s, e).entries
  {
    hide SetCreated; hide Recheck; hide SetNeeds; hide Swept; hide Clones; hide OutOfMemory; hide First;
    match e
    case RunCall(i, _) => ListKeepsEntry(s.entries, key, s.calls[i].key);
    case RunWorker(got) => SweepKeepsEntry(s.entries, got, key);
    case _ =>
  }

  lemma {:induction false} EntryStays(s: State, es: seq<Event>, n: State, key: Key)
    requires Inv(s) && Entry(key, true, false) in s.entries && Continues(s, es, n, key)
    ensures Inv(n) && Entry(key, true, false) in n.entries
    decreases |es|
  {
    hide Step; hide Enabled; hide Spares;
    if es != [] {
      EntryLasts(s, es[0], key);
      StepPreserves(s, es[0]);
      EntryStays(Step(s, es[0]), es[1..], n, key);
    }
  }

  lemma EntryRaises(s: State, key: Key)
    requires ListOk(s.entries) && Entry(key, true, false) in s.entries
    ensures WouldRaise(s, key)
  {
    var i :| 0 <= i < |s.entries| && s.entries[i] == Entry(key, true, false);
    FirstIs(s.entries, i);
  }

  /** What the last critical section of a create leaves for its key. */
  lemma CreateLeaves(s: State, i: nat, memory: bool)
    requires Inv(s) && Completes(s, i)
    ensures var key, n := s.calls[i].key, RunProbe(s, i, memory);
            if Pending(s.entries, key) then Pending(n.entries, key) else Entry(key, true, false) in n.entries
  {
    hide Needing;
    var key, n := s.calls[i].key, RunProbe(s, i, memory);
    var f := First(s.entries, key);
    if Tracked(s.entries, key) {
      SetCreatedKeeps(s.entries, key);
      assert n.entries[f] == s.entries[f].(created := true);
      FirstIs(n.entries, f);
    } else {
      assert n.entries[0] == Entry(key, true, false);
    }
  }

  lemma SweepForgets(es: seq<Entry>, key: Key)
    requires UniqueKeys(es) && Pending(es, key)
    ensures !Hijacked(Swept(es, AllGot(es)), key)
  {
    var f, n := First(es, key), Swept(es, AllGot(es));
    assert n[f] == SweepOne(es[f], true);
    assert UniqueKeys(n) by {
      forall i, j | 0 <= i < j < |n| ensures n[i].key != n[j].key {
        assert n[i] == SweepOne(es[i], true) && n[j] == SweepOne(es[j], true);
      }
    }
    FirstIs(n, f);
  }

  /**
   When a hijack that completes is safe: until the next delete of its queue, whatever else
   happens, that delete would find the queue hijacked and raise the flag, if and only if no
   resurrection of the queue was pending when the create completed. The sweep of a pending
   one clears the new mark with the old.
   */
  lemma CreateLastsIff(s: State, i: nat, memory: bool)
    requires Inv(s) && Completes(s, i)
    ensures var key, after := s.calls[i].key, RunProbe(s, i, memory);
            && ((forall es, n :: Continues(after, es, n, key) ==> Hijacked(n.entries, key)) <==>
                !Pending(s.entries, key))
            && ((forall es, n :: Continues(after, es, n, key) ==> WouldRaise(n, key)) <==> !Pending(s.entries, key))
  {
    hide Inv; hide Continues; hide RunProbe;
    var key, after := s.calls[i].key, RunProbe(s, i, memory);
    CreateLeaves(s, i, memory);
    assert Inv(after) by { StepPreserves(s, RunCall(i, memory)); }
    if Pending(s.entries, key) {
      LosesMark(after, key);
    } else {
      forall es, n | Continues(after, es, n, key)
        ensures WouldRaise(n, key)
      {
        EntryStays(after, es, n, key);
        ListHolds(n);
        EntryRaises(n, key);
      }
    }
  }

  lemma ListHolds(s: State)
    requires Inv(s)
    ensures ListOk(s.entries)
  {
  }

  lemma LosesMark(s: State, key: Key)
    requires Inv(s) && Pending(s.entries, key)
    ensures exists es, n :: Continues(s, es, n, key) && !Hijacked(n.entries, key)
  {
    assert Waiting(s);
    var es, n := CanSweep(s, key);
    SweepForgets(s.entries, key);
  }

  // ---------------------------------------------------------------- a run that loses a delete

  /** A create and a delete; a create again before the worker sweeps; and, after it, a delete. */
  function LosingRun(key: Key): seq<Event> {
    Insertion(key) + (Deletion(key) + (Recreation(key) + (Wakeup() + LateDeletion(key))))
  }

  function Insertion(key: Key): seq<Event> {
    [ProbeCreate(0, key), RunCall(0, true), RunCall(0, true), RunCall(0, true)]
  }

  function Deletion(key: Key): seq<Event> { [ProbeDelete(0, key), RunCall(0, true), RunCall(0, true)] }

  function Recreation(key: Key): seq<Event> { [ProbeCreate(0, key), RunCall(0, true)] }

  function Wakeup(): seq<Event> { [TimerFires, RunWorker([true]), RunWorker([true]), RunWorker([true])] }

  function LateDeletion(key: Key): seq<Event> { [ProbeDelete(0, key), RunCall(0, true)] }

  lemma {:induction false} LeadsThen(s: State, a: seq<Event>, m: State, b: seq<Event>, n: State)
    requires Leads(s, a, m) && Leads(m, b, n)
    ensures Leads(s, a + b, n)
    decreases |a|
  {
    hide Step; hide Enabled;
    if a == [] {
      assert a + b == b;
    } else {
      assert (a + b)[1..] == a[1..] + b;
      LeadsThen(Step(s, a[0]), a[1..], m, b, n);
    }
  }

  lemma LeadsNowhere(s: State, es: seq<Event>)
    ensures Leads(s, es[..0], s)
  {
  }

  lemma LeadsNext(s: State, es: seq<Event>, k: nat, m: State, n: State)
    requires k < |es| && Leads(s, es[..k], m) && Enabled(m, es[k]) && n == Step(m, es[k])
    ensures Leads(s, es[..k + 1], n)
  {
    hide Step; hide Enabled;
    var e := es[k];
    assert [e][1..] == [] && es[..k] + [e] == es[..k + 1];
    assert Leads(n, [], n);
    LeadsThen(s, es[..k], m, [e], n);
  }

  lemma InsertionLeads(s: State, key: Key)
    requires |s.calls| > 0 && s.calls[0] == NoCall && s.entries == []
    ensures Leads(s, Insertion(key), s.(entries := [Entry(key, true, false)]))
  {
    hide Leads; hide Swept; hide Clones; hide OutOfMemory; hide SetNeeds;
    var es := Insertion(key);
    var s1, s2 := s.(calls := s.calls[0 := Searching(key)]), s.(calls := s.calls[0 := Allocating(key)]);
    var s3, s4 := s.(calls := s.calls[0 := Inserting(key)]), s.(entries := [Entry(key, true, false)]);
    LeadsNowhere(s, es);
    LeadsNext(s, es, 0, s, s1);
    LeadsNext(s, es, 1, s1, s2);
    LeadsNext(s, es, 2, s2, s3);
    assert s3.calls[0 := NoCall] == s.calls;
    LeadsNext(s, es, 3, s3, s4);
    assert es[..4] == es;
  }

  lemma DeleteOfOne(key: Key)
    ensures var es := [Entry(key, true, false)];
            Hijacked(es, key) && First(es, key) == 0 && SetNeeds(es, key) == [Entry(key, true, true)]
  {
    FirstIs([Entry(key, true, false)], 0);
  }

  lemma DeletionLeads(s: State, key: Key)
    requires |s.calls| > 0 && s.calls[0] == NoCall && s.entries == [Entry(key, true, false)]
    ensures Leads(s, Deletion(key), s.(entries := [Entry(key, true, true)], queued := true,
                                       raised := s.raised + multiset{key}))
  {
    hide Leads; hide Swept; hide Clones; hide OutOfMemory; hide SetCreated; hide Recheck;
    DeleteOfOne(key);
    hide First; hide SetNeeds; hide Hijacked;
    var es, s1 := Deletion(key), s.(calls := s.calls[0 := Deleting(key)]);
    var s2 := s.(calls := s.calls[0 := Scheduling(key)], entries := [Entry(key, true, true)],
                 raised := s.raised + multiset{key});
    LeadsNowhere(s, es);
    LeadsNext(s, es, 0, s, s1);
    LeadsNext(s, es, 1, s1, s2);
    assert s2.calls[0 := NoCall] == s.calls;
    LeadsNext(s, es, 2, s2, s2.(calls := s.calls, queued := true));
    assert es[..3] == es;
  }

  lemma RecreationLeads(s: State, key: Key)
    requires |s.calls| > 0 && s.calls[0] == NoCall && s.entries == [Entry(key, true, true)]
    ensures Leads(s, Recreation(key), s)
  {
    hide Leads; hide Swept; hide Clones; hide OutOfMemory; hide SetNeeds; hide Recheck;
    FirstIs(s.entries, 0);
    hide First;
    var es, s1 := Recreation(key), s.(calls := s.calls[0 := Searching(key)]);
    LeadsNowhere(s, es);
    LeadsNext(s, es, 0, s, s1);
    assert s1.calls[0 := NoCall] == s.calls;
    LeadsNext(s, es, 1, s1, s);
    assert es[..2] == es;
  }

  lemma WakeupLeads(s: State, key: Key)
    requires s.queued && s.worker == Sleeping && s.entries == [Entry(key, true, true)]
    ensures Leads(s, Wakeup(), s.(queued := false, entries := [Entry(key, false, false)],
                                  handed := s.handed + multiset{key}))
  {
    hide Leads; hide RunProbe;
    var es, s1 := Wakeup(), s.(queued := false, worker := Started);
    SweepOfOne(key);
    hide Swept; hide Clones; hide OutOfMemory;
    var s2 := s1.(worker := AfterSweep(false), entries := [Entry(key, false, false)],
                  handed := s.handed + multiset{key});
    LeadsNowhere(s, es);
    LeadsNext(s, es, 0, s, s1);
    LeadsNext(s, es, 1, s1, s2);
    LeadsNext(s, es, 2, s2, s2.(worker := Resurrecting));
    LeadsNext(s, es, 3, s2.(worker := Resurrecting), s2.(worker := Sleeping));
    assert es[..4] == es;
  }

  lemma SweepOfOne(key: Key)
    ensures var es := [Entry(key, true, true)];
            Clones(es, [true]) == [key] && Swept(es, [true]) == [Entry(key, false, false)] && !OutOfMemory(es, [true])
  {
    assert [Entry(key, true, true)][1..] == [];
  }

  lemma LateDeletionLeads(s: State, key: Key)
    requires |s.calls| > 0 && s.calls[0] == NoCall && s.entries == [Entry(key, false, false)]
    ensures Leads(s, LateDeletion(key), s)
  {
    hide Leads; hide Swept; hide Clones; hide OutOfMemory; hide SetCreated; hide Recheck;
    FirstIs(s.entries, 0);
    hide First;
    var es, s1 := LateDeletion(key), s.(calls := s.calls[0 := Deleting(key)]);
    LeadsNowhere(s, es);
    LeadsNext(s, es, 0, s, s1);
    assert s1.calls[0 := NoCall] == s.calls;
    LeadsNext(s, es, 1, s1, s);
    assert es[..2] == es;
  }

  /**
   A queue hijacked twice and deleted twice is handed over once: the sweep for the first
   delete clears the mark of the second create, the second delete finds no mark, and nothing
   is under way any more.
   */
  lemma LosesADelete(s: State, key: Key)
    requires Init(s) && |s.calls| > 0
    ensures Leads(s, LosingRun(key),
                  s.(entries := [Entry(key, false, false)], raised := multiset{key}, handed := multiset{key}))
  {
    hide Leads;
    var s1 := s.(entries := [Entry(key, true, false)]);
    var s2 := s.(entries := [Entry(key, true, true)], queued := true, raised := multiset{key});
    var s3 := s.(entries := [Entry(key, false, false)], raised := multiset{key}, handed := multiset{key});
    assert multiset{} + multiset{key} == multiset{key};
    InsertionLeads(s, key);
    DeletionLeads(s1, key);
    RecreationLeads(s2, key);
    WakeupLeads(s2, key);
    LateDeletionLeads(s3, key);
    LeadsThen(s2, Wakeup(), s3, LateDeletion(key), s3);
    LeadsThen(s2, Recreation(key), s2, Wakeup() + LateDeletion(key), s3);
    LeadsThen(s1, Deletion(key), s2, Recreation(key) + (Wakeup() + LateDeletion(key)), s3);
    LeadsThen(s, Insertion(key), s1, Deletion(key) + (Recreation(key) + (Wakeup() + LateDeletion(key))), s3);
  }
}
