/**
 The in-flight ring of the fio engine: queue() records an io_u per posted operation, and
 getevents() reaps completions oldest first into the event array. What rxio_post_work and
 rxio_reap answer, and how many rounds fit before the deadline, are parameters.
 */
module FioRing {
  const RXIO_RING: nat := 63

  datatype IoU = IoU(id: nat, file: nat)

  /** A ring slot: the null pointer or an io_u. */
  datatype Slot = Null | Held(io: IoU)

  /** An entry of the event array; error stands for u->error = EIO. */
  datatype Event = Event(io: IoU, error: bool)

  datatype Direction = Read | Write | Sync | DataSync | Other

  datatype Status = Completed(error: bool) | Busy | Queued

  datatype Post = Posted | NoSpace | PostFailed

  datatype Reap = NotDone | Done | ReapError

  /**
   What queue() answers. attached says that the file has its engine data, full that iodepth
   operations are in flight.
   */
  function Answer(attached: bool, ddir: Direction, lbaSize: nat, full: bool, post: Post): Status {
    if !attached then Completed(true)
    else
      match ddir
      case Other => Completed(true)
      case Sync => Completed(false)
      case DataSync => Completed(false)
      case _ =>
        if lbaSize == 0 then Completed(true)
        else if full then Busy
        else match post { case Posted => Queued case NoSpace => Busy case PostFailed => Completed(true) }
  }

  function At(tail: nat, k: nat): nat { (tail + k) % RXIO_RING }

  lemma AtDistinct(tail: nat, j: nat, k: nat)
    requires tail < RXIO_RING && j < k < RXIO_RING
    ensures At(tail, j) != At(tail, k)
  {
  }

  lemma AtNext(tail: nat, k: nat)
    requires tail < RXIO_RING
    ensures At(At(tail, 1), k) == At(tail, k + 1)
  {
  }

  class FileRing {
    const id: nat
    const lbaSize: nat
    const iodepth: nat
    const ring: array<Slot>
    var head: nat
    var tail: nat
    var count: nat
    /** Every io_u accepted by queue(), and how many of them have left the ring. */
    ghost var accepted: seq<IoU>
    ghost var retired: nat

    ghost predicate Valid()
      reads this, ring
      ensures Valid() ==> retired + count == |accepted| && forall k :: 0 <= k < |accepted| ==> accepted[k].file == id
    {
      && ring.Length == RXIO_RING && iodepth <= RXIO_RING && tail < RXIO_RING
      && count <= iodepth && head == At(tail, count)
      && retired + count == |accepted|
      && (forall k :: 0 <= k < count ==> ring[At(tail, k)] == Held(accepted[retired + k]))
      && (forall k :: 0 <= k < |accepted| ==> accepted[k].file == id)
    }

    /** open_file: an empty ring, its depth brought into what the ring holds. */
    constructor (id: nat, lbaSize: nat, iodepth: int)
      ensures Valid() && accepted == [] && count == 0 && this.id == id && this.lbaSize == lbaSize
      ensures 1 <= this.iodepth <= RXIO_RING && (1 <= iodepth <= RXIO_RING ==> this.iodepth == iodepth)
      ensures (iodepth < 1 ==> this.iodepth == 1) && (iodepth > RXIO_RING ==> this.iodepth == RXIO_RING)
      ensures fresh(ring)
    {
      this.id, this.lbaSize := id, lbaSize;
      this.iodepth := if iodepth < 1 then 1 else if iodepth > RXIO_RING then RXIO_RING else iodepth;
      ring := new Slot[RXIO_RING](_ => Null);
      head, tail, count := 0, 0, 0;
      accepted, retired := [], 0;
    }

    /** fio_rocm_xio_queue, with the answer rxio_post_work would give. */
    method Queue(attached: bool, io: IoU, ddir: Direction, post: Post) returns (status: Status)
      requires Valid() && io.file == id
      modifies this, ring
      ensures Valid() && retired == old(retired)
      ensures status == Answer(attached, ddir, lbaSize, old(count) >= iodepth, post)
      ensures status == Queued <==>
              attached && (ddir == Read || ddir == Write) && lbaSize != 0 && old(count) < iodepth && post == Posted
      ensures status == Busy <==>
              attached && (ddir == Read || ddir == Write) && lbaSize != 0 && (old(count) >= iodepth || post == NoSpace)
      ensures status == Completed(false) <==> attached && (ddir == Sync || ddir == DataSync)
      ensures accepted == if status == Queued then old(accepted) + [io] else old(accepted)
      ensures count == if status == Queued then old(count) + 1 else old(count)
    {
      if !attached {
        return Completed(true);
      }
      match ddir
      case Sync => return Completed(false);
      case DataSync => return Completed(false);
      case Other => return Completed(true);
      case _ =>
        if lbaSize == 0 {
          return Completed(true);
        }
        if count >= iodepth {
          return Busy;
        }
        status := Record(io, post);
    }

    /** The ring insert, the post, and the undo of a failed post. */
    method Record(io: IoU, post: Post) returns (status: Status)
      requires Valid() && io.file == id && count < iodepth
      modifies this, ring
      ensures Valid() && retired == old(retired)
      ensures status == match post { case Posted => Queued case NoSpace => Busy case PostFailed => Completed(true) }
      ensures accepted == if status == Queued then old(accepted) + [io] else old(accepted)
      ensures count == if status == Queued then old(count) + 1 else old(count)
    {
      var slot := head;
      forall k | 0 <= k < count
        ensures At(tail, k) != slot
      {
        AtDistinct(tail, k, count);
      }
      assert (slot + 1) % RXIO_RING == At(tail, count + 1);
      hide At;
      ring[slot] := Held(io);
      head := (head + 1) % RXIO_RING;
      count := count + 1;
      if post != Posted {
        head := slot;
        count := count - 1;
        ring[slot] := Null;
        return if post == NoSpace then Busy else Completed(true);
      }
      accepted := accepted + [io];
      return Queued;
    }

    /** Takes the oldest entry off the ring. */
    method Retire() returns (u: Slot)
      requires Valid() && count > 0
      modifies this
      ensures Valid() && accepted == old(accepted)
      ensures retired == old(retired) + 1 && count == old(count) - 1
      ensures u == Held(accepted[old(retired)])
    {
      forall k | 0 <= k < count - 1
        ensures ring[At(At(tail, 1), k)] == Held(accepted[retired + 1 + k])
      {
        AtNext(tail, k);
      }
      AtNext(tail, count - 1);
      assert At(tail, 0) == tail;
      u := ring[tail];
      tail := (tail + 1) % RXIO_RING;
      count := count - 1;
      retired := retired + 1;
    }
  }

  // ---------------------------------------------------------------- getevents

  function Min(a: nat, b: nat): nat { if a < b then a else b }

  /**
   How many io_us leave a ring of q entries when reaping answers os: up to max events are
   found, but past the capacity of the array a completion is taken off without being counted.
   */
  function Leaving(q: nat, found: nat, max: nat, cap: nat, os: seq<Reap>): nat
    decreases q
  {
    if q == 0 || found >= max || os == [] || os[0] == NotDone then 0
    else if os[0] == ReapError then 1
    else 1 + Leaving(q - 1, if found < cap then found + 1 else found, max, cap, os[1..])
  }

  /** How many answers of rxio_reap that takes; a missing answer stands for "not done yet". */
  function Asked(q: nat, found: nat, max: nat, cap: nat, os: seq<Reap>): (n: nat)
    ensures n <= |os|
    decreases q
  {
    if q == 0 || found >= max || os == [] then 0
    else if os[0] != Done then 1
    else 1 + Asked(q - 1, if found < cap then found + 1 else found, max, cap, os[1..])
  }

  /** One answer at a time. */
  lemma AskOnce(q: nat, found: nat, max: nat, cap: nat, os: seq<Reap>)
    ensures var l, a := Leaving(q, found, max, cap, os), Asked(q, found, max, cap, os);
            var o := Overruns(q, found, max, cap, os);
            if q == 0 || found >= max || os == [] then l == 0 && a == 0 && !o
            else if os[0] == NotDone then l == 0 && a == 1 && !o
            else if os[0] == ReapError then l == 1 && a == 1 && o == (found >= cap)
            else
              var next := if found < cap then found + 1 else found;
              && l == 1 + Leaving(q - 1, next, max, cap, os[1..]) && a == 1 + Asked(q - 1, next, max, cap, os[1..])
              && o == Overruns(q - 1, next, max, cap, os[1..])
  {
  }

  /** An error is reaped when the array is full: the code stores it without looking. */
  predicate Overruns(q: nat, found: nat, max: nat, cap: nat, os: seq<Reap>)
    decreases q
  {
    if q == 0 || found >= max || os == [] || os[0] == NotDone then false
    else if os[0] == ReapError then found >= cap
    else Overruns(q - 1, if found < cap then found + 1 else found, max, cap, os[1..])
  }

  /** Whatever is reaped finds room in the array. */
  predicate Room(q: nat, found: nat, max: nat, cap: nat) {
    found >= max || found + Min(q, max - found) <= cap
  }

  lemma {:induction false} LeavingBound(q: nat, found: nat, max: nat, cap: nat, os: seq<Reap>)
    requires Room(q, found, max, cap) && found <= cap
    ensures found + Leaving(q, found, max, cap, os) <= cap
    ensures found <= max ==> found + Leaving(q, found, max, cap, os) <= max
    decreases q
  {
    if q > 0 && found < max && os != [] && os[0] == Done {
      LeavingBound(q - 1, found + 1, max, cap, os[1..]);
    }
  }

  /** Events found to n are the io_us from base on, with the outcomes they were reaped with. */
  predicate Filled(events: seq<Event>, accepted: seq<IoU>, base: nat, found: nat, n: nat, os: seq<Reap>) {
    && n <= |events| && n - found <= |os| && base + n - found <= |accepted|
    && forall j :: found <= j < n ==> events[j] == Event(accepted[base + j - found], os[j - found] == ReapError)
  }

  lemma FilledNext(events: seq<Event>, accepted: seq<IoU>, base: nat, found: nat, n: nat, os: seq<Reap>)
    requires Filled(events, accepted, base, found, n, os) && found <= n < |events|
    requires n - found < |os| && base + n - found < |accepted|
    ensures var e := Event(accepted[base + n - found], os[n - found] == ReapError);
            Filled(events[n := e], accepted, base, found, n + 1, os)
  {
  }

  lemma {:induction false} NoOverrun(q: nat, found: nat, max: nat, cap: nat, os: seq<Reap>)
    requires Room(q, found, max, cap) && found <= cap
    ensures !Overruns(q, found, max, cap, os)
    decreases q
  {
    if q > 0 && found < max && os != [] && os[0] == Done { NoOverrun(q - 1, found + 1, max, cap, os[1..]); }
  }

  /** Enough completions to fill the array, and then an error. */
  lemma {:induction false} ErrorOverruns(q: nat, found: nat, max: nat, cap: nat, os: seq<Reap>)
    requires found <= cap && !Room(q, found, max, cap)
    requires |os| == cap - found + 1 && os[|os| - 1] == ReapError && forall k :: 0 <= k < |os| - 1 ==> os[k] == Done
    ensures Overruns(q, found, max, cap, os)
    decreases q
  {
    if found < cap { ErrorOverruns(q - 1, found + 1, max, cap, os[1..]); }
  }

  lemma FillThenFail(n: nat) returns (os: seq<Reap>)
    ensures |os| == n + 1 && os[n] == ReapError && forall k :: 0 <= k < n ==> os[k] == Done
  {
    os := seq(n, _ => Done) + [ReapError];
  }

  /**
   Retires the oldest io_u of a ring into the events if there is room. Without room a
   completion is dropped, and an error would be stored outside the array: overrun.
   */
  method Deliver(fd: FileRing, arr: array<Event>, found: nat, error: bool) returns (n: nat, overrun: bool)
    requires fd.Valid() && fd.count > 0 && found <= arr.Length
    modifies fd, arr
    ensures fd.Valid() && fd.accepted == old(fd.accepted)
    ensures fd.retired == old(fd.retired) + 1 && fd.count == old(fd.count) - 1
    ensures n == Min(found + 1, arr.Length) && overrun == (error && found == arr.Length)
    ensures arr[..] == if found < arr.Length then old(arr[..])[found := Event(fd.accepted[old(fd.retired)], error)]
                       else old(arr[..])
  {
    hide FileRing.Valid;
    var u := fd.Retire();
    n, overrun := found, error && found == arr.Length;
    if n < arr.Length {
      arr[n] := Event(u.io, error);
      n := n + 1;
    }
  }

  /** The inner loop of getevents for one file. */
  method ReapFile(fd: FileRing, arr: array<Event>, found: nat, max: nat, os: seq<Reap>)
    returns (n: nat, rest: seq<Reap>, overrun: bool)
    requires fd.Valid() && found <= arr.Length
    modifies fd, arr
    ensures fd.Valid() && fd.accepted == old(fd.accepted)
    ensures fd.retired == old(fd.retired) + Leaving(old(fd.count), found, max, arr.Length, os)
    ensures n == Min(found + (fd.retired - old(fd.retired)), arr.Length)
    ensures arr[..found] == old(arr[..found])
    ensures Filled(arr[..], fd.accepted, old(fd.retired), found, n, os)
    ensures rest == os[Asked(old(fd.count), found, max, arr.Length, os)..]
    ensures overrun == Overruns(old(fd.count), found, max, arr.Length, os)
  {
    hide FileRing.Valid; hide Filled; hide Leaving; hide Asked; hide Overruns;
    FilledNone(arr[..], fd.accepted, fd.retired, found, os);
    n, rest, overrun := found, os, false;
    ghost var q, cap := fd.count, arr.Length;
    ghost var d := 0;
    while fd.count > 0 && n < max
      invariant fd.Valid() && fd.accepted == old(fd.accepted) && fd.retired == old(fd.retired) + d && fd.count == q - d
      invariant d <= |os| && rest == os[d..] && n == Min(found + d, cap) && !overrun
      invariant Leaving(q, found, max, cap, os) == d + Leaving(fd.count, n, max, cap, rest)
      invariant Asked(q, found, max, cap, os) == d + Asked(fd.count, n, max, cap, rest)
      invariant Overruns(q, found, max, cap, os) == Overruns(fd.count, n, max, cap, rest)
      invariant arr[..found] == old(arr[..found])
      invariant Filled(arr[..], fd.accepted, old(fd.retired), found, n, os)
      decreases fd.count
    {
      AskOnce(fd.count, n, max, cap, rest);
      var r := if rest == [] then NotDone else rest[0];
      if r == NotDone {
        rest := if rest == [] then [] else rest[1..];
        break;
      }
      if n < arr.Length { FilledNext(arr[..], fd.accepted, old(fd.retired), found, n, os); }
      n, overrun := Deliver(fd, arr, n, r == ReapError);
      rest := rest[1..];
      d := d + 1;
      if r == ReapError {
        break;
      }
    }
    AskOnce(fd.count, n, max, cap, rest);
  }

  lemma FilledNone(events: seq<Event>, accepted: seq<IoU>, base: nat, found: nat, os: seq<Reap>)
    requires found <= |events| && base <= |accepted|
    ensures Filled(events, accepted, base, found, found, os)
  {
  }

  /** The io_us of one file among the events. */
  function OfFile(events: seq<Event>, id: nat): seq<IoU> {
    if events == [] then []
    else OfFile(events[..|events| - 1], id) +
         (var io := events[|events| - 1].io; if io.file == id then [io] else [])
  }

  /** What a file contributes to the events, and that it adds nothing to the others. */
  lemma {:induction false} Contribution(events: seq<Event>, accepted: seq<IoU>, base: nat, found: nat, n: nat,
                                        os: seq<Reap>, id: nat)
    requires Filled(events, accepted, base, found, n, os) && found <= n
    requires forall k :: 0 <= k < |accepted| ==> accepted[k].file == id
    ensures OfFile(events[..n], id) == OfFile(events[..found], id) + accepted[base..base + n - found]
    ensures forall other :: other != id ==> OfFile(events[..n], other) == OfFile(events[..found], other)
    decreases n
  {
    if n > found {
      Contribution(events, accepted, base, found, n - 1, os, id);
      assert events[..n][..n - 1] == events[..n - 1];
      var k := base + n - 1 - found;
      assert accepted[base..k + 1] == accepted[base..k] + [accepted[k]];
    }
  }

  /**
   Since base, a file's io_us have left its ring in order; the events have them from the
   first on, each once, and all of them if exact.
   */
  ghost predicate Delivered(fd: FileRing, base: nat, events: seq<Event>, exact: bool)
    reads fd, fd.ring
  {
    && fd.Valid() && base <= fd.retired && OfFile(events, fd.id) <= fd.accepted[base..fd.retired]
    && (exact ==> OfFile(events, fd.id) == fd.accepted[base..fd.retired])
  }

  predicate Apart(files: seq<FileRing>) {
    forall i, j :: 0 <= i < j < |files| ==>
      files[i] != files[j] && files[i].id != files[j].id && files[i].ring != files[j].ring
  }

  /**
   Where getevents stands: events found and their error flags, operations in flight per
   file, answers to come, and whether an error was stored outside the array.
   */
  datatype Pass = Pass(found: nat, errs: seq<bool>, qs: seq<nat>, os: seq<Reap>, bad: bool)

  function Flags(os: seq<Reap>, n: nat): seq<bool> { seq(n, j requires 0 <= j => j < |os| && os[j] == ReapError) }

  function FileDone(p: Pass, i: nat, max: nat, cap: nat): Pass
    requires i < |p.qs| && p.found <= cap
  {
    var q := p.qs[i];
    var l := Leaving(q, p.found, max, cap, p.os);
    var n := Min(p.found + l, cap);
    Pass(n, p.errs + Flags(p.os, n - p.found), p.qs[i := if l <= q then q - l else 0],
         p.os[Asked(q, p.found, max, cap, p.os)..], Overruns(q, p.found, max, cap, p.os))
  }

  /** One pass over the files from number i on; nothing is known past a store outside the array. */
  function RoundDone(p: Pass, i: nat, max: nat, cap: nat): (r: Pass)
    requires i <= |p.qs| && p.found <= cap
    ensures |r.qs| == |p.qs| && r.found <= cap
    decreases |p.qs| - i
  {
    if i == |p.qs| || p.bad then p else RoundDone(FileDone(p, i, max, cap), i + 1, max, cap)
  }

  /** Passes until min events are found or the rounds are used up. */
  function AllDone(p: Pass, min: nat, max: nat, cap: nat, rounds: nat): (r: Pass)
    requires p.found <= cap
    ensures |r.qs| == |p.qs| && r.found <= cap
    decreases rounds
  {
    var r := RoundDone(p, 0, max, cap);
    if r.bad || r.found >= min || rounds == 0 then r else AllDone(r, min, max, cap, rounds - 1)
  }

  function SumFrom(qs: seq<nat>, i: nat): nat
    requires i <= |qs|
    decreases |qs| - i
  {
    if i == |qs| then 0 else qs[i] + SumFrom(qs, i + 1)
  }

  /** Of total operations in flight at the start, all are found or still in flight: none was dropped. */
  predicate Whole(p: Pass, total: nat) { p.found + SumFrom(p.qs, 0) == total }

  /** Operations are only dropped once the array is full. */
  predicate Tally(p: Pass, total: nat, cap: nat) {
    p.found + SumFrom(p.qs, 0) <= total && (Whole(p, total) || p.found == cap)
  }

  lemma {:induction false} SumUpdate(qs: seq<nat>, i: nat, j: nat, q: nat)
    requires i <= |qs| && j < |qs|
    ensures SumFrom(qs[j := q], i) + (if i <= j then qs[j] else 0) == SumFrom(qs, i) + if i <= j then q else 0
    decreases |qs| - i
  {
    if i < |qs| { SumUpdate(qs, i + 1, j, q); }
  }

  /** A file's loop drops what finds no room, and nothing is found once something was dropped. */
  lemma TallyKept(p: Pass, i: nat, max: nat, cap: nat, total: nat)
    requires i < |p.qs| && p.found <= cap && Tally(p, total, cap)
    ensures var n, l := FileDone(p, i, max, cap), Leaving(p.qs[i], p.found, max, cap, p.os);
            && Tally(n, total, cap) && n.found == Min(p.found + l, cap)
            && (Whole(n, total) ==> Whole(p, total) && n.found == p.found + l)
            && (!Whole(p, total) ==> n.found == p.found)
  {
    hide Leaving; hide Asked; hide Overruns; hide Flags;
    LeavingMost(p.qs[i], p.found, max, cap, p.os);
    SumUpdate(p.qs, 0, i, p.qs[i] - Leaving(p.qs[i], p.found, max, cap, p.os));
  }

  /** The rings and the events are as the pass says. */
  ghost predicate InStep(files: seq<FileRing>, bases: seq<nat>, events: seq<Event>, p: Pass, max: nat, total: nat)
    reads files, set i | 0 <= i < |files| :: files[i].ring
  {
    && |bases| == |files| == |p.qs| && p.found <= |events| && p.found <= max && |p.errs| == p.found
    && Tally(p, total, |events|)
    && (forall k :: 0 <= k < p.found ==> events[k].error == p.errs[k])
    && (forall i :: 0 <= i < |files| ==> Delivered(files[i], bases[i], events[..p.found], Whole(p, total)))
    && (forall i :: 0 <= i < |files| ==> files[i].count == p.qs[i])
  }

  /** Taking l io_us off a ring, the first k of them into the events, keeps what was delivered in order. */
  lemma Extends(before: seq<IoU>, after: seq<IoU>, accepted: seq<IoU>, from: nat, base: nat, l: nat, k: nat,
                was: bool, now: bool)
    requires from <= base && base + l <= |accepted| && k <= l
    requires before <= accepted[from..base] && (was ==> before == accepted[from..base])
    requires (now ==> was && k == l) && (!was ==> k == 0)
    requires after == before + accepted[base..base + k]
    ensures after <= accepted[from..base + l]
    ensures now ==> after == accepted[from..base + l]
  {
    if was {
      Slices(accepted, from, base, base + k);
      Slices(accepted, from, base + k, base + l);
      PrefixMore(after, after, accepted[base + k..base + l]);
    } else {
      assert after == before;
      Slices(accepted, from, base, base + l);
      PrefixMore(after, accepted[from..base], accepted[base..base + l]);
    }
  }

  lemma PrefixMore(a: seq<IoU>, b: seq<IoU>, more: seq<IoU>)
    requires a <= b
    ensures a <= b + more
  {
  }

  lemma Slices(s: seq<IoU>, i: nat, j: nat, k: nat)
    requires i <= j <= k <= |s|
    ensures s[i..j] + s[j..k] == s[i..k]
  {
  }

  lemma StillDelivered(fd: FileRing, base: nat, before: seq<Event>, after: seq<Event>, was: bool, now: bool)
    requires Delivered(fd, base, before, was) && OfFile(before, fd.id) == OfFile(after, fd.id) && (now ==> was)
    ensures Delivered(fd, base, after, now)
  {
  }

  method ReapOne(files: seq<FileRing>, fi: nat, arr: array<Event>, max: nat, found: nat, os: seq<Reap>,
                 ghost bases: seq<nat>, ghost p: Pass, ghost total: nat)
    returns (n: nat, rest: seq<Reap>, overrun: bool)
    requires Apart(files) && fi < |files| && p.found == found && p.os == os
    requires InStep(files, bases, arr[..], p, max, total)
    modifies files[fi], arr
    ensures files[fi].accepted == old(files[fi].accepted) && n <= arr.Length
    ensures var r := FileDone(p, fi, max, arr.Length);
            InStep(files, bases, arr[..], r, max, total) && r.found == n && r.os == rest && r.bad == overrun
  {
    hide FileRing.Valid; hide Leaving; hide Filled; hide OfFile; hide Asked; hide Overruns; hide Delivered;
    hide InStep; hide Flags; hide Whole; hide Tally;
    EndStep(files, bases, arr[..], p, max, total);
    var fd := files[fi];
    ghost var before, base := arr[..found], fd.retired;
    BeforeReap(fd, bases[fi], before, Whole(p, total));
    assert arr[..][..found] == before;
    n, rest, overrun := ReapFile(fd, arr, found, max, os);
    assert arr[..][..found] == before;
    FileReaped(files, fi, bases, before, arr[..], p, max, base, total);
  }

  /** After the loop over one file: its new events, and that the other files are as they were. */
  lemma FileReaped(files: seq<FileRing>, fi: nat, bases: seq<nat>, before: seq<Event>, events: seq<Event>, p: Pass,
                   max: nat, base: nat, total: nat)
    requires Apart(files) && fi < |files| == |bases| == |p.qs| && p.found <= |events| && p.found <= max
    requires Tally(p, total, |events|) && |p.errs| == p.found && events[..p.found] == before
    requires forall k :: 0 <= k < p.found ==> before[k].error == p.errs[k]
    requires var fd, l, cap := files[fi], Leaving(p.qs[fi], p.found, max, |events|, p.os), |events|;
             && fd.Valid() && bases[fi] <= base && fd.retired == base + l && fd.count + fd.retired == p.qs[fi] + base
             && Filled(events, fd.accepted, base, p.found, Min(p.found + l, cap), p.os)
             && OfFile(before, fd.id) <= fd.accepted[bases[fi]..base]
             && (Whole(p, total) ==> OfFile(before, fd.id) == fd.accepted[bases[fi]..base])
    requires forall i :: 0 <= i < |files| && i != fi ==>
               Delivered(files[i], bases[i], before, Whole(p, total)) && files[i].count == p.qs[i]
    ensures InStep(files, bases, events, FileDone(p, fi, max, |events|), max, total)
  {
    hide FileRing.Valid; hide Leaving; hide Filled; hide OfFile; hide Delivered; hide InStep; hide Whole; hide Tally;
    hide FileDone; hide Min; hide Flags; hide Apart;
    var fd, found, cap, r := files[fi], p.found, |events|, FileDone(p, fi, max, |events|);
    var l := Leaving(p.qs[fi], found, max, cap, p.os);
    DoneIs(p, fi, max, cap);
    TallyKept(p, fi, max, cap, total);
    FilesReaped(files, fi, bases, base, l, before, events, found, r.found, p.os, Whole(p, total), Whole(r, total));
    ErrorsAppend(events, fd.accepted, base, p, r.found, r.errs);
    BuildStep(files, bases, events, r, max, total);
  }

  lemma DoneIs(p: Pass, i: nat, max: nat, cap: nat)
    requires i < |p.qs| && p.found <= cap && p.found <= max
    ensures var l, r := Leaving(p.qs[i], p.found, max, cap, p.os), FileDone(p, i, max, cap);
            && r.found == Min(p.found + l, cap) && p.found <= r.found <= p.found + l && r.found <= cap && r.found <= max
            && r.errs == p.errs + Flags(p.os, r.found - p.found) && |r.qs| == |p.qs| && r.qs[i] + l == p.qs[i]
            && forall j :: 0 <= j < |p.qs| && j != i ==> r.qs[j] == p.qs[j]
  {
    hide Leaving; hide Asked; hide Overruns; hide Flags;
    LeavingMost(p.qs[i], p.found, max, cap, p.os);
  }

  /** Every file after the loop over one of them. */
  lemma FilesReaped(files: seq<FileRing>, fi: nat, bases: seq<nat>, base: nat, l: nat, before: seq<Event>,
                    events: seq<Event>, found: nat, n: nat, os: seq<Reap>, was: bool, now: bool)
    requires Apart(files) && fi < |files| == |bases| && found <= n <= |events| && n - found <= l
    requires var fd := files[fi];
             && fd.Valid() && bases[fi] <= base && fd.retired == base + l
             && events[..found] == before && Filled(events, fd.accepted, base, found, n, os)
             && OfFile(before, fd.id) <= fd.accepted[bases[fi]..base]
             && (was ==> OfFile(before, fd.id) == fd.accepted[bases[fi]..base])
    requires (now ==> was && n == found + l) && (!was ==> n == found)
    requires forall i :: 0 <= i < |files| && i != fi ==> Delivered(files[i], bases[i], before, was)
    ensures forall i :: 0 <= i < |files| ==> Delivered(files[i], bases[i], events[..n], now)
  {
    hide FileRing.Valid; hide Filled; hide OfFile; hide Delivered;
    OwnReaped(files[fi], bases[fi], base, l, before, events, found, n, os, was, now);
    OthersReaped(files, fi, bases, before, events[..n], was, now);
  }

  /** The file reaped: l of its io_us left, n - found of them into the events. */
  lemma OwnReaped(fd: FileRing, from: nat, base: nat, l: nat, before: seq<Event>, events: seq<Event>, found: nat,
                  n: nat, os: seq<Reap>, was: bool, now: bool)
    requires fd.Valid() && from <= base && fd.retired == base + l && found <= n <= |events|
    requires events[..found] == before && n - found <= l && Filled(events, fd.accepted, base, found, n, os)
    requires OfFile(before, fd.id) <= fd.accepted[from..base]
    requires was ==> OfFile(before, fd.id) == fd.accepted[from..base]
    requires (now ==> was && n == found + l) && (!was ==> n == found)
    ensures Delivered(fd, from, events[..n], now)
    ensures forall id :: id != fd.id ==> OfFile(events[..n], id) == OfFile(before, id)
  {
    hide FileRing.Valid; hide Filled; hide OfFile; hide Delivered;
    Contribution(events, fd.accepted, base, found, n, os, fd.id);
    Extends(OfFile(before, fd.id), OfFile(events[..n], fd.id), fd.accepted, from, base, l, n - found, was, now);
    AfterReap(fd, from, events[..n], now);
  }

  lemma OthersReaped(files: seq<FileRing>, fi: nat, bases: seq<nat>, before: seq<Event>, after: seq<Event>,
                     was: bool, now: bool)
    requires fi < |files| == |bases| && Apart(files) && (now ==> was)
    requires forall id :: id != files[fi].id ==> OfFile(after, id) == OfFile(before, id)
    requires forall i :: 0 <= i < |files| && i != fi ==> Delivered(files[i], bases[i], before, was)
    ensures forall i :: 0 <= i < |files| && i != fi ==> Delivered(files[i], bases[i], after, now)
  {
    hide FileRing.Valid; hide OfFile; hide Delivered;
    forall i | 0 <= i < |files| && i != fi
      ensures Delivered(files[i], bases[i], after, now)
    {
      StillDelivered(files[i], bases[i], before, after, was, now);
    }
  }

  lemma ErrorsAppend(events: seq<Event>, accepted: seq<IoU>, base: nat, p: Pass, n: nat, errs: seq<bool>)
    requires p.found <= n <= |events| && Filled(events, accepted, base, p.found, n, p.os) && |p.errs| == p.found
    requires forall k :: 0 <= k < p.found ==> events[..p.found][k].error == p.errs[k]
    requires errs == p.errs + Flags(p.os, n - p.found)
    ensures |errs| == n && forall k :: 0 <= k < n ==> events[k].error == errs[k]
  {
    FilledErrors(events, accepted, base, p.found, n, p.os);
    forall k | 0 <= k < p.found
      ensures events[k].error == p.errs[k]
    {
      assert events[..p.found][k] == events[k];
    }
  }

  lemma BeforeReap(fd: FileRing, base: nat, events: seq<Event>, exact: bool)
    requires Delivered(fd, base, events, exact)
    ensures fd.Valid() && base <= fd.retired <= |fd.accepted| && OfFile(events, fd.id) <= fd.accepted[base..fd.retired]
    ensures exact ==> OfFile(events, fd.id) == fd.accepted[base..fd.retired]
  {
  }

  lemma AfterReap(fd: FileRing, base: nat, events: seq<Event>, exact: bool)
    requires fd.Valid() && base <= fd.retired && OfFile(events, fd.id) <= fd.accepted[base..fd.retired]
    requires exact ==> OfFile(events, fd.id) == fd.accepted[base..fd.retired]
    ensures Delivered(fd, base, events, exact)
  {
  }

  lemma BuildStep(files: seq<FileRing>, bases: seq<nat>, events: seq<Event>, p: Pass, max: nat, total: nat)
    requires |bases| == |files| == |p.qs| && p.found <= |events| && p.found <= max && |p.errs| == p.found
    requires Tally(p, total, |events|)
    requires forall i :: 0 <= i < |files| ==> Delivered(files[i], bases[i], events[..p.found], Whole(p, total))
    requires forall k :: 0 <= k < p.found ==> events[k].error == p.errs[k]
    requires forall i :: 0 <= i < |files| ==> files[i].count == p.qs[i]
    ensures InStep(files, bases, events, p, max, total)
  {
  }

  lemma {:induction false} LeavingMost(q: nat, found: nat, max: nat, cap: nat, os: seq<Reap>)
    requires found <= cap
    ensures Leaving(q, found, max, cap, os) <= q
    ensures found <= max <= cap ==> found + Leaving(q, found, max, cap, os) <= max
    decreases q
  {
    if q > 0 && found < max && os != [] && os[0] == Done {
      LeavingMost(q - 1, if found < cap then found + 1 else found, max, cap, os[1..]);
    }
  }

  lemma FilledErrors(events: seq<Event>, accepted: seq<IoU>, base: nat, found: nat, n: nat, os: seq<Reap>)
    requires Filled(events, accepted, base, found, n, os) && found <= n
    ensures forall k :: found <= k < n ==> events[k].error == Flags(os, n - found)[k - found]
  {
  }

  /** One pass of getevents over the files. */
  method ReapRound(files: seq<FileRing>, arr: array<Event>, max: nat, found: nat, os: seq<Reap>,
                   ghost bases: seq<nat>, ghost p: Pass, ghost total: nat)
    returns (n: nat, rest: seq<Reap>, overrun: bool)
    requires Apart(files) && p.found == found && p.os == os && !p.bad && InStep(files, bases, arr[..], p, max, total)
    modifies files, arr
    ensures forall i :: 0 <= i < |files| ==> files[i].accepted == old(files[i].accepted)
    ensures n <= arr.Length && found <= arr.Length && |p.qs| == |files|
    ensures var r := RoundDone(p, 0, max, arr.Length);
            InStep(files, bases, arr[..], r, max, total) && r.found == n && r.os == rest && r.bad == overrun
  {
    hide FileDone; hide InStep;
    StepShape(files, bases, arr[..], p, max, total);
    n, rest, overrun := found, os, false;
    ghost var now := p;
    var fi := 0;
    while fi < |files| && !overrun
      invariant fi <= |files| == |now.qs| && now.found == n <= arr.Length && now.os == rest && now.bad == overrun
      invariant InStep(files, bases, arr[..], now, max, total)
      invariant RoundDone(now, fi, max, arr.Length) == RoundDone(p, 0, max, arr.Length)
      invariant forall i :: 0 <= i < |files| ==> files[i].accepted == old(files[i].accepted)
      decreases |files| - fi
    {
      n, rest, overrun := ReapOne(files, fi, arr, max, n, rest, bases, now, total);
      now := FileDone(now, fi, max, arr.Length);
      StepShape(files, bases, arr[..], now, max, total);
      fi := fi + 1;
    }
  }

  lemma StepShape(files: seq<FileRing>, bases: seq<nat>, events: seq<Event>, p: Pass, max: nat, total: nat)
    requires InStep(files, bases, events, p, max, total)
    ensures |p.qs| == |files| && p.found <= |events|
  {
  }

  /** How many are in flight on each file. */
  ghost function Counts(files: seq<FileRing>): (qs: seq<nat>)
    reads files
    ensures |qs| == |files| && forall i :: 0 <= i < |files| ==> qs[i] == files[i].count
  {
    seq(|files|, i requires 0 <= i < |files| reads files => files[i].count)
  }

  /** max events, or all that is in flight, fit the array. */
  predicate Fits(qs: seq<nat>, max: nat, cap: nat) { max <= cap || SumFrom(qs, 0) <= cap }

  /**
   fio_rocm_xio_getevents: passes over the files until min events are found or the rounds
   that fit before the deadline are used up. The events are what left the rings, in order
   and with the errors they were reaped with: all of it if as many were found as left.
   */
  method GetEvents(files: seq<FileRing>, arr: array<Event>, min: nat, max: nat, rounds: nat, os: seq<Reap>)
    returns (n: nat, overrun: bool)
    requires Apart(files) && forall i :: 0 <= i < |files| ==> files[i].Valid()
    modifies files, arr
    ensures n <= max && n <= arr.Length
    ensures forall i :: 0 <= i < |files| ==> files[i].accepted == old(files[i].accepted)
    ensures var qs := old(Counts(files));
            var r := AllDone(Pass(0, [], qs, os, false), min, max, arr.Length, rounds);
            && n == r.found == |r.errs| && overrun == r.bad && (forall k :: 0 <= k < n ==> arr[k].error == r.errs[k])
            && (forall i :: 0 <= i < |files| ==> files[i].count == r.qs[i])
            && (forall i :: 0 <= i < |files| ==>
                  Delivered(files[i], old(files[i].retired), arr[..n], Whole(r, SumFrom(qs, 0))))
            && (Fits(qs, max, arr.Length) ==> !overrun && Whole(r, SumFrom(qs, 0)))
  {
    hide InStep; hide AllDone; hide FileRing.Valid; hide Whole; hide Fits; hide Delivered; hide SumFrom; hide Apart;
    ghost var bases := seq(|files|, i requires 0 <= i < |files| => old(files[i].retired));
    ghost var qs := Counts(files);
    ghost var p, total := Pass(0, [], qs, os, false), SumFrom(qs, 0);
    StartStep(files, bases, arr[..], p, max);
    n, overrun := ReapUntil(files, arr, min, max, rounds, os, bases, p, total);
    EndStep(files, bases, arr[..], AllDone(p, min, max, arr.Length, rounds), max, total);
    if Fits(qs, max, arr.Length) { FittingCall(qs, os, min, max, arr.Length, rounds); }
    assert arr[..n] == arr[..][..n];
  }

  /** The loop of getevents. */
  method ReapUntil(files: seq<FileRing>, arr: array<Event>, min: nat, max: nat, rounds: nat, os: seq<Reap>,
                   ghost bases: seq<nat>, ghost p: Pass, ghost total: nat)
    returns (n: nat, overrun: bool)
    requires Apart(files) && p.found == 0 && p.os == os && !p.bad && InStep(files, bases, arr[..], p, max, total)
    modifies files, arr
    ensures forall i :: 0 <= i < |files| ==> files[i].accepted == old(files[i].accepted)
    ensures n <= arr.Length
    ensures var r := AllDone(p, min, max, arr.Length, rounds);
            InStep(files, bases, arr[..], r, max, total) && r.found == n && r.bad == overrun
  {
    hide InStep; hide RoundDone; hide AllDone; hide Apart;
    var left, rest := rounds, os;
    n, rest, overrun := ReapRound(files, arr, max, 0, rest, bases, p, total);
    ghost var cap := arr.Length;
    ghost var now := RoundDone(p, 0, max, cap);
    OneRound(p, min, max, cap, rounds);
    while n < min && left > 0 && !overrun
      invariant InStep(files, bases, arr[..], now, max, total) && now.found == n <= cap && now.os == rest
      invariant |now.qs| == |files| && now.bad == overrun
      invariant AllDone(p, min, max, cap, rounds) ==
                if overrun || n >= min || left == 0 then now else AllDone(now, min, max, cap, left - 1)
      invariant forall i :: 0 <= i < |files| ==> files[i].accepted == old(files[i].accepted)
      decreases left
    {
      OneRound(now, min, max, cap, left - 1);
      n, rest, overrun := ReapRound(files, arr, max, n, rest, bases, now, total);
      now := RoundDone(now, 0, max, cap);
      left := left - 1;
    }
  }

  lemma StartStep(files: seq<FileRing>, bases: seq<nat>, events: seq<Event>, p: Pass, max: nat)
    requires p.found == 0 && p.errs == [] && |bases| == |files| == |p.qs|
    requires forall i :: 0 <= i < |files| ==>
               files[i].Valid() && files[i].retired == bases[i] && files[i].count == p.qs[i]
    ensures InStep(files, bases, events, p, max, SumFrom(p.qs, 0))
  {
    hide FileRing.Valid;
    assert events[..0] == [];
  }

  lemma EndStep(files: seq<FileRing>, bases: seq<nat>, events: seq<Event>, p: Pass, max: nat, total: nat)
    requires InStep(files, bases, events, p, max, total)
    ensures |bases| == |files| == |p.qs| && p.found <= |events| && p.found <= max && |p.errs| == p.found
    ensures Tally(p, total, |events|)
    ensures forall i :: 0 <= i < |files| ==> Delivered(files[i], bases[i], events[..p.found], Whole(p, total))
    ensures forall k :: 0 <= k < p.found ==> events[k].error == p.errs[k]
    ensures forall i :: 0 <= i < |files| ==> files[i].count == p.qs[i]
  {
  }

  lemma OneRound(p: Pass, min: nat, max: nat, cap: nat, rounds: nat)
    requires p.found <= cap
    ensures var r := RoundDone(p, 0, max, cap);
            AllDone(p, min, max, cap, rounds) ==
            if r.bad || r.found >= min || rounds == 0 then r else AllDone(r, min, max, cap, rounds - 1)
  {
  }

  // ---------------------------------------------------------------- what a pass finds

  predicate AllReady(os: seq<Reap>) { forall k :: 0 <= k < |os| ==> os[k] == Done }

  lemma {:induction false} ReadyLeaves(q: nat, found: nat, max: nat, cap: nat, os: seq<Reap>)
    requires AllReady(os) && |os| >= q && found <= max <= cap
    ensures Leaving(q, found, max, cap, os) == Asked(q, found, max, cap, os) == Min(q, max - found)
    ensures !Overruns(q, found, max, cap, os)
    decreases q
  {
    if q > 0 && found < max { ReadyLeaves(q - 1, found + 1, max, cap, os[1..]); }
  }

  /** With every completion in, one pass finds all that is in flight, up to max. */
  lemma {:induction false} ReadyRound(p: Pass, i: nat, max: nat, cap: nat)
    requires i <= |p.qs| && p.found <= max <= cap && AllReady(p.os) && |p.os| >= SumFrom(p.qs, i) && !p.bad
    ensures RoundDone(p, i, max, cap).found == Min(max, p.found + SumFrom(p.qs, i))
    decreases |p.qs| - i
  {
    hide Leaving; hide Asked; hide Overruns; hide Flags;
    if i < |p.qs| {
      ReadyLeaves(p.qs[i], p.found, max, cap, p.os);
      var n := FileDone(p, i, max, cap);
      assert AllReady(n.os);
      SumSame(p.qs, i + 1, i, p.qs[i] - Min(p.qs[i], max - p.found));
      ReadyRound(n, i + 1, max, cap);
    }
  }

  lemma {:induction false} SumSame(qs: seq<nat>, i: nat, j: nat, q: nat)
    requires j < i <= |qs|
    ensures SumFrom(qs[j := q], i) == SumFrom(qs, i)
    decreases |qs| - i
  {
    if i < |qs| { SumSame(qs, i + 1, j, q); }
  }

  /** The state after k + 1 passes over the files, or after the one that stored outside the array. */
  function Passes(p: Pass, max: nat, cap: nat, k: nat): (r: Pass)
    requires p.found <= cap
    ensures r.found <= cap
    decreases k
  {
    if k == 0 then RoundDone(p, 0, max, cap)
    else
      var before := Passes(p, max, cap, k - 1);
      if before.bad then before else RoundDone(before, 0, max, cap)
  }

  lemma {:induction false} PassesShift(p: Pass, max: nat, cap: nat, k: nat)
    requires p.found <= cap && !RoundDone(p, 0, max, cap).bad
    ensures Passes(RoundDone(p, 0, max, cap), max, cap, k) == Passes(p, max, cap, k + 1)
    decreases k
  {
    hide RoundDone;
    if k > 0 { PassesShift(p, max, cap, k - 1); }
  }

  /** A call stops after the first pass that has found min events, or with its rounds used up. */
  predicate StopsAfter(p: Pass, min: nat, max: nat, cap: nat, rounds: nat, k: nat)
    requires p.found <= cap
  {
    var r := Passes(p, max, cap, k);
    && k <= rounds && (r.found >= min || r.bad || k == rounds)
    && forall j :: 0 <= j < k ==> Passes(p, max, cap, j).found < min && !Passes(p, max, cap, j).bad
  }

  lemma {:induction false} StopsWhen(p: Pass, min: nat, max: nat, cap: nat, rounds: nat) returns (k: nat)
    requires p.found <= cap
    ensures StopsAfter(p, min, max, cap, rounds, k)
    ensures AllDone(p, min, max, cap, rounds) == Passes(p, max, cap, k)
    decreases rounds
  {
    hide RoundDone; hide AllDone;
    OneRound(p, min, max, cap, rounds);
    var r := RoundDone(p, 0, max, cap);
    if r.bad || r.found >= min || rounds == 0 {
      k := 0;
    } else {
      var m := StopsWhen(r, min, max, cap, rounds - 1);
      k := m + 1;
      PassesShift(p, max, cap, m);
      forall j | 0 <= j < k
        ensures Passes(p, max, cap, j).found < min && !Passes(p, max, cap, j).bad
      {
        if j > 0 { PassesShift(p, max, cap, j - 1); }
      }
    }
  }

  /**
   The loop over one file takes completions as long as it gets any, and stops at the first that
   failed, at the first operation that is not done, at max events or with the ring empty.
   */
  lemma {:induction false} LoopEnds(q: nat, found: nat, max: nat, cap: nat, os: seq<Reap>)
    requires found <= cap && found <= max
    ensures var l, a := Leaving(q, found, max, cap, os), Asked(q, found, max, cap, os);
            && l <= q && l <= |os| && l <= a <= l + 1
            && (forall k :: 0 <= k < l ==> os[k] == Done || (os[k] == ReapError && k == l - 1))
            && (a > l ==> l < |os| && os[l] == NotDone)
            && (|| (l > 0 && os[l - 1] == ReapError)
                || l == q || Min(found + l, cap) >= max || l == |os| || os[l] == NotDone)
    decreases q
  {
    if q > 0 && found < max && os != [] && os[0] == Done {
      LoopEnds(q - 1, if found < cap then found + 1 else found, max, cap, os[1..]);
    }
  }

  // ---------------------------------------------------------------- when a call is safe

  /** What the rest of a pass needs to find room for everything. */
  predicate Roomy(p: Pass, max: nat, cap: nat) {
    (p.found <= max && max <= cap) || p.found + SumFrom(p.qs, 0) <= cap
  }

  lemma RoomyFile(p: Pass, i: nat, max: nat, cap: nat)
    requires i < |p.qs| && p.found <= cap && !p.bad && Roomy(p, max, cap)
    ensures var n := FileDone(p, i, max, cap);
            !n.bad && Roomy(n, max, cap) && n.found + SumFrom(n.qs, 0) == p.found + SumFrom(p.qs, 0)
  {
    hide Leaving; hide Asked; hide Overruns; hide Flags;
    var l := Leaving(p.qs[i], p.found, max, cap, p.os);
    LeavingMost(p.qs[i], p.found, max, cap, p.os);
    SumUpdate(p.qs, 0, i, p.qs[i] - l);
    SumUpdate(p.qs, 0, i, 0);
    NoOverrun(p.qs[i], p.found, max, cap, p.os);
  }

  lemma {:induction false} RoomyRound(p: Pass, i: nat, max: nat, cap: nat)
    requires i <= |p.qs| && p.found <= cap && !p.bad && Roomy(p, max, cap)
    ensures var r := RoundDone(p, i, max, cap);
            !r.bad && Roomy(r, max, cap) && r.found + SumFrom(r.qs, 0) == p.found + SumFrom(p.qs, 0)
    decreases |p.qs| - i
  {
    hide FileDone; hide Roomy;
    if i < |p.qs| {
      RoomyFile(p, i, max, cap);
      DoneShape(p, i, max, cap);
      RoomyRound(FileDone(p, i, max, cap), i + 1, max, cap);
    }
  }

  lemma DoneShape(p: Pass, i: nat, max: nat, cap: nat)
    requires i < |p.qs| && p.found <= cap
    ensures |FileDone(p, i, max, cap).qs| == |p.qs| && FileDone(p, i, max, cap).found <= cap
  {
  }

  lemma {:induction false} RoomyAll(p: Pass, min: nat, max: nat, cap: nat, rounds: nat)
    requires p.found <= cap && !p.bad && Roomy(p, max, cap)
    ensures var r := AllDone(p, min, max, cap, rounds);
            !r.bad && r.found + SumFrom(r.qs, 0) == p.found + SumFrom(p.qs, 0)
    decreases rounds
  {
    hide RoundDone; hide Roomy;
    RoomyRound(p, 0, max, cap);
    if rounds > 0 { RoomyAll(RoundDone(p, 0, max, cap), min, max, cap, rounds - 1); }
  }

  lemma FittingCall(qs: seq<nat>, os: seq<Reap>, min: nat, max: nat, cap: nat, rounds: nat)
    requires Fits(qs, max, cap)
    ensures var r := AllDone(Pass(0, [], qs, os, false), min, max, cap, rounds); !r.bad && Whole(r, SumFrom(qs, 0))
  {
    RoomyAll(Pass(0, [], qs, os, false), min, max, cap, rounds);
  }

  /** The first q answers are completions, and all find room or are dropped. */
  lemma {:induction false} DoneLeaves(q: nat, found: nat, max: nat, cap: nat, os: seq<Reap>)
    requires found <= cap < max && |os| >= q && forall k :: 0 <= k < q ==> os[k] == Done
    ensures Leaving(q, found, max, cap, os) == Asked(q, found, max, cap, os) == q && !Overruns(q, found, max, cap, os)
    decreases q
  {
    if q > 0 { DoneLeaves(q - 1, if found < cap then found + 1 else found, max, cap, os[1..]); }
  }

  /** Completions that fill the array, and then an error. */
  predicate FillsThenFails(os: seq<Reap>, n: nat) {
    |os| == n + 1 && os[n] == ReapError && forall k :: 0 <= k < n ==> os[k] == Done
  }

  lemma {:induction false} RoundOverruns(p: Pass, i: nat, max: nat, cap: nat)
    requires i <= |p.qs| && p.found <= cap < max && !p.bad && FillsThenFails(p.os, cap - p.found)
    requires p.found + SumFrom(p.qs, i) > cap
    ensures RoundDone(p, i, max, cap).bad
    decreases |p.qs| - i
  {
    hide Leaving; hide Asked; hide Overruns; hide Flags;
    var q := p.qs[i];
    var n := FileDone(p, i, max, cap);
    if q <= cap - p.found {
      DoneLeaves(q, p.found, max, cap, p.os);
      SumUpdate(p.qs, i + 1, i, 0);
      RoundOverruns(n, i + 1, max, cap);
    } else {
      ErrorOverruns(q, p.found, max, cap, p.os);
    }
  }

  lemma {:induction false} RoundEmpties(p: Pass, i: nat, max: nat, cap: nat)
    requires i <= |p.qs| && p.found <= cap < max && !p.bad && AllReady(p.os) && |p.os| >= SumFrom(p.qs, i)
    requires forall k :: 0 <= k < i ==> p.qs[k] == 0
    ensures var r := RoundDone(p, i, max, cap); !r.bad && forall k :: 0 <= k < |r.qs| ==> r.qs[k] == 0
    decreases |p.qs| - i
  {
    hide Leaving; hide Asked; hide Overruns; hide Flags;
    if i < |p.qs| {
      DoneLeaves(p.qs[i], p.found, max, cap, p.os);
      SumUpdate(p.qs, i + 1, i, 0);
      RoundEmpties(FileDone(p, i, max, cap), i + 1, max, cap);
    }
  }

  lemma {:induction false} SumZero(qs: seq<nat>, i: nat)
    requires i <= |qs| && forall k :: 0 <= k < |qs| ==> qs[k] == 0
    ensures SumFrom(qs, i) == 0
    decreases |qs| - i
  {
    if i < |qs| { SumZero(qs, i + 1); }
  }

  /** A call on rings of these sizes, with these answers: inside the array, and without a drop. */
  predicate Inside(qs: seq<nat>, max: nat, cap: nat, min: nat, rounds: nat, os: seq<Reap>) {
    !AllDone(Pass(0, [], qs, os, false), min, max, cap, rounds).bad
  }

  predicate Lossless(qs: seq<nat>, max: nat, cap: nat, min: nat, rounds: nat, os: seq<Reap>) {
    Whole(AllDone(Pass(0, [], qs, os, false), min, max, cap, rounds), SumFrom(qs, 0))
  }

  /** No answer makes a call store outside the array exactly when max events, or all in flight, fit it. */
  lemma InsideIff(qs: seq<nat>, max: nat, cap: nat)
    ensures (forall min: nat, rounds: nat, os: seq<Reap> :: Inside(qs, max, cap, min, rounds, os)) <==>
            Fits(qs, max, cap)
  {
    if Fits(qs, max, cap) {
      forall min: nat, rounds: nat, os: seq<Reap> ensures Inside(qs, max, cap, min, rounds, os) {
        FittingCall(qs, os, min, max, cap, rounds);
      }
    } else {
      var os := FillThenFail(cap);
      RoundOverruns(Pass(0, [], qs, os, false), 0, max, cap);
      assert !Inside(qs, max, cap, 0, 0, os);
    }
  }

  /** No answer makes a call drop a completion exactly under the same condition. */
  lemma LosslessIff(qs: seq<nat>, max: nat, cap: nat)
    ensures (forall min: nat, rounds: nat, os: seq<Reap> :: Lossless(qs, max, cap, min, rounds, os)) <==>
            Fits(qs, max, cap)
  {
    if Fits(qs, max, cap) {
      forall min: nat, rounds: nat, os: seq<Reap> ensures Lossless(qs, max, cap, min, rounds, os) {
        FittingCall(qs, os, min, max, cap, rounds);
      }
    } else {
      var os := Ready(SumFrom(qs, 0));
      var p := Pass(0, [], qs, os, false);
      RoundEmpties(p, 0, max, cap);
      SumZero(RoundDone(p, 0, max, cap).qs, 0);
      assert !Lossless(qs, max, cap, 0, 0, os);
    }
  }

  lemma Ready(n: nat) returns (os: seq<Reap>)
    ensures |os| == n && AllReady(os)
  {
    os := seq(n, _ => Done);
  }

  // ---------------------------------------------------------------- runs

  lemma {:induction false} OfFileAppend(a: seq<Event>, b: seq<Event>, id: nat)
    ensures OfFile(a + b, id) == OfFile(a, id) + OfFile(b, id)
    decreases |b|
  {
    if b == [] {
      assert a + b == a;
    } else {
      assert (a + b)[..|a + b| - 1] == a + b[..|b| - 1];
      OfFileAppend(a, b[..|b| - 1], id);
    }
  }

  /** The io_us of one file, in order. */
  function Mine(ios: seq<IoU>, id: nat): seq<IoU> {
    if ios == [] then []
    else Mine(ios[..|ios| - 1], id) + if ios[|ios| - 1].file == id then [ios[|ios| - 1]] else []
  }

  /** A call of fio: queue() on a file, or getevents(), with what the hardware answers. */
  datatype Command =
    | Submit(file: nat, attached: bool, io: IoU, ddir: Direction, post: Post)
    | Collect(min: nat, max: nat, rounds: nat, os: seq<Reap>)

  predicate Proper(cmd: Command, files: seq<FileRing>) {
    cmd.Submit? ==> cmd.file < |files| && cmd.io.file == files[cmd.file].id
  }

  /** The most that can be in flight on the files together. */
  function Depth(files: seq<FileRing>): nat {
    SumFrom(seq(|files|, i requires 0 <= i < |files| => files[i].iodepth), 0)
  }

  lemma {:induction false} SumAtMost(xs: seq<nat>, ys: seq<nat>, i: nat)
    requires i <= |xs| == |ys| && forall k :: 0 <= k < |xs| ==> xs[k] <= ys[k]
    ensures SumFrom(xs, i) <= SumFrom(ys, i)
    decreases |xs| - i
  {
    if i < |xs| { SumAtMost(xs, ys, i + 1); }
  }

  /** The events array is large enough for this call, whatever is in flight. */
  predicate Ample(cmd: Command, files: seq<FileRing>, cap: nat) {
    cmd.Collect? ==> cmd.max <= cap || Depth(files) <= cap
  }

  /**
   Since the start, what was accepted of a file is what was queued; if nothing was dropped,
   what left it is in the log.
   */
  ghost predicate Kept(fd: FileRing, accepted: seq<IoU>, base: nat, queued: seq<IoU>, log: seq<Event>, whole: bool)
    reads fd, fd.ring
  {
    && fd.Valid() && fd.accepted == accepted + Mine(queued, fd.id) && base <= fd.retired
    && (whole ==> OfFile(log, fd.id) == fd.accepted[base..fd.retired])
  }

  /** getevents as a step of a session. */
  method CollectStep(files: seq<FileRing>, arr: array<Event>, cmd: Command, ghost accs: seq<seq<IoU>>,
                     ghost bases: seq<nat>, ghost queued: seq<IoU>, log: seq<Event>, ghost was: bool)
    returns (more: seq<Event>, overrun: bool, ghost whole: bool)
    requires Apart(files) && cmd.Collect? && |accs| == |bases| == |files|
    requires forall i :: 0 <= i < |files| ==> Kept(files[i], accs[i], bases[i], queued, log, was)
    modifies files, arr
    ensures forall i :: 0 <= i < |files| ==> Kept(files[i], accs[i], bases[i], queued, log + more, whole)
    ensures was && Ample(cmd, files, arr.Length) ==> whole && !overrun
  {
    hide FileRing.Valid; hide OfFile; hide Mine; hide AllDone; hide Apart; hide SumFrom; hide Whole;
    ghost var qs := Counts(files);
    InFlight(files);
    ghost var r := AllDone(Pass(0, [], qs, cmd.os, false), cmd.min, cmd.max, arr.Length, cmd.rounds);
    ghost var now := Whole(r, SumFrom(qs, 0));
    var n: nat;
    n, overrun := GetEvents(files, arr, cmd.min, cmd.max, cmd.rounds, cmd.os);
    more, whole := arr[..n], was && now;
    forall i | 0 <= i < |files|
      ensures Kept(files[i], accs[i], bases[i], queued, log + more, whole)
    {
      assert Delivered(files[i], old(files[i].retired), more, now);
      OfFileAppend(log, more, files[i].id);
      Slices(files[i].accepted, bases[i], old(files[i].retired), files[i].retired);
    }
  }

  lemma InFlight(files: seq<FileRing>)
    requires forall i :: 0 <= i < |files| ==> files[i].Valid()
    ensures SumFrom(Counts(files), 0) <= Depth(files)
  {
    SumAtMost(Counts(files), seq(|files|, i requires 0 <= i < |files| => files[i].iodepth), 0);
  }

  /** queue() as a step of a session. */
  method SubmitStep(files: seq<FileRing>, cmd: Command, ghost accs: seq<seq<IoU>>, ghost bases: seq<nat>,
                    queued: seq<IoU>, ghost log: seq<Event>, ghost whole: bool)
    returns (now: seq<IoU>)
    requires Apart(files) && cmd.Submit? && cmd.file < |files| && cmd.io.file == files[cmd.file].id
    requires |accs| == |bases| == |files|
    requires forall i :: 0 <= i < |files| ==> Kept(files[i], accs[i], bases[i], queued, log, whole)
    modifies files[cmd.file], files[cmd.file].ring
    ensures forall i :: 0 <= i < |files| ==> Kept(files[i], accs[i], bases[i], now, log, whole)
  {
    hide FileRing.Valid; hide OfFile; hide Mine;
    var fd := files[cmd.file];
    var status := fd.Queue(cmd.attached, cmd.io, cmd.ddir, cmd.post);
    now := if status == Queued then queued + [cmd.io] else queued;
    MineNext(queued, cmd.io);
  }

  lemma MineNext(ios: seq<IoU>, io: IoU)
    ensures Mine(ios + [io], io.file) == Mine(ios, io.file) + [io]
    ensures forall id :: id != io.file ==> Mine(ios + [io], id) == Mine(ios, id)
  {
    assert (ios + [io])[..|ios|] == ios;
  }

  /**
   Exactly-once delivery over a session: for every sequence of queue() and getevents()
   calls, including failed posts and BUSY answers, and every answer of the hardware, the
   io_us of a file in the events collected, followed by those still in its ring, are those
   that queue() accepted, in order and each once, if the array is large enough for the
   calls. A session ends at a store outside the array.
   */
  method Session(files: seq<FileRing>, arr: array<Event>, cmds: seq<Command>)
    returns (queued: seq<IoU>, log: seq<Event>, overrun: bool, ghost whole: bool)
    requires Apart(files) && forall i :: 0 <= i < |files| ==> files[i].Valid()
    requires forall k :: 0 <= k < |cmds| ==> Proper(cmds[k], files)
    modifies files, set i | 0 <= i < |files| :: files[i].ring, arr
    ensures forall i :: 0 <= i < |files| ==>
              Kept(files[i], old(files[i].accepted), old(files[i].retired), queued, log, whole)
    ensures (forall k :: 0 <= k < |cmds| ==> Ample(cmds[k], files, arr.Length)) ==> whole && !overrun
  {
    hide FileRing.Valid; hide OfFile; hide Mine; hide Kept; hide Ample;
    ghost var accs := seq(|files|, i requires 0 <= i < |files| => old(files[i].accepted));
    ghost var bases := seq(|files|, i requires 0 <= i < |files| => old(files[i].retired));
    queued, log, overrun, whole := [], [], false, true;
    SessionStarts(files);
    var k := 0;
    while k < |cmds| && !overrun
      invariant k <= |cmds|
      invariant forall i :: 0 <= i < |files| ==> Kept(files[i], accs[i], bases[i], queued, log, whole)
      invariant (forall j :: 0 <= j < k ==> Ample(cmds[j], files, arr.Length)) ==> whole && !overrun
      decreases |cmds| - k
    {
      assert Proper(cmds[k], files);
      if cmds[k].Submit? {
        queued := SubmitStep(files, cmds[k], accs, bases, queued, log, whole);
      } else {
        var more: seq<Event>;
        more, overrun, whole := CollectStep(files, arr, cmds[k], accs, bases, queued, log, whole);
        log := log + more;
      }
      k := k + 1;
    }
  }

  lemma SessionStarts(files: seq<FileRing>)
    requires forall i :: 0 <= i < |files| ==> files[i].Valid()
    ensures forall i :: 0 <= i < |files| ==> Kept(files[i], files[i].accepted, files[i].retired, [], [], true)
  {
    hide FileRing.Valid;
  }
}
