/**
 put_signal_counter_impl on the multi-producer queue: its batches are operations of the
 queue, and what waitSignal says about the copies of the requests that signalled.
 */
module SdmaRequests {
  import opened SdmaPackets
  import opened SdmaRing
  import opened SdmaQueue
  import opened SdmaQueueRuns
  import opened SdmaCompletion

  /** The packets placed for a request: its batch, with the fused address rounded down. */
  function PlacedBatch(g: Generation, r: Request): seq<Packet> { Batch(g, Rounded(g, r)) }

  /** The batch of every valid request is an operation of the queue, and its words are those placed. */
  lemma RequestIsOp(c: Config, r: Request, cached: bool, tracked: bool)
    requires ValidRequest(r)
    ensures ValidOp(c, Op(PlacedBatch(c.gen, r), cached, tracked))
    ensures RequestWords(c.gen, r) == EncodeAll(c.gen, PlacedBatch(c.gen, r))
  {
    hide Size;
    BatchFillsReservation(c.gen, r);
    RequestFillsReservation(c.gen, r);
  }

  /** Everything reserved comes from requests, in this order. */
  predicate Asked(c: Config, log: seq<Entry>, rs: seq<Request>) {
    && |rs| == |log|
    && forall j :: 0 <= j < |log| ==>
         ValidRequest(rs[j]) && log[j].op.packets == PlacedBatch(c.gen, rs[j])
  }

  predicate Clear(x: Option<U64>, a: int) { x.Some? ==> x.value == a || x.value + 8 <= a || a + 8 <= x.value }

  /** The request leaves the eight bytes at a alone except for whole increments of them. */
  predicate Polite(g: Generation, r: Request, a: int) {
    && (r.put.Some? ==> r.put.value.dst + r.put.value.size <= a || a + 8 <= r.put.value.dst)
    && Clear(Rounded(g, r).signal, a) && Clear(Rounded(g, r).counter, a)
  }

  /** How often a request increments the signal at a, and the requests before number j do. */
  function Increments(g: Generation, r: Request, a: int): nat {
    var k := Rounded(g, r);
    (if k.signal == Some(a) then 1 else 0) + (if k.counter == Some(a) then 1 else 0)
  }

  function IncrementsOf(g: Generation, rs: seq<Request>, a: int): nat {
    if rs == [] then 0 else IncrementsOf(g, rs[..|rs| - 1], a) + Increments(g, rs[|rs| - 1], a)
  }

  lemma BatchDisciplined(g: Generation, r: Request, a: int, p: nat)
    requires ValidRequest(r) && Polite(g, r, a) && p < |PlacedBatch(g, r)|
    ensures Disciplined(PlacedBatch(g, r)[p], a)
  {
  }

  lemma BatchCounts(g: Generation, r: Request, a: int)
    requires ValidRequest(r)
    ensures CountSignals(PlacedBatch(g, r), a) == Increments(g, r, a)
  {
    var k := Rounded(g, r);
    var head := if k.put.Some? then [Batch(g, k)[0]] else [];
    if Fused(g, k) {
      var tail := if k.signal.Some? then Increment(k.counter) else [];
      assert Batch(g, k) == head + tail;
      CountAppend(head, tail, a);
      CountOne(head[0], a);
      IncrementCounts(k.counter, a);
      CountNone(a);
    } else {
      assert Batch(g, k) == head + (Increment(k.signal) + Increment(k.counter));
      CountAppend(head, Increment(k.signal) + Increment(k.counter), a);
      CountAppend(Increment(k.signal), Increment(k.counter), a);
      IncrementCounts(k.signal, a);
      IncrementCounts(k.counter, a);
      CountNone(a);
      if k.put.Some? { CountOne(head[0], a); }
    }
  }

  lemma IncrementCounts(x: Option<U64>, a: int)
    ensures CountSignals(Increment(x), a) == if x == Some(a) then 1 else 0
  {
    if x.Some? { CountOne(Atomic(x.value, 1), a); } else { CountNone(a); }
  }

  lemma RegionCounts(c: Config, base: nat, op: Op, r: Request, a: int)
    requires ValidConfig(c) && ValidRequest(r) && op.packets == PlacedBatch(c.gen, r)
    ensures CountSignals(Grant(c, base, op), a) == Increments(c.gen, r, a)
  {
    hide Pad; hide PadPackets; hide CountSignals; hide Size;
    var pad := Pad(c, base, Bytes(op.packets));
    CountAppend(PadPackets(pad), op.packets, a);
    PadIsSilent(pad, |PadPackets(pad)|, a);
    assert PadPackets(pad)[..|PadPackets(pad)|] == PadPackets(pad);
    BatchCounts(c.gen, r, a);
  }

  lemma {:induction false} SignalsAre(c: Config, g: Shared, rs: seq<Request>, j: nat, a: int)
    requires ValidConfig(c) && Granted(c, g.ring.regions, g.log) && Asked(c, g.log, rs) && j <= |rs|
    ensures SignalsBefore(g.ring.regions, j, a) == IncrementsOf(c.gen, rs[..j], a)
  {
    hide Grant; hide CountSignals; hide ValidOp; hide Size; hide Increments; hide Flatten;
    var regions := g.ring.regions;
    if j == 0 {
      assert regions[..0] == [];
      NoPackets(a);
    } else {
      SignalsAre(c, g, rs, j - 1, a);
      assert regions[..j] == regions[..j - 1] + [regions[j - 1]];
      FlattenSnoc(regions[..j - 1], regions[j - 1]);
      CountAppend(Flatten(regions[..j - 1]), regions[j - 1].packets, a);
      RegionCounts(c, regions[j - 1].base, g.log[j - 1].op, rs[j - 1], a);
      assert rs[..j][..j - 1] == rs[..j - 1];
    }
  }

  lemma NoPackets(a: int)
    ensures CountSignals(Flatten([]), a) == 0
  {
  }

  lemma RegionsDisciplined(c: Config, g: Shared, rs: seq<Request>, a: int)
    requires ValidConfig(c) && Granted(c, g.ring.regions, g.log) && Asked(c, g.log, rs)
    requires forall j :: 0 <= j < |rs| ==> Polite(c.gen, rs[j], a)
    ensures AllDisciplined(g.ring.regions, a)
  {
    hide Polite; hide Disciplined; hide ValidOp; hide Size; hide Pad; hide PlacedBatch;
    forall j, p | 0 <= j < |g.ring.regions| && 0 <= p < |g.ring.regions[j].packets|
      ensures Disciplined(g.ring.regions[j].packets[p], a)
    {
      var op := g.log[j].op;
      var pad := PadPackets(Pad(c, g.ring.regions[j].base, Bytes(op.packets)));
      if p < |pad| {
        NopDisciplined(g.ring.regions[j].packets[p], a);
      } else {
        BatchDisciplined(c.gen, rs[j], a, p - |pad|);
      }
    }
  }

  lemma NopDisciplined(p: Packet, a: int)
    requires p.Nop?
    ensures Disciplined(p, a)
  {
  }

  lemma {:induction false} FlattenAt(rs: seq<Region>, j: nat, p: nat)
    requires j < |rs| && p < |rs[j].packets|
    ensures var k := |Flatten(rs[..j])| + p; k < |Flatten(rs)| && Flatten(rs)[k] == rs[j].packets[p]
  {
    if j > 0 {
      assert rs[1..][..j - 1] == rs[..j][1..];
      FlattenAt(rs[1..], j - 1, p);
    }
  }

  /** A packet the engine has passed stands at its place in what the engine has run. */
  lemma HasRunExecuted(c: Config, r: Ring, j: nat, p: nat)
    requires Inv(c, r) && j < |r.regions| && p < |r.regions[j].packets| && HasRun(r, j, p)
    ensures var k := |Flatten(r.regions[..j])| + p; k < |r.executed| && r.executed[k] == r.regions[j].packets[p]
  {
    hide Intact; hide Size; hide IndexOf; hide Flatten;
    if j < r.region {
      FlattenAt(r.regions[..r.region], j, p);
      assert r.regions[..r.region][..j] == r.regions[..j];
    }
  }

  /** The copy of a request, as a packet of either kind. */
  predicate IsCopyOf(p: Packet, t: Transfer) {
    (p.Copy? || p.CopySignal?) && p.src == t.src && p.dst == t.dst && p.size == t.size
  }

  /**
   waitSignal on requests. Along every run whose batches are those of put/signal/counter
   requests that touch the signal at a only by incrementing it, and in which it starts at
   zero, waitSignal(a, n) returns only after the engine has run the copy of every request
   before which fewer than n increments were reserved: of the first n putSignal calls. The
   copy is the first packet after the padding in the request's own region, and stands in
   what was run after all of the regions before.
   */
  lemma PutSignalCovers(c: Config, ss: seq<State>, es: seq<Event>, i: nat, rs: seq<Request>, t: nat, a: int, n: nat,
                        j: nat)
    requires IsRun(c, ss, es) && i < |ss| && Read64(ss[0].g.ring.mem, a) == 0
    requires forall k :: 0 <= k < |es| && es[k].Outside? ==> es[k].a < a || a + 8 <= es[k].a
    requires Asked(c, ss[i].g.log, rs) && (forall k :: 0 <= k < |rs| ==> Polite(c.gen, rs[k], a))
    requires WaitReturns(c, ss[i], t, a, n)
    requires j < |rs| && rs[j].put.Some? && IncrementsOf(c.gen, rs[..j], a) < n
    ensures j < |ss[i].g.ring.regions| && j < |ss[i].g.log|
    ensures var r := ss[i].g.ring;
            var first := FirstOfBatch(c, r.regions[j], ss[i].g.log[j].op);
            var k := |Flatten(r.regions[..j])| + first;
            && first < |r.regions[j].packets| && IsCopyOf(r.regions[j].packets[first], rs[j].put.value)
            && HasRun(r, j, first) && k < |r.executed| && r.executed[k] == r.regions[j].packets[first]
  {
    hide IsRun; hide Inv; hide Read64; hide WaitReturns; hide Polite; hide Pad; hide PadPackets; hide Size;
    hide ThreadsOk;
    hide ValidOp; hide CountSignals; hide AllDisciplined; hide HasRun; hide Flatten; hide PlacedBatch;
    hide IsCopyOf; hide SignalsBefore; hide FirstOfBatch; hide IncrementsOf;
    RunKeepsInv(c, ss, es, i);
    var g := ss[i].g;
    RegionsDisciplined(c, g, rs, a);
    SignalsAre(c, g, rs, j, a);
    WaitCovers(c, ss, es, i, t, a, n, j);
    CopyStandsFirst(c, g, rs, j);
    HasRunExecuted(c, g.ring, j, FirstOfBatch(c, g.ring.regions[j], g.log[j].op));
  }

  lemma CopyStandsFirst(c: Config, g: Shared, rs: seq<Request>, j: nat)
    requires ValidConfig(c) && Granted(c, g.ring.regions, g.log) && Asked(c, g.log, rs)
    requires j < |rs| && rs[j].put.Some?
    ensures var r, first := g.ring.regions[j], FirstOfBatch(c, g.ring.regions[j], g.log[j].op);
            first < |r.packets| && IsCopyOf(r.packets[first], rs[j].put.value)
  {
    hide ValidOp; hide Pad; hide PadPackets; hide Size;
    CopyComesFirst(c.gen, Rounded(c.gen, rs[j]));
    var r, first := g.ring.regions[j], FirstOfBatch(c, g.ring.regions[j], g.log[j].op);
    assert r.packets[first] == PlacedBatch(c.gen, rs[j])[0];
  }
}
