/**
 placePacket and the placing part of put_signal_counter_impl, as they store into the ring
 buffer: loops over dwords with an index computed once per packet. Both are proved to
 store what the step-by-step machine of SdmaQueue stores, one dword per slot.
 */
module SdmaPlace {
  import opened SdmaPackets
  import opened SdmaRing
  import opened SdmaQueue

  /** The buffer after storing ws dword by dword from byte index at on. */
  function Written(c: Config, buf: seq<U32>, at: nat, ws: seq<U32>): (r: seq<U32>)
    requires ValidConfig(c) && |buf| == c.ringBytes / 4
    ensures |r| == |buf|
    decreases |ws|
  {
    if ws == [] then buf else Written(c, buf[Slot(c, at) := ws[0]], at + 4, ws[1..])
  }

  lemma {:induction false} WrittenSnoc(c: Config, buf: seq<U32>, at: nat, ws: seq<U32>, w: U32)
    requires ValidConfig(c) && |buf| == c.ringBytes / 4
    ensures Written(c, buf, at, ws + [w]) == Written(c, buf, at, ws)[Slot(c, at + 4 * |ws|) := w]
    decreases |ws|
  {
    hide Slot;
    if ws == [] {
      assert (ws + [w])[1..] == [];
    } else {
      assert (ws + [w])[1..] == ws[1..] + [w];
      WrittenSnoc(c, buf[Slot(c, at) := ws[0]], at + 4, ws[1..], w);
      assert at + 4 + 4 * |ws[1..]| == at + 4 * |ws|;
    }
  }

  lemma {:induction false} WrittenAppend(c: Config, buf: seq<U32>, at: nat, ws: seq<U32>, vs: seq<U32>)
    requires ValidConfig(c) && |buf| == c.ringBytes / 4
    ensures Written(c, buf, at, ws + vs) == Written(c, Written(c, buf, at, ws), at + 4 * |ws|, vs)
    decreases |ws|
  {
    hide Slot;
    if ws == [] {
      assert ws + vs == vs;
    } else {
      assert (ws + vs)[1..] == ws[1..] + vs;
      WrittenAppend(c, buf[Slot(c, at) := ws[0]], at + 4, ws[1..], vs);
      assert at + 4 + 4 * |ws[1..]| == at + 4 * |ws|;
    }
  }

  /** Stores dwords from a slot on, the slot index being computed once. */
  method StoreRun(c: Config, queueBuf: array<U32>, at: nat, ws: seq<U32>)
    requires ValidConfig(c) && queueBuf.Length == c.ringBytes / 4
    requires at % 4 == 0 && Wrap(c, at) + 4 * |ws| <= c.ringBytes
    modifies queueBuf
    ensures queueBuf[..] == Written(c, old(queueBuf[..]), at, ws)
  {
    hide Slot; hide Wrap;
    var i := 0;
    var baseIdx := Slot(c, at);
    assert ws[..0] == [];
    while i < |ws|
      invariant 0 <= i <= |ws|
      invariant queueBuf[..] == Written(c, old(queueBuf[..]), at, ws[..i])
    {
      SlotFollows(c, at, i);
      WrittenSnoc(c, old(queueBuf[..]), at, ws[..i], ws[i]);
      assert ws[..i + 1] == ws[..i] + [ws[i]];
      queueBuf[baseIdx + i] := ws[i];
      i := i + 1;
    }
    assert ws[..i] == ws;
  }

  /** placePacket. offset is the padding in front of the first packet of a batch. */
  method PlacePacket(c: Config, queueBuf: array<U32>, packet: seq<U32>, pendingWptr: nat, offset: nat)
    returns (pending: nat)
    requires ValidConfig(c) && queueBuf.Length == c.ringBytes / 4
    requires pendingWptr % 4 == 0 && offset % 4 == 0
    requires offset > 0 ==> Wrap(c, pendingWptr) + offset == c.ringBytes
    requires Wrap(c, pendingWptr + offset) + 4 * |packet| <= c.ringBytes
    modifies queueBuf
    ensures pending == pendingWptr + offset + 4 * |packet|
    ensures queueBuf[..] == Written(c, old(queueBuf[..]), pendingWptr, PadWords(offset / 4) + packet)
  {
    hide Slot; hide Wrap; hide PadWords;
    var pad := PadWords(offset / 4);
    if offset > 0 {
      StoreRun(c, queueBuf, pendingWptr, pad);
    } else {
      NoPad(pad, offset);
    }
    pending := pendingWptr + offset;
    WrittenAppend(c, old(queueBuf[..]), pendingWptr, pad, packet);
    StoreRun(c, queueBuf, pending, packet);
    pending := pending + 4 * |packet|;
  }

  lemma NoPad(pad: seq<U32>, offset: nat)
    requires offset == 0 && pad == PadWords(offset / 4)
    ensures pad == []
  {
  }

  /**
   Places the packets of a batch one after the other from its base on, padding before the
   first, and ends exactly at the new index of the reservation.
   */
  method PlaceBatch(c: Config, queueBuf: array<U32>, base: nat, op: Op) returns (pending: nat)
    requires ValidConfig(c) && queueBuf.Length == c.ringBytes / 4 && base % 4 == 0 && ValidOp(c, op)
    requires NewIndex(c, base, op) - base < c.ringBytes
    modifies queueBuf
    ensures pending == NewIndex(c, base, op)
    ensures queueBuf[..] == Written(c, old(queueBuf[..]), base, PlacedWords(c, base, op))
  {
    hide Slot; hide Wrap; hide PadWords; hide EncodeAll; hide Size; hide Words;
    var size := Bytes(op.packets);
    var offset := Pad(c, base, size);
    ghost var pad, words := PadWords(offset / 4), EncodeAll(c.gen, op.packets);
    PadFacts(c, base, op);
    BatchRoom(c, base, op);
    pending := base;
    var i := 0;
    ghost var done: seq<U32> := [];
    while i < |op.packets|
      invariant 0 <= i <= |op.packets|
      invariant i == 0 ==> pending == base && done == []
      invariant i > 0 ==> done == pad + EncodeAll(c.gen, op.packets[..i])
      invariant pending == base + 4 * |done| && (i > 0 ==> pending == base + offset + Bytes(op.packets[..i]))
      invariant queueBuf[..] == Written(c, old(queueBuf[..]), base, done)
    {
      var p := op.packets[i];
      var before := if i == 0 then offset else 0;
      EncodePrefix(c.gen, op.packets, i);
      PacketRoom(c, base + offset, op.packets, i);
      ghost var step := PadWords(before / 4) + Words(c.gen, p);
      WrittenAppend(c, old(queueBuf[..]), base, done, step);
      pending := PlacePacket(c, queueBuf, Words(c.gen, p), pending, before);
      StepWords(c.gen, op.packets, i, pad, PadWords(before / 4), before, done);
      done := done + step;
      i := i + 1;
    }
    assert op.packets[..i] == op.packets;
  }

  lemma StepWords(g: Generation, ps: seq<Packet>, i: nat, pad: seq<U32>, now: seq<U32>, before: nat, done: seq<U32>)
    requires AllEncodable(g, ps) && i < |ps|
    requires now == PadWords(before / 4) && (i == 0 ==> done == [] && now == pad)
    requires i > 0 ==> before == 0 && done == pad + EncodeAll(g, ps[..i])
    ensures done + (now + Words(g, ps[i])) == pad + EncodeAll(g, ps[..i + 1])
  {
    hide PadWords; hide Words; hide EncodeAll;
    EncodePrefix(g, ps, i);
    if i == 0 {
      assert ps[..0] == [] && EncodeAll(g, []) == [] by { NoWords(g); }
    } else {
      NoPad(now, before);
    }
  }

  lemma NoWords(g: Generation)
    ensures EncodeAll(g, []) == []
  {
  }

  lemma EncodePrefix(g: Generation, ps: seq<Packet>, i: nat)
    requires AllEncodable(g, ps) && i < |ps|
    ensures EncodeAll(g, ps[..i + 1]) == EncodeAll(g, ps[..i]) + Words(g, ps[i])
  {
    assert ps[..i + 1] == ps[..i] + [ps[i]];
    EncodeAppend(g, ps[..i], [ps[i]]);
    EncodeOne(g, ps[i]);
  }

  /** After the padding, the whole batch fits before the ring end. */
  lemma BatchRoom(c: Config, base: nat, op: Op)
    requires ValidConfig(c) && base % 4 == 0 && ValidOp(c, op) && NewIndex(c, base, op) - base < c.ringBytes
    ensures Wrap(c, base + Pad(c, base, Bytes(op.packets))) + Bytes(op.packets) <= c.ringBytes
    ensures Pad(c, base, Bytes(op.packets)) > 0 ==> Wrap(c, base) + Pad(c, base, Bytes(op.packets)) == c.ringBytes
  {
    hide Wrap; hide Size; hide Encodable;
    var pad := Pad(c, base, Bytes(op.packets));
    if pad > 0 { WrapToStart(c, base, pad); }
  }

  lemma PacketRoom(c: Config, at: nat, ps: seq<Packet>, i: nat)
    requires ValidConfig(c) && Wrap(c, at) + Bytes(ps) <= c.ringBytes && i < |ps|
    ensures Bytes(ps[..i + 1]) == Bytes(ps[..i]) + 4 * Dwords(ps[i])
    ensures Wrap(c, at + Bytes(ps[..i])) + 4 * Dwords(ps[i]) <= c.ringBytes
    ensures i == 0 ==> Bytes(ps[..i]) == 0
  {
    hide Wrap; hide Dwords; hide Size;
    SizeAt(ps, i);
    if i == 0 { assert ps[..0] == []; SizeEmpty(); }
    WrapAdvance(c, at, Bytes(ps[..i]));
  }
}
