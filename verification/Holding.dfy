/**
 Totals of how often a sequence of holders holds a resource: the bookkeeping behind the
 reference and depth accounting of the kernel module.
 */
module Holding {
  function One(b: bool): nat { if b then 1 else 0 }

  ghost function Total<H, R>(hs: seq<H>, f: (H, R) -> nat, r: R): nat {
    if hs == [] then 0 else f(hs[0], r) + Total(hs[1..], f, r)
  }

  lemma TotalCons<H, R>(h: H, hs: seq<H>, f: (H, R) -> nat, r: R)
    ensures Total([h] + hs, f, r) == f(h, r) + Total(hs, f, r)
  {
    assert ([h] + hs)[1..] == hs;
  }

  lemma {:induction false} TotalUpdate<H, R>(hs: seq<H>, f: (H, R) -> nat, r: R, i: nat, h: H)
    requires i < |hs|
    ensures Total(hs[i := h], f, r) + f(hs[i], r) == Total(hs, f, r) + f(h, r)
  {
    if i == 0 {
      assert hs[0 := h][1..] == hs[1..];
    } else {
      assert hs[i := h][1..] == hs[1..][i - 1 := h];
      TotalUpdate(hs[1..], f, r, i - 1, h);
    }
  }

  lemma {:induction false} TotalRemove<H, R>(hs: seq<H>, f: (H, R) -> nat, r: R, i: nat)
    requires i < |hs|
    ensures Total(hs, f, r) == f(hs[i], r) + Total(hs[..i] + hs[i + 1..], f, r)
  {
    if i == 0 {
      assert hs[..0] + hs[1..] == hs[1..];
    } else {
      assert (hs[..i] + hs[i + 1..])[1..] == hs[1..][..i - 1] + hs[1..][i..];
      TotalRemove(hs[1..], f, r, i - 1);
    }
  }

  lemma {:induction false} TotalAppend<H, R>(hs: seq<H>, gs: seq<H>, f: (H, R) -> nat, r: R)
    ensures Total(hs + gs, f, r) == Total(hs, f, r) + Total(gs, f, r)
  {
    if hs == [] {
      assert hs + gs == gs;
    } else {
      assert (hs + gs)[1..] == hs[1..] + gs;
      TotalAppend(hs[1..], gs, f, r);
    }
  }

  lemma {:induction false} TotalNone<H, R>(hs: seq<H>, f: (H, R) -> nat, r: R)
    requires forall i :: 0 <= i < |hs| ==> f(hs[i], r) == 0
    ensures Total(hs, f, r) == 0
  {
    if hs != [] {
      TotalNone(hs[1..], f, r);
    }
  }

  /** A holder's share is part of the total. */
  lemma TotalCovers<H, R>(hs: seq<H>, f: (H, R) -> nat, r: R, i: nat)
    requires i < |hs|
    ensures f(hs[i], r) <= Total(hs, f, r)
  {
    TotalRemove(hs, f, r, i);
  }
}
