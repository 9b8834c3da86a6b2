/**
 The list walks of the kernel module, over a list held as a sequence: finding the first
 entry that satisfies a test, and moving every such entry to the head of a private list.
 */
module KernelList {
  import opened Holding

  /** Index of the first entry that satisfies p, or the length of the list. */
  function FirstMatch<T>(es: seq<T>, p: T -> bool): (i: nat)
    ensures i <= |es|
    ensures i < |es| ==> p(es[i])
    ensures forall j :: 0 <= j < i ==> !p(es[j])
  {
    if es == [] || p(es[0]) then 0 else 1 + FirstMatch(es[1..], p)
  }

  predicate Contains<T>(es: seq<T>, p: T -> bool) { FirstMatch(es, p) < |es| }

  /** The list after list_del of entry i. */
  function Without<T>(es: seq<T>, i: nat): seq<T>
    requires i < |es|
  {
    es[..i] + es[i + 1..]
  }

  /** What a move-out walk leaves on the list, and what it collects (each at the head). */
  function Rest<T>(es: seq<T>, p: T -> bool): seq<T> {
    if es == [] then [] else (if p(es[0]) then [] else [es[0]]) + Rest(es[1..], p)
  }

  function Taken<T>(es: seq<T>, p: T -> bool): seq<T> {
    if es == [] then [] else Taken(es[1..], p) + (if p(es[0]) then [es[0]] else [])
  }

  /** A list_for_each_entry walk that stops at the first match. */
  method Find<T>(es: seq<T>, p: T -> bool) returns (i: nat)
    ensures i == FirstMatch(es, p)
  {
    i := 0;
    while i < |es| && !p(es[i])
      invariant i <= |es|
      invariant forall j :: 0 <= j < i ==> !p(es[j])
    {
      i := i + 1;
    }
  }

  /** A list_for_each_entry_safe walk that moves every match to a private list. */
  method Take<T>(es: seq<T>, p: T -> bool) returns (list: seq<T>, moved: seq<T>)
    ensures list == Rest(es, p) && moved == Taken(es, p)
  {
    hide Rest; hide Taken; hide Taking;
    list, moved := es, [];
    ghost var n := 0;
    var i := 0;
    TakeEnds(es, p);
    while i < |list|
      invariant n <= |es| && i == |Rest(es[..n], p)| && |list| == i + |es| - n
      invariant list == Taking(es, p, n)
      invariant moved == Taken(es[..n], p)
      decreases |es| - n
    {
      TakeNext(es, p, n, i);
      var e := list[i];
      if p(e) {
        list := list[..i] + list[i + 1..];
        moved := [e] + moved;
      } else {
        i := i + 1;
      }
      n := n + 1;
    }
    assert es[..n] == es;
  }

  /** The list while the walk has looked at the first n entries. */
  function Taking<T>(es: seq<T>, p: T -> bool, n: nat): seq<T>
    requires n <= |es|
  {
    Rest(es[..n], p) + es[n..]
  }

  lemma TakeEnds<T>(es: seq<T>, p: T -> bool)
    ensures Rest(es[..0], p) == [] && Taken(es[..0], p) == [] && Taking(es, p, 0) == es
    ensures Taking(es, p, |es|) == Rest(es, p)
  {
    assert es[..|es|] == es && es[|es|..] == [];
  }

  lemma TakeNext<T>(es: seq<T>, p: T -> bool, n: nat, i: nat)
    requires n < |es| && i == |Rest(es[..n], p)|
    ensures var now, next := Taking(es, p, n), Taking(es, p, n + 1);
            && |now| > i && now[i] == es[n]
            && (p(es[n]) ==> now[..i] + now[i + 1..] == next && |Rest(es[..n + 1], p)| == i)
            && (!p(es[n]) ==> now == next && |Rest(es[..n + 1], p)| == i + 1)
    ensures Taken(es[..n + 1], p) == (if p(es[n]) then [es[n]] else []) + Taken(es[..n], p)
  {
    assert es[..n] + [es[n]] == es[..n + 1];
    SplitAppend(es[..n], es[n], p);
  }

  lemma {:induction false} SplitAppend<T>(es: seq<T>, e: T, p: T -> bool)
    ensures Rest(es + [e], p) == Rest(es, p) + if p(e) then [] else [e]
    ensures Taken(es + [e], p) == (if p(e) then [e] else []) + Taken(es, p)
  {
    if es == [] {
      assert es + [e] == [e];
    } else {
      assert (es + [e])[1..] == es[1..] + [e];
      SplitAppend(es[1..], e, p);
    }
  }

  /** A move-out walk loses nothing and doubles nothing. */
  lemma {:induction false} SplitTotal<T, R>(es: seq<T>, p: T -> bool, f: (T, R) -> nat, r: R)
    ensures Total(es, f, r) == Total(Rest(es, p), f, r) + Total(Taken(es, p), f, r)
  {
    if es != [] {
      SplitTotal(es[1..], p, f, r);
      TotalAppend(if p(es[0]) then [] else [es[0]], Rest(es[1..], p), f, r);
      TotalAppend(Taken(es[1..], p), if p(es[0]) then [es[0]] else [], f, r);
    }
  }

  lemma {:induction false} RestKeeps<T>(es: seq<T>, p: T -> bool, j: nat)
    requires j < |Rest(es, p)|
    ensures Rest(es, p)[j] in es && !p(Rest(es, p)[j])
  {
    if p(es[0]) {
      RestKeeps(es[1..], p, j);
    } else if j > 0 {
      RestKeeps(es[1..], p, j - 1);
    }
  }

  lemma {:induction false} TakenFrom<T>(es: seq<T>, p: T -> bool, j: nat)
    requires j < |Taken(es, p)|
    ensures Taken(es, p)[j] in es && p(Taken(es, p)[j])
  {
    if j < |Taken(es[1..], p)| {
      TakenFrom(es[1..], p, j);
    }
  }
}
