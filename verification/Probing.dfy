/** Linear probing on a ring of slots. */
module Probing {
  import opened Wrappers

  /** The slot after `p` steps from `h` in a ring of `n`. */
  function Slot(n: nat, h: nat, p: nat): (i: nat)
    requires h < n && p < n
    ensures i < n
  {
    if h + p < n then h + p else h + p - n
  }

  /** How many steps lead from `h` to `i`. */
  function Steps(n: nat, h: nat, i: nat): (p: nat)
    requires h < n && i < n
    ensures p < n && Slot(n, h, p) == i
  {
    if h <= i then i - h else i + n - h
  }

  lemma NextSlot(n: nat, h: nat, p: nat)
    requires h < n && p < n
    ensures (Slot(n, h, p) + 1) % n == if p + 1 < n then Slot(n, h, p + 1) else h
  {
    var i := Slot(n, h, p);
    if i + 1 < n {
      assert (i + 1) % n == i + 1;
    } else {
      assert i + 1 == n;
    }
  }

  lemma SlotsDiffer(n: nat, h: nat, p: nat, q: nat)
    requires h < n && p < n && q < n && p != q
    ensures Slot(n, h, p) != Slot(n, h, q)
  {
  }

  /** All slots from `h` on, for `p` steps, are taken. */
  ghost predicate Busy<T>(t: seq<Option<T>>, h: nat, p: nat)
    requires h < |t| && p <= |t|
  {
    forall q :: 0 <= q < p ==> t[Slot(|t|, h, q)].Some?
  }

  function Taken<T>(t: seq<Option<T>>): (c: nat)
    ensures c <= |t|
  {
    if t == [] then 0 else Taken(t[1..]) + if t[0].Some? then 1 else 0
  }

  lemma {:induction false} TakenAll<T>(t: seq<Option<T>>)
    requires forall i :: 0 <= i < |t| ==> t[i].Some?
    ensures Taken(t) == |t|
  {
    if t != [] {
      TakenAll(t[1..]);
    }
  }

  lemma {:induction false} TakenNone<T>(t: seq<Option<T>>)
    requires forall i :: 0 <= i < |t| ==> t[i].None?
    ensures Taken(t) == 0
  {
    if t != [] {
      TakenNone(t[1..]);
    }
  }

  lemma {:induction false} TakenMore<T>(t: seq<Option<T>>, i: nat, x: T)
    requires i < |t| && t[i].None?
    ensures Taken(t[i := Some(x)]) == Taken(t) + 1
  {
    if i == 0 {
      assert t[i := Some(x)][1..] == t[1..];
    } else {
      TakenMore(t[1..], i - 1, x);
      assert t[i := Some(x)][1..] == t[1..][i - 1 := Some(x)];
    }
  }

  /** A walk around the whole ring over taken slots only means that all are taken. */
  lemma BusyAround<T>(t: seq<Option<T>>, h: nat)
    requires h < |t| && Busy(t, h, |t|)
    ensures Taken(t) == |t|
  {
    forall i | 0 <= i < |t|
      ensures t[i].Some?
    {
      assert t[Slot(|t|, h, Steps(|t|, h, i))].Some?;
    }
    TakenAll(t);
  }
}
