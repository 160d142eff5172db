/** The set of tensors of `ggml-impl.h`: which slot a tensor has is what other tables index by. */
module TensorSet {
  import opened Sets
  import opened Wrappers
  import opened Probing
  import opened Bitset

  type Key = nat

  /** A tensor's address without its four low bits. */
  function Hash(k: Key): nat {
    k / 16
  }

  function Home(k: Key, n: nat): (h: nat)
    requires n > 0
    ensures h < n
  {
    Hash(k) % n
  }

  datatype Found = Full | At(i: nat)

  datatype Inserted = Overflow | Already | NewAt(i: nat)

  // ---------- the table as a value ----------

  /** The first `p` slots on the way of `k` are taken by other keys. */
  ghost predicate Passed(t: seq<Option<Key>>, k: Key, p: nat)
    requires |t| > 0 && p <= |t|
  {
    forall q :: 0 <= q < p ==> t[Slot(|t|, Home(k, |t|), q)].Some? && t[Slot(|t|, Home(k, |t|), q)] != Some(k)
  }

  /** Every key can be found by probing. */
  ghost predicate Reachable(t: seq<Option<Key>>) {
    |t| > 0 && forall i :: 0 <= i < |t| && t[i].Some? ==>
      Passed(t, t[i].value, Steps(|t|, Home(t[i].value, |t|), i))
  }

  /** Distinct keys have distinct slots and a key has one slot. */
  lemma OneSlot(t: seq<Option<Key>>, i: nat, j: nat)
    requires Reachable(t) && i < |t| && j < |t| && t[i].Some? && t[i] == t[j]
    ensures i == j
  {
    var h := Home(t[i].value, |t|);
    var p, q := Steps(|t|, h, i), Steps(|t|, h, j);
    assert Passed(t, t[i].value, p) && Passed(t, t[j].value, q);
    assert t[Slot(|t|, h, p)] == t[i] && t[Slot(|t|, h, q)] == t[i];
  }

  /** A free slot on the way of a key means that the key is not in the table. */
  lemma FreeMeansAbsent(t: seq<Option<Key>>, k: Key, p: nat, i: nat)
    requires Reachable(t) && p < |t| && Passed(t, k, p) && t[Slot(|t|, Home(k, |t|), p)].None? && i < |t|
    ensures t[i] != Some(k)
  {
    var h := Home(k, |t|);
    var q := Steps(|t|, h, i);
    assert t[i] == Some(k) ==> Passed(t, k, q);
    assert t[Slot(|t|, h, q)] == t[i];
  }

  lemma AroundMeansAbsent(t: seq<Option<Key>>, k: Key, i: nat)
    requires |t| > 0 && Passed(t, k, |t|) && i < |t|
    ensures t[i] != Some(k)
  {
    assert t[Slot(|t|, Home(k, |t|), Steps(|t|, Home(k, |t|), i))] != Some(k);
  }

  /** Filling the first free slot on a key's way keeps every key reachable. */
  lemma InsertKeeps(t: seq<Option<Key>>, k: Key, p: nat)
    requires Reachable(t) && p < |t| && Passed(t, k, p) && t[Slot(|t|, Home(k, |t|), p)].None?
    ensures Reachable(t[Slot(|t|, Home(k, |t|), p) := Some(k)])
  {
    var n, h := |t|, Home(k, |t|);
    var x := Slot(n, h, p);
    var t' := t[x := Some(k)];
    forall i | 0 <= i < n && t'[i].Some?
      ensures Passed(t', t'[i].value, Steps(n, Home(t'[i].value, n), i))
    {
      if i == x {
        SameSteps(n, h, p);
        forall q | 0 <= q < p
          ensures t'[Slot(n, h, q)].Some? && t'[Slot(n, h, q)] != Some(k)
        {
          SlotsDiffer(n, h, p, q);
        }
      } else {
        FreeMeansAbsent(t, k, p, i);
        assert Passed(t, t[i].value, Steps(n, Home(t[i].value, n), i));
      }
    }
  }

  lemma SameSteps(n: nat, h: nat, p: nat)
    requires h < n && p < n
    ensures Steps(n, h, Slot(n, h, p)) == p
  {
  }

  // ---------- the table in place ----------

  ghost function TableOf(used: seq<bv32>, keys: seq<Key>): (t: seq<Option<Key>>)
    ensures |t| == |keys|
  {
    if keys == [] then []
    else
      var n := |keys| - 1;
      TableOf(used, keys[..n]) + [if Get(used, n) then Some(keys[n]) else None]
  }

  lemma {:induction false} TableAt(used: seq<bv32>, keys: seq<Key>, i: nat)
    requires i < |keys|
    ensures TableOf(used, keys)[i] == if Get(used, i) then Some(keys[i]) else None
  {
    if i < |keys| - 1 {
      TableAt(used, keys[..|keys| - 1], i);
    }
  }

  lemma TableSet(used: seq<bv32>, keys: seq<Key>, i: nat, k: Key)
    requires i < |keys| && i / 32 < |used|
    ensures TableOf(Set(used, i), keys[i := k]) == TableOf(used, keys)[i := Some(k)]
  {
    var t := TableOf(used, keys);
    var t' := TableOf(Set(used, i), keys[i := k]);
    forall j | 0 <= j < |keys|
      ensures t'[j] == t[i := Some(k)][j]
    {
      SetGet(used, i, j);
      TableAt(used, keys, j);
      TableAt(Set(used, i), keys[i := k], j);
    }
  }

  class HashSet {
    const size: nat
    const used: array<bv32>
    const keys: array<Key>

    ghost function Table(): (t: seq<Option<Key>>)
      reads used, keys
      ensures |t| == keys.Length
    {
      TableOf(used[..], keys[..])
    }

    ghost predicate Valid()
      reads this, used, keys
    {
      && keys.Length == size && used.Length == Words(size) && size > 0 && Reachable(Table())
      && (var u: object, k: object := used, keys; u != k)
    }

    constructor (n: nat)
      requires n > 0
      ensures Valid() && size == n && fresh(used) && fresh(keys) && Taken(Table()) == 0
    {
      size := n;
      used := new bv32[Words(n)](_ => 0);
      keys := new Key[n](_ => 0);
      new;
      Cleared();
    }

    lemma Cleared()
      requires forall k :: 0 <= k < used.Length ==> used[k] == 0
      ensures forall i :: 0 <= i < keys.Length ==> Table()[i].None?
      ensures Taken(Table()) == 0
    {
      forall i | 0 <= i < keys.Length
        ensures Table()[i].None?
      {
        ClearGet(used[..], i);
        TableAt(used[..], keys[..], i);
      }
      TakenNone(Table());
    }

    /** Removes all elements. */
    method Reset()
      requires Valid()
      modifies used
      ensures Valid() && Taken(Table()) == 0
    {
      forall i | 0 <= i < used.Length {
        used[i] := 0;
      }
      Cleared();
    }

    method IsUsed(i: nat) returns (b: bool)
      requires i < keys.Length
      ensures b <==> Table()[i] == Some(keys[i])
      ensures !b <==> Table()[i] == None
    {
      b := Get(used[..], i);
      TableAt(used[..], keys[..], i);
    }

    /** The key's slot, or the slot where it would go, or neither when all slots hold other keys. */
    method Find(key: Key) returns (r: Found)
      requires Valid()
      ensures r.Full? <==> Taken(Table()) == size && forall i :: 0 <= i < size ==> Table()[i] != Some(key)
      ensures r.At? ==> r.i < size && (Table()[r.i] == Some(key) || Table()[r.i].None?)
      ensures r.At? && Table()[r.i].None? ==> forall i :: 0 <= i < size ==> Table()[i] != Some(key)
    {
      var h := Hash(key) % size;
      var i := h;
      ghost var p: nat, t := 0, Table();
      var busy := IsUsed(i);
      while busy && keys[i] != key
        invariant p < size && i == Slot(size, h, p) && Passed(t, key, p)
        invariant t[i] == if busy then Some(keys[i]) else None
        decreases size - p
      {
        NextSlot(size, h, p);
        i := (i + 1) % size;
        p := p + 1;
        if i == h {
          FullTable(t, key, p);
          return Full;
        }
        busy := IsUsed(i);
      }
      Landed(t, key, p);
      return At(i);
    }

    method Contains(key: Key) returns (found: bool)
      requires Valid()
      ensures found <==> exists i :: 0 <= i < size && Table()[i] == Some(key)
    {
      var r := Find(key);
      if r.Full? {
        return false;
      }
      found := IsUsed(r.i);
    }

    /** The slot the key has or gets; `Full` stands for the abort. */
    method FindOrInsert(key: Key) returns (r: Found, ghost isNew: bool)
      requires Valid()
      modifies used, keys
      ensures Valid()
      ensures r.Full? <==> old(Taken(Table())) == size && forall i :: 0 <= i < size ==> old(Table())[i] != Some(key)
      ensures r.Full? ==> !isNew
      ensures r.At? ==> r.i < size && Table() == old(Table())[r.i := Some(key)]
      ensures isNew <==> r.At? && old(Table())[r.i].None?
      ensures r.At? && !isNew ==> old(Table())[r.i] == Some(key)
      ensures isNew <==> r.At? && forall i :: 0 <= i < size ==> old(Table())[i] != Some(key)
      ensures Taken(Table()) == old(Taken(Table())) + if isNew then 1 else 0
    {
      var free;
      r, free := Probe(key);
      isNew := free;
      if free {
        Occupy(r.i, key);
      }
      assert !isNew && r.At? ==> Table() == Table()[r.i := Some(key)];
    }

    /** The probing loop that the two insertions share. */
    method Probe(key: Key) returns (r: Found, isNew: bool)
      requires Valid()
      ensures r.Full? <==> Taken(Table()) == size && forall i :: 0 <= i < size ==> Table()[i] != Some(key)
      ensures r.Full? ==> !isNew
      ensures r.At? ==> r.i < size && (if isNew then Table()[r.i].None? && Fits(Table(), key, r.i) else Table()[r.i] == Some(key))
    {
      var h := Hash(key) % size;
      var i := h;
      ghost var p: nat, t := 0, Table();
      while true
        invariant p < size && i == Slot(size, h, p) && Passed(t, key, p)
        decreases size - p
      {
        var busy := IsUsed(i);
        if !busy {
          Landed(t, key, p);
          return At(i), true;
        }
        if keys[i] == key {
          return At(i), false;
        }
        NextSlot(size, h, p);
        i := (i + 1) % size;
        p := p + 1;
        if i == h {
          FullTable(t, key, p);
          return Full, false;
        }
      }
    }

    method Mark(i: nat)
      requires i / 32 < used.Length
      modifies used
      ensures used[..] == Set(old(used[..]), i)
    {
      used[i / 32] := Marked(used[i / 32], Place(i));
    }

    method Occupy(i: nat, key: Key)
      requires Valid() && i < size && Table()[i].None? && Fits(Table(), key, i)
      modifies used, keys
      ensures Valid() && Table() == old(Table())[i := Some(key)] && Taken(Table()) == old(Taken(Table())) + 1
    {
      ghost var u, k, t := used[..], keys[..], Table();
      TakenMore(t, i, key);
      FitsKeeps(t, key, i);
      TableSet(u, k, i, key);
      Mark(i);
      keys[i] := key;
      assert keys[..] == k[i := key];
    }

    /** Inserts a key that is not there yet. */
    method Insert(key: Key) returns (r: Inserted)
      requires Valid()
      modifies used, keys
      ensures Valid()
      ensures r.Overflow? <==> old(Taken(Table())) == size && forall i :: 0 <= i < size ==> old(Table())[i] != Some(key)
      ensures r.Already? <==> exists i :: 0 <= i < size && old(Table())[i] == Some(key)
      ensures if r.NewAt? then r.i < size && old(Table())[r.i].None? && Table() == old(Table())[r.i := Some(key)]
              else Table() == old(Table())
    {
      var f, free := Probe(key);
      if f.Full? {
        return Overflow;
      }
      if !free {
        assert Table()[f.i] == Some(key);
        return Already;
      }
      Occupy(f.i, key);
      return NewAt(f.i);
    }
  }

  /** Slot `i` is the first free one on the key's way, and the key is new. */
  ghost predicate Fits(t: seq<Option<Key>>, k: Key, i: nat) {
    && |t| > 0 && i < |t| && t[i].None? && Passed(t, k, Steps(|t|, Home(k, |t|), i))
    && forall j :: 0 <= j < |t| ==> t[j] != Some(k)
  }

  lemma FitsKeeps(t: seq<Option<Key>>, k: Key, i: nat)
    requires Reachable(t) && Fits(t, k, i)
    ensures Reachable(t[i := Some(k)])
  {
    InsertKeeps(t, k, Steps(|t|, Home(k, |t|), i));
  }

  lemma FullTable(t: seq<Option<Key>>, k: Key, p: nat)
    requires |t| > 0 && p <= |t| && Passed(t, k, p) && (p == |t| || Slot(|t|, Home(k, |t|), p) == Home(k, |t|)) && p > 0
    ensures p == |t| && Taken(t) == |t| && forall i :: 0 <= i < |t| ==> t[i] != Some(k)
  {
    BusyAround(t, Home(k, |t|));
    forall i | 0 <= i < |t|
      ensures t[i] != Some(k)
    {
      AroundMeansAbsent(t, k, i);
    }
  }

  lemma Landed(t: seq<Option<Key>>, k: Key, p: nat)
    requires Reachable(t) && p < |t| && Passed(t, k, p)
    requires var x := t[Slot(|t|, Home(k, |t|), p)]; x.None? || x == Some(k)
    ensures t[Slot(|t|, Home(k, |t|), p)].None? ==> forall i :: 0 <= i < |t| ==> t[i] != Some(k)
    ensures t[Slot(|t|, Home(k, |t|), p)].None? ==> Taken(t) < |t| && Fits(t, k, Slot(|t|, Home(k, |t|), p))
  {
    SameSteps(|t|, Home(k, |t|), p);
    var x := Slot(|t|, Home(k, |t|), p);
    if t[x].None? {
      forall i | 0 <= i < |t|
        ensures t[i] != Some(k)
      {
        FreeMeansAbsent(t, k, p, i);
      }
      TakenMore(t, x, k);
    }
  }

  // ---------- a run of insertions ----------

  ghost function KeysOf(t: seq<Option<Key>>): set<Key> {
    set i | 0 <= i < |t| && t[i].Some? :: t[i].value
  }

  lemma {:induction false} KeysCounted(t: seq<Option<Key>>)
    requires forall i, j :: 0 <= i < j < |t| && t[i].Some? ==> t[i] != t[j]
    ensures |KeysOf(t)| == Taken(t)
  {
    if t == [] {
      assert KeysOf(t) == {};
    } else {
      var r := t[1..];
      KeysCounted(r);
      assert KeysOf(t) == KeysOf(r) + (if t[0].Some? then {t[0].value} else {}) by {
        assert forall i :: 0 <= i < |r| ==> r[i] == t[i + 1];
        forall k | k in KeysOf(t)
          ensures k in KeysOf(r) + (if t[0].Some? then {t[0].value} else {})
        {
          var i :| 0 <= i < |t| && t[i] == Some(k);
          assert i > 0 ==> r[i - 1] == Some(k);
        }
      }
    }
  }

  /** The number of taken slots is the number of keys. */
  lemma TakenIsKeys(t: seq<Option<Key>>)
    requires Reachable(t)
    ensures |KeysOf(t)| == Taken(t)
  {
    forall i, j | 0 <= i < j < |t| && t[i].Some?
      ensures t[i] != t[j]
    {
      if t[i] == t[j] {
        OneSlot(t, i, j);
      }
    }
    KeysCounted(t);
  }

  ghost function Distinct(ks: seq<Key>): set<Key> {
    set k | k in ks
  }

  /** A table that is full of other keys of `ks` and cannot take `k` too means more
      distinct keys than slots. */
  lemma OverflowMeansTooMany(t: seq<Option<Key>>, ks: seq<Key>, k: Key)
    requires Reachable(t) && KeysOf(t) <= Distinct(ks) && k in ks && Taken(t) == |t|
    requires forall i :: 0 <= i < |t| ==> t[i] != Some(k)
    ensures |Distinct(ks)| > |t|
  {
    TakenIsKeys(t);
    assert k !in KeysOf(t);
    SubsetSize(KeysOf(t) + {k}, Distinct(ks));
  }

  method HandNext(h: HashSet, ks: seq<Key>, before: seq<nat>) returns (ok: bool, slots: seq<nat>)
    requires h.Valid() && |before| < |ks| && Holds(h.Table(), ks, before, |before|)
    modifies h.used, h.keys
    ensures h.Valid() && (ok || |Distinct(ks)| > h.size)
    ensures ok ==> Holds(h.Table(), ks, slots, |before| + 1)
  {
    ghost var t := h.Table();
    var r, isNew := h.FindOrInsert(ks[|before|]);
    slots := before;
    ok := r.At?;
    if ok {
      slots := before + [r.i];
      assert slots[..|before|] == before;
      HoldsMore(t, ks, slots, |before|);
    } else {
      OverflowMeansTooMany(t, ks, ks[|before|]);
    }
  }

  /** The slots that a run of insertions hands out, after a reset: it goes through if the keys
      are not too many, and at the end every key still is where it was put. */
  method HandOut(h: HashSet, ks: seq<Key>) returns (ok: bool, slots: seq<nat>)
    requires h.Valid()
    modifies h.used, h.keys
    ensures h.Valid() && (|Distinct(ks)| <= h.size ==> ok)
    ensures ok ==> |slots| == |ks| && forall i :: 0 <= i < |ks| ==> slots[i] < h.size && h.Table()[slots[i]] == Some(ks[i])
    ensures ok ==> forall i, j :: 0 <= i < |ks| && 0 <= j < |ks| ==> (slots[i] == slots[j] <==> ks[i] == ks[j])
  {
    h.Reset();
    NoKeys(h.Table());
    slots := [];
    for n := 0 to |ks|
      invariant h.Valid() && Holds(h.Table(), ks, slots, n)
    {
      ok, slots := HandNext(h, ks, slots);
      if !ok {
        return;
      }
    }
    HoldsApart(h.Table(), ks, slots);
    return true, slots;
  }

  /** The first `n` keys are in the slots handed out, and nothing else is in the table. */
  ghost predicate Holds(t: seq<Option<Key>>, ks: seq<Key>, slots: seq<nat>, n: nat) {
    && |slots| == n <= |ks| && KeysOf(t) <= Distinct(ks)
    && forall i :: 0 <= i < n ==> slots[i] < |t| && t[slots[i]] == Some(ks[i])
  }

  lemma NoKeys(t: seq<Option<Key>>)
    requires Reachable(t) && Taken(t) == 0
    ensures KeysOf(t) == {}
  {
    TakenIsKeys(t);
  }

  lemma HoldsMore(t: seq<Option<Key>>, ks: seq<Key>, slots: seq<nat>, n: nat)
    requires |slots| == n + 1 && n < |ks| && Holds(t, ks, slots[..n], n)
    requires slots[n] < |t| && (t[slots[n]].None? || t[slots[n]] == Some(ks[n]))
    ensures Holds(t[slots[n] := Some(ks[n])], ks, slots, n + 1)
  {
    var t' := t[slots[n] := Some(ks[n])];
    forall k | k in KeysOf(t')
      ensures k in Distinct(ks)
    {
      var i :| 0 <= i < |t'| && t'[i] == Some(k);
      assert i != slots[n] ==> t[i] == Some(k);
    }
    forall i | 0 <= i < n + 1
      ensures slots[i] < |t'| && t'[slots[i]] == Some(ks[i])
    {
      assert i < n ==> slots[..n][i] == slots[i];
    }
  }

  lemma HoldsApart(t: seq<Option<Key>>, ks: seq<Key>, slots: seq<nat>)
    requires Reachable(t) && Holds(t, ks, slots, |ks|)
    ensures forall i, j :: 0 <= i < |ks| && 0 <= j < |ks| ==> (slots[i] == slots[j] <==> ks[i] == ks[j])
  {
    forall i, j | 0 <= i < |ks| && 0 <= j < |ks|
      ensures slots[i] == slots[j] <==> ks[i] == ks[j]
    {
      if ks[i] == ks[j] {
        OneSlot(t, slots[i], slots[j]);
      }
    }
  }
}
