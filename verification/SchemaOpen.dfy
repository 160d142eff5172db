/** Opening a compiled schema, and looking emits up in it. */
module SchemaOpen {
  import opened Wrappers
  import opened SchemaBytes
  import opened SchemaLayout

  const EMB_HEADER: nat := 8
  const NODE_META_SIZE: nat := 28
  const CHILD_META_SIZE: nat := 32

  // ---------- the embedding sections ----------

  /** What goes into an index: an id and a vector. */
  datatype Entry = Entry(name: CString, vec: seq<nat>)

  function EntryOff(off: nat, dim: nat, i: nat): nat {
    off + i * (EMB_HEADER + 4 * dim)
  }

  function EntryName(f: Bytes, strtab: nat, p: nat): CString
    requires p + EMB_HEADER <= |f|
  {
    CStr(f, strtab + Dec(f, p))
  }

  function EntryRead(f: Bytes, strtab: nat, p: nat, dim: nat): Entry
    requires p + EMB_HEADER + 4 * dim <= |f|
  {
    Entry(EntryName(f, strtab, p), seq(dim, j requires 0 <= j < dim => Dec(f, p + EMB_HEADER + 4 * j)))
  }

  /** The entry and its label lie in the file, and the index takes the label. */
  predicate EntryGood(f: Bytes, strtab: nat, p: nat, dim: nat) {
    && p + EMB_HEADER + 4 * dim <= |f|
    && Dec(f, p) + Dec(f, p + 4) + 1 <= |f|
    && EntryName(f, strtab, p) != []
  }

  ghost predicate IndexGood(f: Bytes, strtab: nat, off: nat, count: nat, dim: nat) {
    forall i :: 0 <= i < count ==> EntryGood(f, strtab, EntryOff(off, dim, i), dim)
  }

  ghost predicate IndexIs(f: Bytes, strtab: nat, off: nat, count: nat, dim: nat, es: seq<Entry>) {
    && |es| == count
    && forall i :: 0 <= i < count ==>
         EntryGood(f, strtab, EntryOff(off, dim, i), dim) && es[i] == EntryRead(f, strtab, EntryOff(off, dim, i), dim)
  }

  method BuildIndex(f: Bytes, strtab: nat, off: nat, count: nat, dim: nat) returns (r: Option<seq<Entry>>)
    ensures r.Some? <==> IndexGood(f, strtab, off, count, dim)
    ensures r.Some? ==> IndexIs(f, strtab, off, count, dim, r.value)
  {
    var es := [];
    for i := 0 to count
      invariant IndexIs(f, strtab, off, i, dim, es)
    {
      var p := off + i * (8 + 4 * dim);
      assert p == EntryOff(off, dim, i);
      if p + 8 + 4 * dim > |f| {
        return None;
      }
      if Dec(f, p) + Dec(f, p + 4) + 1 > |f| {
        return None;
      }
      var name := CStr(f, strtab + Dec(f, p));
      if name == [] {
        return None;
      }
      es := es + [Entry(name, seq(dim, j requires 0 <= j < dim => Dec(f, p + 8 + 4 * j)))];
    }
    return Some(es);
  }

  // ---------- opening ----------

  /** The words of the header. */
  function HeaderOf(f: Bytes): (h: seq<nat>)
    requires |f| >= HEADER_SIZE
    ensures |h| == 23
  {
    seq(23, k requires 0 <= k < 23 => Dec(f, 4 * k))
  }

  function Field(f: Bytes, k: nat): nat
    requires |f| >= HEADER_SIZE && k < 23
  {
    HeaderOf(f)[k]
  }

  datatype Runtime = Runtime(strtab: nat, threshold: nat, minNgram: nat, maxNgram: nat, nodeIndex: seq<Entry>, childIndex: seq<Entry>,
                             nodeMeta: nat, nodeMetas: nat, childMeta: nat, childMetas: nat)

  /** The checks before the indexes are built. */
  predicate HeaderGood(f: Bytes, dim: int) {
    |f| >= HEADER_SIZE && HeaderChecks(HeaderOf(f), |f|, dim)
  }

  predicate HeaderChecks(h: seq<nat>, size: nat, dim: int)
    requires |h| == 23
  {
    && h[0] == 0x4150_494B && h[1] == 1 && h[2] == Trunc(size)
    && h[3] + h[4] <= size
    && dim > 0 && h[14] == dim
  }

  /** The two tables of emits lie in the file. */
  predicate MetaGood(h: seq<nat>, size: nat)
    requires |h| == 23
  {
    && (h[20] > 0 ==> h[19] + h[20] * NODE_META_SIZE <= size)
    && (h[22] > 0 ==> h[21] + h[22] * CHILD_META_SIZE <= size)
  }

  /** Every check of `kc_ipa_open`. */
  ghost predicate Opens(f: Bytes, dim: int) {
    && HeaderGood(f, dim) && MetaGood(HeaderOf(f), |f|)
    && IndexGood(f, Field(f, 3), Field(f, 15), Field(f, 16), dim)
    && IndexGood(f, Field(f, 3), Field(f, 17), Field(f, 18), dim)
  }

  ghost predicate RuntimeIs(f: Bytes, dim: nat, r: Runtime)
    requires |f| >= HEADER_SIZE
  {
    && r.strtab == Field(f, 3) && r.threshold == Field(f, 11) && r.minNgram == Field(f, 12) && r.maxNgram == Field(f, 13)
    && IndexIs(f, Field(f, 3), Field(f, 15), Field(f, 16), dim, r.nodeIndex)
    && IndexIs(f, Field(f, 3), Field(f, 17), Field(f, 18), dim, r.childIndex)
    && r.nodeMetas == Field(f, 20) && r.childMetas == Field(f, 22)
    && (r.nodeMetas > 0 ==> r.nodeMeta == Field(f, 19)) && (r.childMetas > 0 ==> r.childMeta == Field(f, 21))
  }

  method Open(f: Bytes, dim: int) returns (r: Option<Runtime>)
    ensures r.Some? <==> Opens(f, dim)
    ensures r.Some? ==> RuntimeIs(f, dim, r.value)
  {
    if |f| < HEADER_SIZE {
      return None;
    }
    if Field(f, 0) != MAGIC || Field(f, 1) != FORMAT_VERSION || Field(f, 2) != Trunc(|f|) {
      return None;
    }
    if Field(f, 3) + Field(f, 4) > |f| {
      return None;
    }
    if dim <= 0 || Field(f, 14) != dim {
      return None;
    }
    var strtab := Field(f, 3);
    var nodes := BuildIndex(f, strtab, Field(f, 15), Field(f, 16), dim);
    if nodes.None? {
      return None;
    }
    var kids := Some([]);
    if Field(f, 18) > 0 {
      kids := BuildIndex(f, strtab, Field(f, 17), Field(f, 18), dim);
      if kids.None? {
        return None;
      }
    }
    var nm, cm := 0, 0;
    if Field(f, 20) > 0 {
      if Field(f, 19) + Field(f, 20) * NODE_META_SIZE > |f| {
        return None;
      }
      nm := Field(f, 19);
    }
    if Field(f, 22) > 0 {
      if Field(f, 21) + Field(f, 22) * CHILD_META_SIZE > |f| {
        return None;
      }
      cm := Field(f, 21);
    }
    return Some(Runtime(strtab, Field(f, 11), Field(f, 12), Field(f, 13), nodes.value, kids.value, nm, Field(f, 20), cm, Field(f, 22)));
  }

  // ---------- emits ----------

  function Raw(): CString { [36, 114, 97, 119] }

  /** An emit value; `$raw` stands for the text that matched. */
  function Resolve(value: CString, span: CString): CString {
    if value == Raw() then span else value
  }

  /** The row at byte `p` of the node table, without its parent. */
  function NodeMetaRead(f: Bytes, strtab: nat, p: nat): Meta
    requires p + NODE_META_SIZE <= |f|
  {
    var key := if Dec(f, p + 12) == 0 then [] else CStr(f, strtab + Dec(f, p + 8));
    Meta([], CStr(f, strtab + Dec(f, p)), key, CStr(f, strtab + Dec(f, p + 16)), Dec(f, p + 24) != 0)
  }

  function ChildMetaRead(f: Bytes, strtab: nat, p: nat): Meta
    requires p + CHILD_META_SIZE <= |f|
  {
    var key := if Dec(f, p + 20) == 0 then [] else CStr(f, strtab + Dec(f, p + 16));
    Meta(CStr(f, strtab + Dec(f, p)), CStr(f, strtab + Dec(f, p + 8)), key, CStr(f, strtab + Dec(f, p + 24)), false)
  }

  ghost predicate TablesInside(f: Bytes, r: Runtime) {
    && (r.nodeMetas > 0 ==> r.nodeMeta + r.nodeMetas * NODE_META_SIZE <= |f|)
    && (r.childMetas > 0 ==> r.childMeta + r.childMetas * CHILD_META_SIZE <= |f|)
  }

  predicate Wanted(x: Meta, parent: CString, id: CString) {
    x.key != [] && x.id == id && x.parent == parent
  }

  /** The emits of the wanted rows among the first `n`. */
  function EmitsIn(xs: seq<Meta>, parent: CString, id: CString, span: CString, n: nat): seq<Emit>
    requires n <= |xs|
  {
    if n == 0 then []
    else
      var x := xs[n - 1];
      EmitsIn(xs, parent, id, span, n - 1) + (if Wanted(x, parent, id) then [Emit(x.key, Resolve(x.value, span))] else [])
  }

  function NodeTable(f: Bytes, r: Runtime): (xs: seq<Meta>)
    requires TablesInside(f, r)
    ensures |xs| == r.nodeMetas
  {
    seq(r.nodeMetas, i requires 0 <= i < r.nodeMetas => NodeMetaRead(f, r.strtab, r.nodeMeta + i * NODE_META_SIZE))
  }

  function ChildTable(f: Bytes, r: Runtime): (xs: seq<Meta>)
    requires TablesInside(f, r)
    ensures |xs| == r.childMetas
  {
    seq(r.childMetas, i requires 0 <= i < r.childMetas => ChildMetaRead(f, r.strtab, r.childMeta + i * CHILD_META_SIZE))
  }

  method NodeRow(f: Bytes, r: Runtime, i: nat) returns (x: Meta)
    requires TablesInside(f, r) && i < r.nodeMetas
    ensures x == NodeTable(f, r)[i] && x.parent == []
  {
    x := NodeMetaRead(f, r.strtab, r.nodeMeta + i * NODE_META_SIZE);
  }

  method Store(out: array<Emit>, k: nat, e: Emit)
    requires k < out.Length
    modifies out
    ensures out[..k + 1] == old(out[..k]) + [e]
  {
    out[k] := e;
  }

  lemma {:induction false} EmitsNext(xs: seq<Meta>, parent: CString, id: CString, span: CString, n: nat)
    requires n < |xs|
    ensures EmitsIn(xs, parent, id, span, n + 1) ==
            EmitsIn(xs, parent, id, span, n) + (if Wanted(xs[n], parent, id) then [Emit(xs[n].key, Resolve(xs[n].value, span))] else [])
  {
  }

  method CountEmits(f: Bytes, r: Runtime, id: CString, ghost span: CString) returns (count: nat)
    requires TablesInside(f, r)
    ensures count == |EmitsIn(NodeTable(f, r), [], id, span, r.nodeMetas)|
  {
    ghost var xs := NodeTable(f, r);
    count := 0;
    for i := 0 to r.nodeMetas
      invariant count == |EmitsIn(xs, [], id, span, i)|
    {
      var x := NodeRow(f, r, i);
      EmitsNext(xs, [], id, span, i);
      if x.key != [] && x.id == id {
        count := count + 1;
      }
    }
  }

  /** Emits of a matched node: one pass counts, one fills. */
  method MatchEmits(f: Bytes, r: Runtime, id: CString, span: CString) returns (emits: seq<Emit>)
    requires TablesInside(f, r)
    ensures emits == EmitsIn(NodeTable(f, r), [], id, span, r.nodeMetas)
  {
    var count := CountEmits(f, r, id, span);
    if count == 0 {
      return [];
    }
    ghost var xs := NodeTable(f, r);
    var out := new Emit[count](_ => Emit([], []));
    var k := 0;
    for i := 0 to r.nodeMetas
      invariant k <= count && out[..k] == EmitsIn(xs, [], id, span, i)
    {
      EmitsGrow(xs, [], id, span, i + 1);
      var x := NodeRow(f, r, i);
      EmitsNext(xs, [], id, span, i);
      if x.key != [] && x.id == id {
        Store(out, k, Emit(x.key, Resolve(x.value, span)));
        k := k + 1;
      }
    }
    return out[..k];
  }

  lemma {:induction false} EmitsGrow(xs: seq<Meta>, parent: CString, id: CString, span: CString, n: nat)
    requires n <= |xs|
    ensures |EmitsIn(xs, parent, id, span, n)| <= |EmitsIn(xs, parent, id, span, |xs|)|
    decreases |xs| - n
  {
    if n < |xs| {
      EmitsGrow(xs, parent, id, span, n + 1);
    }
  }

  /** Emits of a matched child of a node. */
  method ChildEmits(f: Bytes, r: Runtime, parent: CString, id: CString, span: CString) returns (emits: seq<Emit>)
    requires TablesInside(f, r)
    ensures emits == EmitsIn(ChildTable(f, r), parent, id, span, r.childMetas)
  {
    emits := [];
    for i := 0 to r.childMetas
      invariant emits == EmitsIn(ChildTable(f, r), parent, id, span, i)
    {
      var x := ChildMetaRead(f, r.strtab, r.childMeta + i * CHILD_META_SIZE);
      if x.key != [] && x.id == id && x.parent == parent {
        emits := emits + [Emit(x.key, Resolve(x.value, span))];
      }
    }
  }

  method HasChildren(f: Bytes, r: Runtime, id: CString) returns (b: bool)
    requires TablesInside(f, r)
    ensures b <==> exists i :: 0 <= i < r.nodeMetas && NodeTable(f, r)[i].id == id && NodeTable(f, r)[i].hasChildren
  {
    ghost var xs := NodeTable(f, r);
    for i := 0 to r.nodeMetas
      invariant forall k :: 0 <= k < i ==> !(xs[k].id == id && xs[k].hasChildren)
    {
      var x := NodeMetaRead(f, r.strtab, r.nodeMeta + i * NODE_META_SIZE);
      if x.id == id && x.hasChildren {
        assert xs[i].hasChildren;
        return true;
      }
    }
    return false;
  }
}
