/** The compiler of `kc_ipa_build`: collects strings, then writes section after section. */
module SchemaCompile {
  import opened SchemaBytes
  import opened SchemaLayout

  /** Strings handed to the table, with the references given out for them. */
  type Handed = set<(StrRef, CString)>

  const LIMIT: nat := 0x1_0000_0000

  ghost predicate HandedOk(t: Bytes, h: Handed) {
    |t| < LIMIT ==> forall r, s :: (r, s) in h ==> StrAt(t, r, s)
  }

  lemma HandedMore(t: Bytes, h: Handed, s: CString)
    requires HandedOk(t, h)
    ensures HandedOk(t + (s + [0]), h + {(StrRef(Trunc(|t|), Trunc(|s|)), s)})
  {
    var u, r := t + (s + [0]), StrRef(Trunc(|t|), Trunc(|s|));
    if |u| < LIMIT {
      HoldsPrefix(t, s + [0]);
      assert StrAt(u, r, s);
      forall q, x | (q, x) in h
        ensures StrAt(u, q, x)
      {
        StrAtGrows(t, s + [0], q, x);
      }
    }
  }

  // ---------- references before they are written ----------

  ghost predicate RefsOk(h: Handed, refs: seq<StrRef>, ds: seq<Described>) {
    |refs| == |ds| && forall i :: 0 <= i < |ds| ==> (refs[i], ds[i].id) in h
  }

  lemma RefsJoin(h: Handed, k: Handed, a: seq<StrRef>, x: seq<Described>, b: seq<StrRef>, y: seq<Described>)
    requires RefsOk(h, a, x) && h <= k && RefsOk(k, b, y)
    ensures RefsOk(k, a + b, x + y)
  {
  }

  ghost predicate EmitIn(h: Handed, key: StrRef, value: StrRef, x: Meta) {
    ((key, x.key) in h && (value, x.value) in h) || (x.key == [] && key.len == 0)
  }

  ghost predicate NodeRowIn(h: Handed, row: seq<Word>, x: Meta) {
    && |row| == 7 && (StrRef(row[0], row[1]), x.id) in h
    && EmitIn(h, StrRef(row[2], row[3]), StrRef(row[4], row[5]), x) && (row[6] != 0 <==> x.hasChildren)
  }

  ghost predicate ChildRowIn(h: Handed, row: seq<Word>, x: Meta) {
    && |row| == 8 && (StrRef(row[0], row[1]), x.parent) in h && (StrRef(row[2], row[3]), x.id) in h
    && EmitIn(h, StrRef(row[4], row[5]), StrRef(row[6], row[7]), x)
  }

  ghost predicate NodeRowsIn(h: Handed, rows: seq<seq<Word>>, xs: seq<Meta>) {
    |rows| == |xs| && forall i :: 0 <= i < |xs| ==> NodeRowIn(h, rows[i], xs[i])
  }

  ghost predicate ChildRowsIn(h: Handed, rows: seq<seq<Word>>, xs: seq<Meta>) {
    |rows| == |xs| && forall i :: 0 <= i < |xs| ==> ChildRowIn(h, rows[i], xs[i])
  }

  lemma NodeRowsJoin(h: Handed, k: Handed, a: seq<seq<Word>>, x: seq<Meta>, b: seq<seq<Word>>, y: seq<Meta>)
    requires NodeRowsIn(h, a, x) && h <= k && NodeRowsIn(k, b, y)
    ensures NodeRowsIn(k, a + b, x + y)
  {
  }

  lemma ChildRowsJoin(h: Handed, k: Handed, a: seq<seq<Word>>, x: seq<Meta>, b: seq<seq<Word>>, y: seq<Meta>)
    requires ChildRowsIn(h, a, x) && h <= k && ChildRowsIn(k, b, y)
    ensures ChildRowsIn(k, a + b, x + y)
  {
  }

  lemma NodeRowsWritten(t: Bytes, h: Handed, rows: seq<seq<Word>>, xs: seq<Meta>)
    requires HandedOk(t, h) && |t| < LIMIT && NodeRowsIn(h, rows, xs)
    ensures NodeRowsOk(t, rows, xs)
  {
    forall i | 0 <= i < |xs|
      ensures NodeRowOk(t, rows[i], xs[i])
    {
      assert NodeRowIn(h, rows[i], xs[i]);
    }
  }

  lemma ChildRowsWritten(t: Bytes, h: Handed, rows: seq<seq<Word>>, xs: seq<Meta>)
    requires HandedOk(t, h) && |t| < LIMIT && ChildRowsIn(h, rows, xs)
    ensures ChildRowsOk(t, rows, xs)
  {
    forall i | 0 <= i < |xs|
      ensures ChildRowOk(t, rows[i], xs[i])
    {
      assert ChildRowIn(h, rows[i], xs[i]);
    }
  }

  // ---------- embedding rows ----------

  function EmbRow(r: StrRef, vec: seq<Word>): seq<Word> {
    [r.off, r.len] + vec
  }

  function EmbRows(refs: seq<StrRef>, embed: Embed, ds: seq<Described>): (rows: seq<seq<Word>>)
    requires |ds| <= |refs|
    ensures |rows| == |ds| && forall i :: 0 <= i < |ds| ==> rows[i] == EmbRow(refs[i], embed(ds[i].text))
  {
    seq(|ds|, i requires 0 <= i < |ds| => EmbRow(refs[i], embed(ds[i].text)))
  }

  lemma EmbRowsWritten(t: Bytes, h: Handed, embed: Embed, refs: seq<StrRef>, ds: seq<Described>)
    requires HandedOk(t, h) && |t| < LIMIT && RefsOk(h, refs, ds)
    ensures EmbRowsOk(t, embed, EmbRows(refs, embed, ds), ds)
  {
    var rows := EmbRows(refs, embed, ds);
    forall i | 0 <= i < |ds|
      ensures EmbRowOk(t, embed, rows[i], ds[i])
    {
      assert (refs[i], ds[i].id) in h;
      assert rows[i][2..] == embed(ds[i].text);
    }
  }

  lemma {:induction false} SectionSnoc(rows: seq<seq<Word>>, row: seq<Word>)
    ensures Section(rows + [row]) == Section(rows) + EncAll(row)
  {
    FlatSnoc(rows, row);
    EncAllSum(Flat(rows), row);
  }

  lemma {:induction false} EmbRowBytes(r: StrRef, vec: seq<Word>)
    ensures EncAll(EmbRow(r, vec)) == EncAll([r.off, r.len]) + EncAll(vec)
  {
    EncAllSum([r.off, r.len], vec);
  }

  function EmbBytes(refs: seq<StrRef>, embed: Embed, ds: seq<Described>): Bytes
    requires |ds| <= |refs|
  {
    Section(EmbRows(refs, embed, ds))
  }

  lemma {:induction false} EmbBytesNone(refs: seq<StrRef>, embed: Embed, ds: seq<Described>)
    requires ds == []
    ensures EmbBytes(refs, embed, ds) == []
  {
  }

  lemma {:induction false} EmbBytesMore(refs: seq<StrRef>, embed: Embed, ds: seq<Described>, i: nat, base: Bytes)
    requires i < |ds| <= |refs|
    ensures base + EmbBytes(refs, embed, ds[..i + 1]) ==
            base + EmbBytes(refs, embed, ds[..i]) + EncAll(EmbRow(refs[i], embed(ds[i].text)))
  {
    assert ds[..i + 1] == ds[..i] + [ds[i]];
    EmbRowsSnoc(refs, embed, ds[..i], ds[i]);
    SectionSnoc(EmbRows(refs, embed, ds[..i]), EmbRow(refs[i], embed(ds[i].text)));
  }

  lemma {:induction false} SectionJoin(a: seq<seq<Word>>, b: seq<seq<Word>>)
    ensures Section(a + b) == Section(a) + Section(b)
  {
    if b == [] {
      assert a + b == a;
    } else {
      var n := |b| - 1;
      SectionJoin(a, b[..n]);
      assert a + b == (a + b[..n]) + [b[n]] && b == b[..n] + [b[n]];
      SectionSnoc(a + b[..n], b[n]);
      SectionSnoc(b[..n], b[n]);
    }
  }

  lemma {:induction false} EmbBytesJoin(base: Bytes, refs: seq<StrRef>, embed: Embed, a: seq<Described>, b: seq<Described>)
    requires |a| + |b| <= |refs|
    ensures base + EmbBytes(refs, embed, a + b) == base + EmbBytes(refs, embed, a) + EmbBytes(refs[|a|..], embed, b)
  {
    assert EmbRows(refs, embed, a + b) == EmbRows(refs, embed, a) + EmbRows(refs[|a|..], embed, b);
    SectionJoin(EmbRows(refs, embed, a), EmbRows(refs[|a|..], embed, b));
  }

  // ---------- the compiler ----------

  class Compiler {
    const embed: Embed
    var strtab: Bytes
    var buf: Bytes
    ghost var handed: Handed

    ghost predicate Ok()
      reads this
    {
      HandedOk(strtab, handed)
    }

    constructor (e: Embed)
      ensures Ok() && embed == e && strtab == [] && buf == [] && handed == {}
    {
      embed := e;
      strtab, buf, handed := [], [], {};
    }

    method AddString(s: CString) returns (r: StrRef)
      requires Ok()
      modifies this`strtab, this`handed
      ensures Ok() && handed == old(handed) + {(r, s)}
    {
      r := StrRef(Trunc(|strtab|), Trunc(|s|));
      HandedMore(strtab, handed, s);
      strtab := strtab + (s + [0]);
      handed := handed + {(r, s)};
    }

    method Labels(id: CString, texts: seq<CString>) returns (refs: seq<StrRef>)
      requires Ok()
      modifies this`strtab, this`handed
      ensures Ok() && old(handed) <= handed && RefsOk(handed, refs, Descriptions(id, texts))
    {
      refs := [];
      for i := 0 to |texts|
        invariant Ok() && old(handed) <= handed && |refs| == i
        invariant forall k :: 0 <= k < i ==> (refs[k], id) in handed
      {
        var r := AddString(id);
        refs := refs + [r];
      }
    }

    /** Each description of a child adds the child's id and its parent's. */
    method KidLabels(parent: CString, id: CString, texts: seq<CString>) returns (refs: seq<StrRef>)
      requires Ok()
      modifies this`strtab, this`handed
      ensures Ok() && old(handed) <= handed && RefsOk(handed, refs, Descriptions(id, texts))
    {
      refs := [];
      for i := 0 to |texts|
        invariant Ok() && old(handed) <= handed && |refs| == i
        invariant forall k :: 0 <= k < i ==> (refs[k], id) in handed
      {
        var r := AddString(id);
        var p := AddString(parent);
        refs := refs + [r];
      }
    }

    method KidsLabels(parent: CString, kids: seq<Child>) returns (refs: seq<StrRef>)
      requires Ok()
      modifies this`strtab, this`handed
      ensures Ok() && old(handed) <= handed && RefsOk(handed, refs, KidDescs(kids, |kids|))
    {
      refs := [];
      for c := 0 to |kids|
        invariant Ok() && old(handed) <= handed && RefsOk(handed, refs, KidDescs(kids, c))
      {
        ghost var h := handed;
        var more := KidLabels(parent, kids[c].id, kids[c].descriptions);
        RefsJoin(h, handed, refs, KidDescs(kids, c), more, Descriptions(kids[c].id, kids[c].descriptions));
        refs := refs + more;
      }
    }

    method LabelPass(nodes: seq<Node>) returns (nodeRefs: seq<StrRef>, childRefs: seq<StrRef>)
      requires Ok()
      modifies this`strtab, this`handed
      ensures Ok() && old(handed) <= handed
      ensures RefsOk(handed, nodeRefs, NodeDescs(nodes, |nodes|)) && RefsOk(handed, childRefs, ChildDescs(nodes, |nodes|))
    {
      nodeRefs, childRefs := [], [];
      for n := 0 to |nodes|
        invariant Ok() && old(handed) <= handed
        invariant RefsOk(handed, nodeRefs, NodeDescs(nodes, n)) && RefsOk(handed, childRefs, ChildDescs(nodes, n))
      {
        var x := nodes[n];
        ghost var h := handed;
        var a := Labels(x.id, x.descriptions);
        ghost var k := handed;
        var b := KidsLabels(x.id, x.children);
        RefsJoin(h, k, nodeRefs, NodeDescs(nodes, n), a, Descriptions(x.id, x.descriptions));
        RefsJoin(h, handed, childRefs, ChildDescs(nodes, n), b, KidDescs(x.children, |x.children|));
        nodeRefs, childRefs := nodeRefs + a, childRefs + b;
      }
    }

    method EmitStrings(emits: seq<Emit>, i: nat) returns (key: StrRef, value: StrRef)
      requires Ok() && (i < |emits| || emits == [])
      modifies this`strtab, this`handed
      ensures Ok() && old(handed) <= handed
      ensures if emits == [] then key == StrRef(0, 0) else (key, emits[i].key) in handed && (value, emits[i].value) in handed
    {
      key, value := StrRef(0, 0), StrRef(0, 0);
      if |emits| > 0 {
        key := AddString(emits[i].key);
        value := AddString(emits[i].value);
      }
    }

    method NodeMetaRows(id: CString, emits: seq<Emit>, hasChildren: bool) returns (rows: seq<seq<Word>>)
      requires Ok()
      modifies this`strtab, this`handed
      ensures Ok() && old(handed) <= handed && NodeRowsIn(handed, rows, Metas([], id, emits, hasChildren))
    {
      ghost var xs := Metas([], id, emits, hasChildren);
      var n := if |emits| > 0 then |emits| else 1;
      rows := [];
      for i := 0 to n
        invariant Ok() && old(handed) <= handed && |rows| == i && NodeRowsIn(handed, rows, xs[..i])
      {
        ghost var h := handed;
        var r := AddString(id);
        var key, value := EmitStrings(emits, i);
        var row: seq<Word> := [r.off, r.len, key.off, key.len, value.off, value.len, if hasChildren then 1 else 0];
        assert NodeRowIn(handed, row, xs[i]);
        NodeRowsJoin(h, handed, rows, xs[..i], [row], [xs[i]]);
        assert xs[..i + 1] == xs[..i] + [xs[i]];
        rows := rows + [row];
      }
      assert xs[..n] == xs;
    }

    method ChildMetaRows(parent: CString, id: CString, emits: seq<Emit>) returns (rows: seq<seq<Word>>)
      requires Ok()
      modifies this`strtab, this`handed
      ensures Ok() && old(handed) <= handed && ChildRowsIn(handed, rows, Metas(parent, id, emits, false))
    {
      ghost var xs := Metas(parent, id, emits, false);
      var n := if |emits| > 0 then |emits| else 1;
      rows := [];
      for i := 0 to n
        invariant Ok() && old(handed) <= handed && |rows| == i && ChildRowsIn(handed, rows, xs[..i])
      {
        ghost var h := handed;
        var p := AddString(parent);
        var r := AddString(id);
        var key, value := EmitStrings(emits, i);
        var row: seq<Word> := [p.off, p.len, r.off, r.len, key.off, key.len, value.off, value.len];
        assert ChildRowIn(handed, row, xs[i]);
        ChildRowsJoin(h, handed, rows, xs[..i], [row], [xs[i]]);
        assert xs[..i + 1] == xs[..i] + [xs[i]];
        rows := rows + [row];
      }
      assert xs[..n] == xs;
    }

    method KidsMetaRows(parent: CString, kids: seq<Child>) returns (rows: seq<seq<Word>>)
      requires Ok()
      modifies this`strtab, this`handed
      ensures Ok() && old(handed) <= handed && ChildRowsIn(handed, rows, KidMetas(parent, kids, |kids|))
    {
      rows := [];
      for c := 0 to |kids|
        invariant Ok() && old(handed) <= handed && ChildRowsIn(handed, rows, KidMetas(parent, kids, c))
      {
        ghost var h := handed;
        var more := ChildMetaRows(parent, kids[c].id, kids[c].emits);
        ChildRowsJoin(h, handed, rows, KidMetas(parent, kids, c), more, Metas(parent, kids[c].id, kids[c].emits, false));
        rows := rows + more;
      }
    }

    method MetaPass(nodes: seq<Node>) returns (nodeRows: seq<seq<Word>>, childRows: seq<seq<Word>>)
      requires Ok()
      modifies this`strtab, this`handed
      ensures Ok() && old(handed) <= handed
      ensures NodeRowsIn(handed, nodeRows, NodeMetas(nodes, |nodes|)) && ChildRowsIn(handed, childRows, ChildMetas(nodes, |nodes|))
    {
      nodeRows, childRows := [], [];
      for n := 0 to |nodes|
        invariant Ok() && old(handed) <= handed
        invariant NodeRowsIn(handed, nodeRows, NodeMetas(nodes, n)) && ChildRowsIn(handed, childRows, ChildMetas(nodes, n))
      {
        var x := nodes[n];
        ghost var h := handed;
        var a := NodeMetaRows(x.id, x.emits, |x.children| > 0);
        ghost var k := handed;
        var b := KidsMetaRows(x.id, x.children);
        NodeRowsJoin(h, k, nodeRows, NodeMetas(nodes, n), a, Metas([], x.id, x.emits, |x.children| > 0));
        ChildRowsJoin(h, handed, childRows, ChildMetas(nodes, n), b, KidMetas(x.id, x.children, |x.children|));
        nodeRows, childRows := nodeRows + a, childRows + b;
      }
    }

    // ---------- writing ----------

    method WriteDesc(r: StrRef, text: CString)
      modifies this`buf
      ensures buf == old(buf) + EncAll(EmbRow(r, embed(text)))
    {
      EmbRowBytes(r, embed(text));
      buf := buf + EncAll([r.off, r.len]);
      buf := buf + EncAll(embed(text));
    }

    /** Rows for the descriptions of one node or child; `ie` counts the rows of the section. */
    method WriteDescs(texts: seq<CString>, refs: seq<StrRef>, ie: nat, ghost id: CString)
      requires ie + |texts| <= |refs|
      modifies this`buf
      ensures buf == old(buf) + EmbBytes(refs[ie..], embed, Descriptions(id, texts))
    {
      ghost var ds := Descriptions(id, texts);
      EmbBytesNone(refs[ie..], embed, ds[..0]);
      for i := 0 to |texts|
        invariant buf == old(buf) + EmbBytes(refs[ie..], embed, ds[..i])
      {
        EmbBytesMore(refs[ie..], embed, ds, i, old(buf));
        WriteDesc(refs[ie + i], texts[i]);
      }
      assert ds[..|texts|] == ds;
    }

    method WriteNodeEmbs(nodes: seq<Node>, refs: seq<StrRef>)
      requires |refs| == |NodeDescs(nodes, |nodes|)|
      modifies this`buf
      ensures buf == old(buf) + EmbBytes(refs, embed, NodeDescs(nodes, |nodes|))
    {
      var ie := 0;
      EmbBytesNone(refs, embed, NodeDescs(nodes, 0));
      for n := 0 to |nodes|
        invariant ie == |NodeDescs(nodes, n)| <= |refs|
        invariant buf == old(buf) + EmbBytes(refs, embed, NodeDescs(nodes, n))
      {
        NodeDescsFit(nodes, n + 1);
        WriteMore(nodes[n].id, nodes[n].descriptions, refs, ie, old(buf), NodeDescs(nodes, n));
        ie := ie + |nodes[n].descriptions|;
      }
    }

    /** Adds the rows of one node or child to a section whose first `ie` rows are written. */
    method WriteMore(id: CString, texts: seq<CString>, refs: seq<StrRef>, ie: nat, ghost base: Bytes, ghost done: seq<Described>)
      requires ie == |done| && ie + |texts| <= |refs| && buf == base + EmbBytes(refs, embed, done)
      modifies this`buf
      ensures buf == base + EmbBytes(refs, embed, done + Descriptions(id, texts))
    {
      EmbBytesJoin(base, refs, embed, done, Descriptions(id, texts));
      WriteDescs(texts, refs, ie, id);
    }

    method WriteKidEmbs(kids: seq<Child>, refs: seq<StrRef>, ce: nat) returns (end: nat)
      requires ce + |KidDescs(kids, |kids|)| <= |refs|
      modifies this`buf
      ensures end == ce + |KidDescs(kids, |kids|)| && buf == old(buf) + EmbBytes(refs[ce..], embed, KidDescs(kids, |kids|))
    {
      end := ce;
      EmbBytesNone(refs[ce..], embed, KidDescs(kids, 0));
      for c := 0 to |kids|
        invariant end == ce + |KidDescs(kids, c)| && end <= |refs|
        invariant buf == old(buf) + EmbBytes(refs[ce..], embed, KidDescs(kids, c))
      {
        KidDescsFit(kids, c + 1);
        WriteMore(kids[c].id, kids[c].descriptions, refs[ce..], end - ce, old(buf), KidDescs(kids, c));
        end := end + |kids[c].descriptions|;
      }
    }

    method WriteChildEmbs(nodes: seq<Node>, refs: seq<StrRef>)
      requires |refs| == |ChildDescs(nodes, |nodes|)|
      modifies this`buf
      ensures buf == old(buf) + EmbBytes(refs, embed, ChildDescs(nodes, |nodes|))
    {
      var ce := 0;
      EmbBytesNone(refs, embed, ChildDescs(nodes, 0));
      for n := 0 to |nodes|
        invariant ce == |ChildDescs(nodes, n)| <= |refs|
        invariant buf == old(buf) + EmbBytes(refs, embed, ChildDescs(nodes, n))
      {
        ChildDescsFit(nodes, n + 1);
        EmbBytesJoin(old(buf), refs, embed, ChildDescs(nodes, n), KidDescs(nodes[n].children, |nodes[n].children|));
        ce := WriteKidEmbs(nodes[n].children, refs, ce);
      }
    }

    method WriteRows(rows: seq<seq<Word>>)
      modifies this`buf
      ensures buf == old(buf) + Section(rows)
    {
      assert rows[..0] == [];
      for i := 0 to |rows|
        invariant buf == old(buf) + Section(rows[..i])
      {
        assert rows[..i + 1] == rows[..i] + [rows[i]];
        SectionSnoc(rows[..i], rows[i]);
        buf := buf + EncAll(rows[i]);
      }
      assert rows[..|rows|] == rows;
    }

    /** Collects all strings. */
    method Collect(m: Manifest) returns (g: Image, nodeRefs: seq<StrRef>, childRefs: seq<StrRef>)
      requires Ok()
      modifies this`strtab, this`handed
      ensures Ok() && g.strtab == strtab && {(g.id, m.id), (g.vendor, m.vendor), (g.version, m.version)} <= handed
      ensures g.nodeRows == [] && g.childRows == []
      ensures RefsOk(handed, nodeRefs, NodeDescs(m.nodes, |m.nodes|)) && RefsOk(handed, childRefs, ChildDescs(m.nodes, |m.nodes|))
      ensures NodeRowsIn(handed, g.nodeMeta, NodeMetas(m.nodes, |m.nodes|))
      ensures ChildRowsIn(handed, g.childMeta, ChildMetas(m.nodes, |m.nodes|))
    {
      var id := AddString(m.id);
      var vendor := AddString(m.vendor);
      var version := AddString(m.version);
      nodeRefs, childRefs := LabelPass(m.nodes);
      ghost var h := handed;
      var nodeMeta, childMeta := MetaPass(m.nodes);
      assert RefsOk(handed, nodeRefs, NodeDescs(m.nodes, |m.nodes|));
      g := Image(strtab, id, vendor, version, [], [], nodeMeta, childMeta);
    }

    /** The whole compiler. Its file holds an image that says what the manifest says, unless the
        string table outgrows 32-bit offsets. */
    method Compile(m: Manifest, dim: Word) returns (file: Bytes, ghost img: Image)
      requires Ok() && strtab == [] && buf == []
      modifies this
      ensures file == File(img, m, dim) && (|img.strtab| < LIMIT ==> Says(img, m, embed))
    {
      var g, nodeRefs, childRefs := Collect(m);
      ghost var nodeRows, childRows := EmbRows(nodeRefs, embed, NodeDescs(m.nodes, |m.nodes|)), EmbRows(childRefs, embed, ChildDescs(m.nodes, |m.nodes|));
      img := g.(nodeRows := nodeRows, childRows := childRows);
      if |g.strtab| < LIMIT {
        ImageSays(img, m, embed, handed, nodeRefs, childRefs);
      }
      file := WriteAll(m, dim, g, nodeRefs, childRefs, img);
    }

    /** Writes section after section and the header last. */
    method WriteAll(m: Manifest, dim: Word, g: Image, nodeRefs: seq<StrRef>, childRefs: seq<StrRef>, ghost img: Image) returns (file: Bytes)
      requires buf == [] && |nodeRefs| == |NodeDescs(m.nodes, |m.nodes|)| && |childRefs| == |ChildDescs(m.nodes, |m.nodes|)|
      requires img == g.(nodeRows := EmbRows(nodeRefs, embed, NodeDescs(m.nodes, |m.nodes|)),
                         childRows := EmbRows(childRefs, embed, ChildDescs(m.nodes, |m.nodes|)))
      modifies this`buf
      ensures file == File(img, m, dim)
    {
      var p := WriteBody(m, g, nodeRefs, childRefs, img);
      var hdr := HeaderWords(p, g.id, g.vendor, g.version, m, dim);
      file := EncAll(hdr) + buf[HEADER_SIZE..];
    }

    method WriteBody(m: Manifest, g: Image, nodeRefs: seq<StrRef>, childRefs: seq<StrRef>, ghost img: Image) returns (p: Places)
      requires buf == [] && |nodeRefs| == |NodeDescs(m.nodes, |m.nodes|)| && |childRefs| == |ChildDescs(m.nodes, |m.nodes|)|
      requires img == g.(nodeRows := EmbRows(nodeRefs, embed, NodeDescs(m.nodes, |m.nodes|)),
                         childRows := EmbRows(childRefs, embed, ChildDescs(m.nodes, |m.nodes|)))
      modifies this`buf
      ensures p == PlacesOf(img) && |buf| == FileSize(img) && buf[HEADER_SIZE..] == Body(img)
    {
      buf := seq(HEADER_SIZE, _ => 0);
      ghost var h := buf;
      buf := buf + g.strtab;
      var a := |buf|;
      WriteNodeEmbs(m.nodes, nodeRefs);
      var b := |buf|;
      WriteChildEmbs(m.nodes, childRefs);
      var c := |buf|;
      WriteRows(g.nodeMeta);
      var d := |buf|;
      WriteRows(g.childMeta);
      BodyIs(img, h, buf);
      p := Places(|buf|, |g.strtab|, a, |nodeRefs|, b, |childRefs|, c, |g.nodeMeta|, d, |g.childMeta|);
    }
  }

  lemma {:induction false} BodyIs(g: Image, h: Bytes, b: Bytes)
    requires |h| == HEADER_SIZE
    requires b == h + g.strtab + Section(g.nodeRows) + Section(g.childRows) + Section(g.nodeMeta) + Section(g.childMeta)
    ensures b[HEADER_SIZE..] == Body(g) && |b| == FileSize(g)
  {
    assert b == h + Body(g);
  }

  lemma ImageSays(g: Image, m: Manifest, embed: Embed, h: Handed, nodeRefs: seq<StrRef>, childRefs: seq<StrRef>)
    requires HandedOk(g.strtab, h) && |g.strtab| < LIMIT && {(g.id, m.id), (g.vendor, m.vendor), (g.version, m.version)} <= h
    requires RefsOk(h, nodeRefs, NodeDescs(m.nodes, |m.nodes|)) && RefsOk(h, childRefs, ChildDescs(m.nodes, |m.nodes|))
    requires NodeRowsIn(h, g.nodeMeta, NodeMetas(m.nodes, |m.nodes|)) && ChildRowsIn(h, g.childMeta, ChildMetas(m.nodes, |m.nodes|))
    requires g.nodeRows == EmbRows(nodeRefs, embed, NodeDescs(m.nodes, |m.nodes|))
    requires g.childRows == EmbRows(childRefs, embed, ChildDescs(m.nodes, |m.nodes|))
    ensures Says(g, m, embed)
  {
    var nodes := m.nodes;
    assert (g.id, m.id) in h && (g.vendor, m.vendor) in h && (g.version, m.version) in h;
    EmbRowsWritten(g.strtab, h, embed, nodeRefs, NodeDescs(nodes, |nodes|));
    EmbRowsWritten(g.strtab, h, embed, childRefs, ChildDescs(nodes, |nodes|));
    NodeRowsWritten(g.strtab, h, g.nodeMeta, NodeMetas(nodes, |nodes|));
    ChildRowsWritten(g.strtab, h, g.childMeta, ChildMetas(nodes, |nodes|));
  }

  lemma EmbRowsSnoc(refs: seq<StrRef>, embed: Embed, ds: seq<Described>, d: Described)
    requires |ds| < |refs|
    ensures EmbRows(refs, embed, ds + [d]) == EmbRows(refs, embed, ds) + [EmbRow(refs[|ds|], embed(d.text))]
  {
  }

  lemma {:induction false} NodeDescsFit(nodes: seq<Node>, n: nat)
    requires n <= |nodes|
    ensures |NodeDescs(nodes, n)| <= |NodeDescs(nodes, |nodes|)|
    decreases |nodes| - n
  {
    if n < |nodes| {
      NodeDescsFit(nodes, n + 1);
    }
  }

  lemma {:induction false} ChildDescsFit(nodes: seq<Node>, n: nat)
    requires n <= |nodes|
    ensures |ChildDescs(nodes, n)| <= |ChildDescs(nodes, |nodes|)|
    decreases |nodes| - n
  {
    if n < |nodes| {
      ChildDescsFit(nodes, n + 1);
    }
  }

  lemma {:induction false} KidDescsFit(kids: seq<Child>, n: nat)
    requires n <= |kids|
    ensures |KidDescs(kids, n)| <= |KidDescs(kids, |kids|)|
    decreases |kids| - n
  {
    if n < |kids| {
      KidDescsFit(kids, n + 1);
    }
  }
}