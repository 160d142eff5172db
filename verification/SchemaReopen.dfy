/** A compiled schema means the same after it is opened again. */
module SchemaReopen {
  import opened Wrappers
  import opened SchemaBytes
  import opened SchemaLayout
  import opened SchemaCompile
  import opened SchemaOpen

  /** A file below 4 GiB whose image says what the manifest says. */
  ghost predicate Compiled(f: Bytes, g: Image, m: Manifest, embed: Embed, dim: Word) {
    && f == File(g, m, dim) && |f| < LIMIT && Says(g, m, embed)
    && dim > 0 && forall s :: |embed(s)| == dim
  }

  lemma {:induction false} HeaderBack(f: Bytes, g: Image, m: Manifest, dim: Word)
    requires f == File(g, m, dim)
    ensures |f| >= HEADER_SIZE && HeaderOf(f) == Header(g, m, dim)
  {
    SectionsInPlace(g, m, dim);
    WordsBack(f, Header(g, m, dim));
  }

  lemma {:induction false} WordsBack(f: Bytes, h: seq<Word>)
    requires Holds(f, 0, EncAll(h)) && |h| == 23
    ensures |f| >= HEADER_SIZE && HeaderOf(f) == h
  {
    forall k | 0 <= k < 23
      ensures HeaderOf(f)[k] == h[k]
    {
      ReadWord(f, 0, h, k);
    }
  }

  // ---------- the sections tile the file ----------

  lemma {:induction false} RowCounts(g: Image, m: Manifest, embed: Embed, dim: Word)
    requires Says(g, m, embed) && forall s :: |embed(s)| == dim
    ensures Uniform(g.nodeRows, 2 + dim) && Uniform(g.childRows, 2 + dim) && Uniform(g.nodeMeta, 7) && Uniform(g.childMeta, 8)
  {
    EmbUniform(g.strtab, embed, g.nodeRows, NodeDescs(m.nodes, |m.nodes|), dim);
    EmbUniform(g.strtab, embed, g.childRows, ChildDescs(m.nodes, |m.nodes|), dim);
    forall i | 0 <= i < |g.nodeMeta|
      ensures |g.nodeMeta[i]| == 7
    {
      assert NodeRowOk(g.strtab, g.nodeMeta[i], NodeMetas(m.nodes, |m.nodes|)[i]);
    }
    forall i | 0 <= i < |g.childMeta|
      ensures |g.childMeta[i]| == 8
    {
      assert ChildRowOk(g.strtab, g.childMeta[i], ChildMetas(m.nodes, |m.nodes|)[i]);
    }
  }

  lemma EmbUniform(t: Bytes, embed: Embed, rows: seq<seq<Word>>, ds: seq<Described>, dim: Word)
    requires EmbRowsOk(t, embed, rows, ds) && forall s :: |embed(s)| == dim
    ensures Uniform(rows, 2 + dim)
  {
    forall i | 0 <= i < |rows|
      ensures |rows[i]| == 2 + dim
    {
      assert EmbRowOk(t, embed, rows[i], ds[i]);
      assert |rows[i][2..]| == dim;
    }
  }

  lemma {:induction false} SectionBytes(rows: seq<seq<Word>>, k: nat)
    requires Uniform(rows, k)
    ensures |Section(rows)| == |rows| * (4 * k) && |rows| * k * 4 == |rows| * (4 * k)
  {
    SectionSize(rows, k);
    StartIs(|rows|, k);
    FourTimes(|rows|, k);
  }

  lemma FourTimes(n: nat, k: nat)
    ensures 4 * (n * k) == n * (4 * k)
  {
  }

  /** Each section starts where the one before it ends, and the last one ends the file. */
  ghost predicate SectionsTile(h: seq<nat>, size: nat, dim: nat)
    requires |h| == 23
  {
    && h[3] == HEADER_SIZE
    && h[15] == h[3] + h[4]
    && h[17] == h[15] + h[16] * (EMB_HEADER + 4 * dim)
    && h[19] == h[17] + h[18] * (EMB_HEADER + 4 * dim)
    && h[21] == h[19] + h[20] * NODE_META_SIZE
    && size == h[21] + h[22] * CHILD_META_SIZE
  }

  lemma {:induction false} SizesSmall(f: Bytes, g: Image, m: Manifest, embed: Embed, dim: Word)
    requires Compiled(f, g, m, embed, dim)
    ensures |g.strtab| < LIMIT && NodeEmbOff(g) < LIMIT && ChildEmbOff(g) < LIMIT && NodeMetaOff(g) < LIMIT && ChildMetaOff(g) < LIMIT
    ensures FileSize(g) == |f|
  {
    SectionsInPlace(g, m, dim);
  }

  lemma CountSmall(rows: seq<seq<Word>>, k: nat)
    requires Uniform(rows, k) && |Section(rows)| < LIMIT && k > 0
    ensures |rows| < LIMIT
  {
    SectionBytes(rows, k);
    assert |rows| * 1 <= |rows| * (4 * k) by {
      Grows(|rows|, 4 * k);
    }
  }

  lemma Grows(n: nat, k: nat)
    requires k >= 1
    ensures n <= n * k
  {
    assert n * k == n + n * (k - 1);
  }

  /** The header gives the places as they are. */
  ghost predicate PlaceFields(h: seq<nat>, p: Places, dim: nat)
    requires |h| == 23
  {
    && h[0] == MAGIC && h[1] == FORMAT_VERSION && h[2] == p.size && h[3] == HEADER_SIZE && h[4] == p.strtab && h[14] == dim
    && h[15] == p.nodeEmb && h[16] == p.nodes && h[17] == p.childEmb && h[18] == p.kids
    && h[19] == p.nodeMeta && h[20] == p.nodeMetas && h[21] == p.childMeta && h[22] == p.childMetas
  }

  ghost predicate AllSmall(p: Places) {
    && p.size < LIMIT && p.strtab < LIMIT && p.nodeEmb < LIMIT && p.nodes < LIMIT && p.childEmb < LIMIT && p.kids < LIMIT
    && p.nodeMeta < LIMIT && p.nodeMetas < LIMIT && p.childMeta < LIMIT && p.childMetas < LIMIT
  }

  lemma {:induction false} NothingTruncated(f: Bytes, g: Image, m: Manifest, embed: Embed, dim: Word)
    requires Compiled(f, g, m, embed, dim)
    ensures PlaceFields(Header(g, m, dim), PlacesOf(g), dim)
  {
    SizesSmall(f, g, m, embed, dim);
    CountsSmall(f, g, m, embed, dim);
    PlainHeader(PlacesOf(g), g.id, g.vendor, g.version, m, dim);
  }

  lemma {:induction false} PlainHeader(p: Places, id: StrRef, vendor: StrRef, version: StrRef, m: Manifest, dim: Word)
    requires AllSmall(p)
    ensures PlaceFields(HeaderWords(p, id, vendor, version, m, dim), p, dim)
  {
  }

  lemma {:induction false} CountsSmall(f: Bytes, g: Image, m: Manifest, embed: Embed, dim: Word)
    requires Compiled(f, g, m, embed, dim)
    ensures |g.nodeRows| < LIMIT && |g.childRows| < LIMIT && |g.nodeMeta| < LIMIT && |g.childMeta| < LIMIT
  {
    SizesSmall(f, g, m, embed, dim);
    RowCounts(g, m, embed, dim);
    CountSmall(g.nodeRows, 2 + dim);
    CountSmall(g.childRows, 2 + dim);
    CountSmall(g.nodeMeta, 7);
    CountSmall(g.childMeta, 8);
  }

  lemma {:induction false} PlacesTile(h: seq<nat>, g: Image, dim: nat)
    requires |h| == 23 && PlaceFields(h, PlacesOf(g), dim)
    requires Uniform(g.nodeRows, 2 + dim) && Uniform(g.childRows, 2 + dim) && Uniform(g.nodeMeta, 7) && Uniform(g.childMeta, 8)
    ensures SectionsTile(h, FileSize(g), dim) && MetaGood(h, FileSize(g))
    ensures FileSize(g) < LIMIT && dim > 0 ==> HeaderChecks(h, FileSize(g), dim)
  {
    SectionBytes(g.nodeRows, 2 + dim);
    SectionBytes(g.childRows, 2 + dim);
    SectionBytes(g.nodeMeta, 7);
    SectionBytes(g.childMeta, 8);
    assert EMB_HEADER + 4 * dim == 4 * (2 + dim);
  }

  /** The header describes the sections, and they tile the file. */
  lemma {:induction false} CompiledTiles(f: Bytes, g: Image, m: Manifest, embed: Embed, dim: Word)
    requires Compiled(f, g, m, embed, dim)
    ensures |f| >= HEADER_SIZE && SectionsTile(HeaderOf(f), |f|, dim) && HeaderGood(f, dim) && MetaGood(HeaderOf(f), |f|)
    ensures PlaceFields(HeaderOf(f), PlacesOf(g), dim)
  {
    assert |f| >= HEADER_SIZE && PlaceFields(HeaderOf(f), PlacesOf(g), dim) by {
      HeaderBack(f, g, m, dim);
      NothingTruncated(f, g, m, embed, dim);
    }
    RowCounts(g, m, embed, dim);
    assert FileSize(g) == |f| by {
      SizesSmall(f, g, m, embed, dim);
    }
    PlacesTile(HeaderOf(f), g, dim);
  }

  // ---------- the header ----------

  /** The reference in words `k` and `k + 1` of the header gives `s` in the string table, which starts at byte 92. */
  ghost predicate HeaderNames(f: Bytes, k: nat, s: CString) {
    4 * k + 8 <= |f| && Dec(f, 4 * k + 4) == |s| && CStr(f, 92 + Dec(f, 4 * k)) == s
  }

  /** Id, vendor, version, threshold and window sizes are those of the manifest. */
  lemma {:induction false} HeaderSays(f: Bytes, g: Image, m: Manifest, embed: Embed, dim: Word, r: Runtime)
    requires Compiled(f, g, m, embed, dim) && |f| >= HEADER_SIZE && RuntimeIs(f, dim, r)
    ensures r.threshold == m.threshold && r.minNgram == m.minNgram && r.maxNgram == m.maxNgram
    ensures HeaderNames(f, 5, m.id) && HeaderNames(f, 7, m.vendor) && HeaderNames(f, 9, m.version)
  {
    assert NamedFields(HeaderOf(f), g, m) by {
      HeaderBack(f, g, m, dim);
      NamesInHeader(PlacesOf(g), g, m, dim);
    }
    assert Holds(f, HEADER_SIZE, g.strtab) by {
      SectionsInPlace(g, m, dim);
    }
    NameBack(f, g.strtab, 5, g.id, m.id);
    NameBack(f, g.strtab, 7, g.vendor, m.vendor);
    NameBack(f, g.strtab, 9, g.version, m.version);
  }

  ghost predicate NamedFields(h: seq<nat>, g: Image, m: Manifest)
    requires |h| == 23
  {
    && h[5] == g.id.off && h[6] == g.id.len && h[7] == g.vendor.off && h[8] == g.vendor.len
    && h[9] == g.version.off && h[10] == g.version.len
    && h[11] == m.threshold && h[12] == m.minNgram && h[13] == m.maxNgram
  }

  lemma {:induction false} NamesInHeader(p: Places, g: Image, m: Manifest, dim: Word)
    ensures NamedFields(HeaderWords(p, g.id, g.vendor, g.version, m, dim), g, m)
  {
  }

  lemma {:induction false} NameBack(f: Bytes, t: Bytes, k: nat, r: StrRef, s: CString)
    requires |f| >= HEADER_SIZE && k + 1 < 23 && HeaderOf(f)[k] == r.off && HeaderOf(f)[k + 1] == r.len
    requires Holds(f, HEADER_SIZE, t) && StrAt(t, r, s)
    ensures HeaderNames(f, k, s)
  {
    ReadStr(f, HEADER_SIZE, t, r, s);
    assert Dec(f, 4 * k) == HeaderOf(f)[k] && Dec(f, 4 * (k + 1)) == HeaderOf(f)[k + 1];
  }

  // ---------- embeddings ----------

  /** Row `i` of an embedding section is read back; the index takes it unless its id is empty. */
  lemma {:induction false} EntryBack(f: Bytes, t: Bytes, embed: Embed, off: nat, rows: seq<seq<Word>>, ds: seq<Described>, dim: nat, i: nat)
    requires Holds(f, HEADER_SIZE, t) && Holds(f, off, Section(rows)) && Uniform(rows, 2 + dim) && EmbRowsOk(t, embed, rows, ds) && i < |ds|
    ensures var p := EntryOff(off, dim, i);
            && (EntryGood(f, HEADER_SIZE, p, dim) <==> ds[i].id != [])
            && (ds[i].id != [] ==> EntryRead(f, HEADER_SIZE, p, dim) == Entry(ds[i].id, embed(ds[i].text)))
  {
    var row := rows[i];
    assert EmbRowOk(t, embed, row, ds[i]);
    var p := off + 4 * Start(i, 2 + dim);
    EntryAt(f, off, rows, 2 + dim, i);
    StartIs(i, 2 + dim);
    FourTimes(i, 2 + dim);
    assert p == EntryOff(off, dim, i);
    RowBack(f, t, embed, p, row, ds[i], dim);
  }

  lemma {:induction false} RowBack(f: Bytes, t: Bytes, embed: Embed, p: nat, row: seq<Word>, d: Described, dim: nat)
    requires Holds(f, HEADER_SIZE, t) && Holds(f, p, EncAll(row)) && |row| == 2 + dim && EmbRowOk(t, embed, row, d)
    ensures EntryGood(f, HEADER_SIZE, p, dim) <==> d.id != []
    ensures d.id != [] ==> EntryRead(f, HEADER_SIZE, p, dim) == Entry(d.id, embed(d.text))
  {
    ReadWord(f, p, row, 0);
    ReadWord(f, p, row, 1);
    ReadStr(f, HEADER_SIZE, t, StrRef(row[0], row[1]), d.id);
    assert Dec(f, p) == row[0] && Dec(f, p + 4) == row[1];
    assert EntryName(f, HEADER_SIZE, p) == d.id;
    VecBack(f, p, row, dim);
  }

  lemma {:induction false} VecBack(f: Bytes, p: nat, row: seq<Word>, dim: nat)
    requires Holds(f, p, EncAll(row)) && |row| == 2 + dim
    ensures p + EMB_HEADER + 4 * dim <= |f|
    ensures seq(dim, j requires 0 <= j < dim => Dec(f, p + EMB_HEADER + 4 * j)) == row[2..]
  {
    forall j | 0 <= j < dim
      ensures Dec(f, p + EMB_HEADER + 4 * j) == row[2..][j]
    {
      ReadWord(f, p, row, j + 2);
      assert p + 4 * (j + 2) == p + EMB_HEADER + 4 * j;
    }
  }

  ghost predicate NamesGiven(ds: seq<Described>) {
    forall i :: 0 <= i < |ds| ==> ds[i].id != []
  }

  lemma {:induction false} IndexBack(f: Bytes, t: Bytes, embed: Embed, off: nat, rows: seq<seq<Word>>, ds: seq<Described>, dim: nat)
    requires Holds(f, HEADER_SIZE, t) && Holds(f, off, Section(rows)) && Uniform(rows, 2 + dim) && EmbRowsOk(t, embed, rows, ds)
    ensures IndexGood(f, HEADER_SIZE, off, |rows|, dim) <==> NamesGiven(ds)
  {
    forall i | 0 <= i < |ds|
      ensures EntryGood(f, HEADER_SIZE, EntryOff(off, dim, i), dim) <==> ds[i].id != []
    {
      EntryBack(f, t, embed, off, rows, ds, dim, i);
    }
  }

  /** An index entry is a description of the manifest. */
  ghost predicate IndexSays(es: seq<Entry>, embed: Embed, ds: seq<Described>) {
    |es| == |ds| && forall i :: 0 <= i < |ds| ==> es[i] == Entry(ds[i].id, embed(ds[i].text))
  }

  lemma {:induction false} IndexReads(f: Bytes, t: Bytes, embed: Embed, off: nat, rows: seq<seq<Word>>, ds: seq<Described>, dim: nat, es: seq<Entry>)
    requires Holds(f, HEADER_SIZE, t) && Holds(f, off, Section(rows)) && Uniform(rows, 2 + dim) && EmbRowsOk(t, embed, rows, ds)
    requires IndexIs(f, HEADER_SIZE, off, |rows|, dim, es)
    ensures IndexSays(es, embed, ds)
  {
    forall i | 0 <= i < |ds|
      ensures es[i] == Entry(ds[i].id, embed(ds[i].text))
    {
      EntryBack(f, t, embed, off, rows, ds, dim, i);
    }
  }

  // ---------- which compiled files open ----------

  /** Every child with a description has an id. */
  ghost predicate ChildrenNamed(nodes: seq<Node>) {
    forall n, c :: 0 <= n < |nodes| && 0 <= c < |nodes[n].children| && nodes[n].children[c].descriptions != [] ==>
      nodes[n].children[c].id != []
  }

  lemma DescsNamed(id: CString, texts: seq<CString>)
    ensures NamesGiven(Descriptions(id, texts)) <==> id != [] || texts == []
  {
    if texts != [] {
      assert Descriptions(id, texts)[0].id == id;
    }
  }

  lemma NamesJoin(a: seq<Described>, b: seq<Described>)
    ensures NamesGiven(a + b) <==> NamesGiven(a) && NamesGiven(b)
  {
    if NamesGiven(a + b) {
      assert forall i :: 0 <= i < |a| ==> a[i] == (a + b)[i];
      assert forall i :: 0 <= i < |b| ==> b[i] == (a + b)[|a| + i];
    }
  }

  lemma {:induction false} NodesNamed(m: Manifest, n: nat)
    requires Valid(m) && n <= |m.nodes|
    ensures NamesGiven(NodeDescs(m.nodes, n))
  {
    if n > 0 {
      NodesNamed(m, n - 1);
      DescsNamed(m.nodes[n - 1].id, m.nodes[n - 1].descriptions);
      NamesJoin(NodeDescs(m.nodes, n - 1), Descriptions(m.nodes[n - 1].id, m.nodes[n - 1].descriptions));
    }
  }

  ghost predicate KidsNamed(kids: seq<Child>, n: nat)
    requires n <= |kids|
  {
    forall c :: 0 <= c < n && kids[c].descriptions != [] ==> kids[c].id != []
  }

  lemma {:induction false} KidsNamedIff(kids: seq<Child>, n: nat)
    requires n <= |kids|
    ensures NamesGiven(KidDescs(kids, n)) <==> KidsNamed(kids, n)
  {
    if n > 0 {
      KidsNamedIff(kids, n - 1);
      DescsNamed(kids[n - 1].id, kids[n - 1].descriptions);
      NamesJoin(KidDescs(kids, n - 1), Descriptions(kids[n - 1].id, kids[n - 1].descriptions));
    }
  }

  lemma {:induction false} ChildrenNamedIff(nodes: seq<Node>, n: nat)
    requires n <= |nodes|
    ensures NamesGiven(ChildDescs(nodes, n)) <==> forall k :: 0 <= k < n ==> KidsNamed(nodes[k].children, |nodes[k].children|)
  {
    if n > 0 {
      ChildrenNamedIff(nodes, n - 1);
      var kids := nodes[n - 1].children;
      KidsNamedIff(kids, |kids|);
      NamesJoin(ChildDescs(nodes, n - 1), KidDescs(kids, |kids|));
    }
  }

  /** A compiled valid manifest opens again if and only if its described children have ids. */
  lemma {:induction false} CompiledOpensIff(f: Bytes, g: Image, m: Manifest, embed: Embed, dim: Word)
    requires Compiled(f, g, m, embed, dim) && Valid(m)
    ensures Opens(f, dim) <==> ChildrenNamed(m.nodes)
  {
    var nodes := m.nodes;
    CompiledTiles(f, g, m, embed, dim);
    RowCounts(g, m, embed, dim);
    SectionsInPlace(g, m, dim);
    assert IndexGood(f, HEADER_SIZE, NodeEmbOff(g), |g.nodeRows|, dim) by {
      NodesNamed(m, |nodes|);
      IndexBack(f, g.strtab, embed, NodeEmbOff(g), g.nodeRows, NodeDescs(nodes, |nodes|), dim);
    }
    assert IndexGood(f, HEADER_SIZE, ChildEmbOff(g), |g.childRows|, dim) <==> ChildrenNamed(nodes) by {
      ChildrenNamedIff(nodes, |nodes|);
      IndexBack(f, g.strtab, embed, ChildEmbOff(g), g.childRows, ChildDescs(nodes, |nodes|), dim);
    }
  }

  /** The opened schema holds the manifest's descriptions with their vectors. */
  lemma {:induction false} IndexesSay(f: Bytes, g: Image, m: Manifest, embed: Embed, dim: Word, r: Runtime)
    requires Compiled(f, g, m, embed, dim) && |f| >= HEADER_SIZE && RuntimeIs(f, dim, r)
    ensures IndexSays(r.nodeIndex, embed, NodeDescs(m.nodes, |m.nodes|))
    ensures IndexSays(r.childIndex, embed, ChildDescs(m.nodes, |m.nodes|))
  {
    CompiledTiles(f, g, m, embed, dim);
    RowCounts(g, m, embed, dim);
    SectionsInPlace(g, m, dim);
    IndexReads(f, g.strtab, embed, NodeEmbOff(g), g.nodeRows, NodeDescs(m.nodes, |m.nodes|), dim, r.nodeIndex);
    IndexReads(f, g.strtab, embed, ChildEmbOff(g), g.childRows, ChildDescs(m.nodes, |m.nodes|), dim, r.childIndex);
  }

  // ---------- emits ----------

  /** Rows that say the same: without a key the value does not matter. */
  ghost predicate SameRow(x: Meta, y: Meta) {
    x.parent == y.parent && x.id == y.id && x.key == y.key && x.hasChildren == y.hasChildren && (x.key != [] ==> x.value == y.value)
  }

  ghost predicate SameRows(xs: seq<Meta>, ys: seq<Meta>) {
    |xs| == |ys| && forall i :: 0 <= i < |xs| ==> SameRow(xs[i], ys[i])
  }

  lemma {:induction false} SameEmits(xs: seq<Meta>, ys: seq<Meta>, parent: CString, id: CString, span: CString, n: nat)
    requires SameRows(xs, ys) && n <= |xs|
    ensures EmitsIn(xs, parent, id, span, n) == EmitsIn(ys, parent, id, span, n)
  {
    if n > 0 {
      SameEmits(xs, ys, parent, id, span, n - 1);
      assert SameRow(xs[n - 1], ys[n - 1]);
    }
  }

  /** The string that words `k` and `k + 1` of a row refer to, read at byte `q`. */
  lemma {:induction false} RefBack(f: Bytes, t: Bytes, p: nat, row: seq<Word>, k: nat, q: nat, s: CString)
    requires Holds(f, HEADER_SIZE, t) && Holds(f, p, EncAll(row)) && k + 1 < |row| && q == p + 4 * k
    requires StrAt(t, StrRef(row[k], row[k + 1]), s)
    ensures WordAt(f, q, row[k]) && CStr(f, HEADER_SIZE + row[k]) == s
  {
    ReadWord(f, p, row, k);
    ReadStr(f, HEADER_SIZE, t, StrRef(row[k], row[k + 1]), s);
  }

  lemma {:induction false} EmitBack(f: Bytes, t: Bytes, p: nat, row: seq<Word>, k: nat, x: Meta)
    requires Holds(f, HEADER_SIZE, t) && Holds(f, p, EncAll(row)) && k + 3 < |row|
    requires EmitOk(t, StrRef(row[k], row[k + 1]), StrRef(row[k + 2], row[k + 3]), x)
    ensures WordAt(f, p + 4 * k + 4, row[k + 1]) && (row[k + 1] == 0 <==> x.key == [])
    ensures WordAt(f, p + 4 * k, row[k]) && WordAt(f, p + 4 * k + 8, row[k + 2])
    ensures x.key != [] ==> CStr(f, HEADER_SIZE + row[k]) == x.key && CStr(f, HEADER_SIZE + row[k + 2]) == x.value
  {
    ReadWord(f, p, row, k);
    ReadWord(f, p, row, k + 1);
    ReadWord(f, p, row, k + 2);
    if x.key != [] {
      ReadStr(f, HEADER_SIZE, t, StrRef(row[k], row[k + 1]), x.key);
      ReadStr(f, HEADER_SIZE, t, StrRef(row[k + 2], row[k + 3]), x.value);
    }
  }

  /** What the reads of a node row give, in terms of the row's words. */
  lemma {:induction false} NodeRowBack(f: Bytes, t: Bytes, p: nat, row: seq<Word>, x: Meta)
    requires Holds(f, HEADER_SIZE, t) && Holds(f, p, EncAll(row)) && NodeRowOk(t, row, x) && x.parent == []
    ensures p + NODE_META_SIZE <= |f| && SameRow(NodeMetaRead(f, HEADER_SIZE, p), x)
  {
    RefBack(f, t, p, row, 0, p, x.id);
    EmitBack(f, t, p, row, 2, x);
    ReadWord(f, p, row, 6);
    NodeReadIs(f, p, row, x);
  }

  lemma {:induction false} NodeReadIs(f: Bytes, p: nat, row: seq<Word>, x: Meta)
    requires |row| == 7 && x.parent == [] && (row[6] != 0 <==> x.hasChildren) && (row[3] == 0 <==> x.key == [])
    requires WordAt(f, p, row[0]) && WordAt(f, p + 8, row[2]) && WordAt(f, p + 12, row[3]) && WordAt(f, p + 16, row[4]) && WordAt(f, p + 24, row[6])
    requires CStr(f, HEADER_SIZE + row[0]) == x.id
    requires x.key != [] ==> CStr(f, HEADER_SIZE + row[2]) == x.key && CStr(f, HEADER_SIZE + row[4]) == x.value
    ensures p + NODE_META_SIZE <= |f| && SameRow(NodeMetaRead(f, HEADER_SIZE, p), x)
  {
  }

  lemma {:induction false} ChildRowBack(f: Bytes, t: Bytes, p: nat, row: seq<Word>, x: Meta)
    requires Holds(f, HEADER_SIZE, t) && Holds(f, p, EncAll(row)) && ChildRowOk(t, row, x) && !x.hasChildren
    ensures p + CHILD_META_SIZE <= |f| && SameRow(ChildMetaRead(f, HEADER_SIZE, p), x)
  {
    RefBack(f, t, p, row, 0, p, x.parent);
    RefBack(f, t, p, row, 2, p + 8, x.id);
    EmitBack(f, t, p, row, 4, x);
    ReadWord(f, p, row, 7);
    ChildReadIs(f, p, row, x);
  }

  lemma {:induction false} ChildReadIs(f: Bytes, p: nat, row: seq<Word>, x: Meta)
    requires |row| == 8 && !x.hasChildren && (row[5] == 0 <==> x.key == [])
    requires WordAt(f, p, row[0]) && WordAt(f, p + 8, row[2]) && WordAt(f, p + 16, row[4]) && WordAt(f, p + 20, row[5])
    requires WordAt(f, p + 24, row[6]) && WordAt(f, p + 28, row[7])
    requires CStr(f, HEADER_SIZE + row[0]) == x.parent && CStr(f, HEADER_SIZE + row[2]) == x.id
    requires x.key != [] ==> CStr(f, HEADER_SIZE + row[4]) == x.key && CStr(f, HEADER_SIZE + row[6]) == x.value
    ensures p + CHILD_META_SIZE <= |f| && SameRow(ChildMetaRead(f, HEADER_SIZE, p), x)
  {
  }

  lemma {:induction false} NodeMetaBack(f: Bytes, t: Bytes, off: nat, rows: seq<seq<Word>>, xs: seq<Meta>, i: nat)
    requires Holds(f, HEADER_SIZE, t) && Holds(f, off, Section(rows)) && Uniform(rows, 7) && NodeRowsOk(t, rows, xs) && i < |xs| && xs[i].parent == []
    ensures off + i * NODE_META_SIZE + NODE_META_SIZE <= |f| && SameRow(NodeMetaRead(f, HEADER_SIZE, off + i * NODE_META_SIZE), xs[i])
  {
    EntryAt(f, off, rows, 7, i);
    StartIs(i, 7);
    assert NodeRowOk(t, rows[i], xs[i]);
    NodeRowBack(f, t, off + 4 * Start(i, 7), rows[i], xs[i]);
  }

  lemma {:induction false} ChildMetaBack(f: Bytes, t: Bytes, off: nat, rows: seq<seq<Word>>, xs: seq<Meta>, i: nat)
    requires Holds(f, HEADER_SIZE, t) && Holds(f, off, Section(rows)) && Uniform(rows, 8) && ChildRowsOk(t, rows, xs) && i < |xs| && !xs[i].hasChildren
    ensures off + i * CHILD_META_SIZE + CHILD_META_SIZE <= |f| && SameRow(ChildMetaRead(f, HEADER_SIZE, off + i * CHILD_META_SIZE), xs[i])
  {
    EntryAt(f, off, rows, 8, i);
    StartIs(i, 8);
    assert ChildRowOk(t, rows[i], xs[i]);
    ChildRowBack(f, t, off + 4 * Start(i, 8), rows[i], xs[i]);
  }

  lemma {:induction false} NodeMetasPlain(nodes: seq<Node>, n: nat, i: nat)
    requires n <= |nodes| && i < |NodeMetas(nodes, n)|
    ensures NodeMetas(nodes, n)[i].parent == []
  {
    if i < |NodeMetas(nodes, n - 1)| {
      NodeMetasPlain(nodes, n - 1, i);
    }
  }

  lemma {:induction false} KidMetasPlain(parent: CString, kids: seq<Child>, n: nat, i: nat)
    requires n <= |kids| && i < |KidMetas(parent, kids, n)|
    ensures !KidMetas(parent, kids, n)[i].hasChildren && KidMetas(parent, kids, n)[i].parent == parent
  {
    if i < |KidMetas(parent, kids, n - 1)| {
      KidMetasPlain(parent, kids, n - 1, i);
    }
  }

  lemma {:induction false} ChildMetasPlain(nodes: seq<Node>, n: nat, i: nat)
    requires n <= |nodes| && i < |ChildMetas(nodes, n)|
    ensures !ChildMetas(nodes, n)[i].hasChildren
  {
    var before := ChildMetas(nodes, n - 1);
    if i < |before| {
      ChildMetasPlain(nodes, n - 1, i);
    } else {
      KidMetasPlain(nodes[n - 1].id, nodes[n - 1].children, |nodes[n - 1].children|, i - |before|);
    }
  }

  /** The tables of the opened file say what the manifest says. */
  lemma {:induction false} TablesSay(f: Bytes, g: Image, m: Manifest, embed: Embed, dim: Word, r: Runtime)
    requires Compiled(f, g, m, embed, dim) && |f| >= HEADER_SIZE && RuntimeIs(f, dim, r)
    ensures TablesInside(f, r)
    ensures SameRows(NodeTable(f, r), NodeMetas(m.nodes, |m.nodes|)) && SameRows(ChildTable(f, r), ChildMetas(m.nodes, |m.nodes|))
  {
    CompiledTiles(f, g, m, embed, dim);
    RowCounts(g, m, embed, dim);
    SectionsInPlace(g, m, dim);
    assert TablesInside(f, r);
    NodeTableSays(f, g, m, r);
    ChildTableSays(f, g, m, r);
  }

  lemma {:induction false} NodeTableSays(f: Bytes, g: Image, m: Manifest, r: Runtime)
    requires Holds(f, HEADER_SIZE, g.strtab) && Holds(f, NodeMetaOff(g), Section(g.nodeMeta)) && Uniform(g.nodeMeta, 7)
    requires NodeRowsOk(g.strtab, g.nodeMeta, NodeMetas(m.nodes, |m.nodes|)) && TablesInside(f, r)
    requires r.strtab == HEADER_SIZE && r.nodeMetas == |g.nodeMeta| && (r.nodeMetas > 0 ==> r.nodeMeta == NodeMetaOff(g))
    ensures SameRows(NodeTable(f, r), NodeMetas(m.nodes, |m.nodes|))
  {
    var xs := NodeMetas(m.nodes, |m.nodes|);
    forall i | 0 <= i < |xs|
      ensures SameRow(NodeTable(f, r)[i], xs[i])
    {
      NodeMetasPlain(m.nodes, |m.nodes|, i);
      NodeTableRow(f, g.strtab, g.nodeMeta, xs, r, i);
    }
  }

  lemma {:induction false} NodeTableRow(f: Bytes, t: Bytes, rows: seq<seq<Word>>, xs: seq<Meta>, r: Runtime, i: nat)
    requires Holds(f, HEADER_SIZE, t) && Holds(f, r.nodeMeta, Section(rows)) && Uniform(rows, 7) && NodeRowsOk(t, rows, xs) && i < |xs| && xs[i].parent == []
    requires TablesInside(f, r) && r.strtab == HEADER_SIZE && r.nodeMetas == |rows|
    ensures SameRow(NodeTable(f, r)[i], xs[i])
  {
    NodeMetaBack(f, t, r.nodeMeta, rows, xs, i);
  }

  lemma {:induction false} ChildTableSays(f: Bytes, g: Image, m: Manifest, r: Runtime)
    requires Holds(f, HEADER_SIZE, g.strtab) && Holds(f, ChildMetaOff(g), Section(g.childMeta)) && Uniform(g.childMeta, 8)
    requires ChildRowsOk(g.strtab, g.childMeta, ChildMetas(m.nodes, |m.nodes|)) && TablesInside(f, r)
    requires r.strtab == HEADER_SIZE && r.childMetas == |g.childMeta| && (r.childMetas > 0 ==> r.childMeta == ChildMetaOff(g))
    ensures SameRows(ChildTable(f, r), ChildMetas(m.nodes, |m.nodes|))
  {
    var xs := ChildMetas(m.nodes, |m.nodes|);
    forall i | 0 <= i < |xs|
      ensures SameRow(ChildTable(f, r)[i], xs[i])
    {
      ChildMetasPlain(m.nodes, |m.nodes|, i);
      ChildTableRow(f, g.strtab, g.childMeta, xs, r, i);
    }
  }

  lemma {:induction false} ChildTableRow(f: Bytes, t: Bytes, rows: seq<seq<Word>>, xs: seq<Meta>, r: Runtime, i: nat)
    requires Holds(f, HEADER_SIZE, t) && Holds(f, r.childMeta, Section(rows)) && Uniform(rows, 8) && ChildRowsOk(t, rows, xs) && i < |xs| && !xs[i].hasChildren
    requires TablesInside(f, r) && r.strtab == HEADER_SIZE && r.childMetas == |rows|
    ensures SameRow(ChildTable(f, r)[i], xs[i])
  {
    ChildMetaBack(f, t, r.childMeta, rows, xs, i);
  }

  // ---------- what the manifest promises ----------

  /** The emits with a key; the value is the text that matched where the manifest says "$raw". */
  function KeyedEmits(emits: seq<Emit>, span: CString, n: nat): seq<Emit>
    requires n <= |emits|
  {
    if n == 0 then []
    else
      var e := emits[n - 1];
      KeyedEmits(emits, span, n - 1) + if e.key == [] then [] else [Emit(e.key, if e.value == [36, 114, 97, 119] then span else e.value)]
  }

  function NodeEmits(nodes: seq<Node>, id: CString, span: CString, n: nat): seq<Emit>
    requires n <= |nodes|
  {
    if n == 0 then []
    else NodeEmits(nodes, id, span, n - 1) + if nodes[n - 1].id == id then KeyedEmits(nodes[n - 1].emits, span, |nodes[n - 1].emits|) else []
  }

  function KidEmits(kids: seq<Child>, id: CString, span: CString, n: nat): seq<Emit>
    requires n <= |kids|
  {
    if n == 0 then []
    else KidEmits(kids, id, span, n - 1) + if kids[n - 1].id == id then KeyedEmits(kids[n - 1].emits, span, |kids[n - 1].emits|) else []
  }

  /** Emits of the children called `id` of the nodes called `parent`. */
  function EmitsOfChild(nodes: seq<Node>, parent: CString, id: CString, span: CString, n: nat): seq<Emit>
    requires n <= |nodes|
  {
    if n == 0 then []
    else EmitsOfChild(nodes, parent, id, span, n - 1) +
         if nodes[n - 1].id == parent then KidEmits(nodes[n - 1].children, id, span, |nodes[n - 1].children|) else []
  }

  lemma {:induction false} EmitsJoin(xs: seq<Meta>, ys: seq<Meta>, parent: CString, id: CString, span: CString, k: nat)
    requires k <= |ys|
    ensures EmitsIn(xs + ys, parent, id, span, |xs| + k) == EmitsIn(xs, parent, id, span, |xs|) + EmitsIn(ys, parent, id, span, k)
  {
    if k == 0 {
      EmitsPrefix(xs, ys, parent, id, span, |xs|);
    } else {
      EmitsJoin(xs, ys, parent, id, span, k - 1);
    }
  }

  lemma {:induction false} EmitsPrefix(xs: seq<Meta>, ys: seq<Meta>, parent: CString, id: CString, span: CString, n: nat)
    requires n <= |xs|
    ensures EmitsIn(xs + ys, parent, id, span, n) == EmitsIn(xs, parent, id, span, n)
  {
    if n > 0 {
      EmitsPrefix(xs, ys, parent, id, span, n - 1);
    }
  }

  lemma {:induction false} MetasEmits(p: CString, i: CString, emits: seq<Emit>, b: bool, parent: CString, id: CString, span: CString, n: nat)
    requires n <= |emits| && emits != []
    ensures EmitsIn(Metas(p, i, emits, b), parent, id, span, n) == if p == parent && i == id then KeyedEmits(emits, span, n) else []
  {
    if n > 0 {
      MetasEmits(p, i, emits, b, parent, id, span, n - 1);
    }
  }

  lemma {:induction false} AllMetasEmits(p: CString, i: CString, emits: seq<Emit>, b: bool, parent: CString, id: CString, span: CString)
    ensures AllEmits(Metas(p, i, emits, b), parent, id, span) == if p == parent && i == id then KeyedEmits(emits, span, |emits|) else []
  {
    if emits == [] {
      assert EmitsIn(Metas(p, i, emits, b), parent, id, span, 0) == [];
    } else {
      MetasEmits(p, i, emits, b, parent, id, span, |emits|);
    }
  }

  function AllEmits(xs: seq<Meta>, parent: CString, id: CString, span: CString): seq<Emit> {
    EmitsIn(xs, parent, id, span, |xs|)
  }

  lemma {:induction false} AllJoin(xs: seq<Meta>, ys: seq<Meta>, parent: CString, id: CString, span: CString, b: seq<Emit>)
    requires AllEmits(ys, parent, id, span) == b
    ensures AllEmits(xs + ys, parent, id, span) == AllEmits(xs, parent, id, span) + b
  {
    EmitsJoin(xs, ys, parent, id, span, |ys|);
  }

  lemma {:induction false} NodeMetasEmits(nodes: seq<Node>, id: CString, span: CString, n: nat)
    requires n <= |nodes|
    ensures AllEmits(NodeMetas(nodes, n), [], id, span) == NodeEmits(nodes, id, span, n)
  {
    if n > 0 {
      NodeMetasEmits(nodes, id, span, n - 1);
      var x := nodes[n - 1];
      MetasStep(NodeMetas(nodes, n - 1), NodeEmits(nodes, id, span, n - 1), [], x.id, x.emits, |x.children| > 0, id, span);
    }
  }

  lemma {:induction false} KidMetasEmits(parent: CString, kids: seq<Child>, id: CString, span: CString, n: nat)
    requires n <= |kids|
    ensures AllEmits(KidMetas(parent, kids, n), parent, id, span) == KidEmits(kids, id, span, n)
  {
    if n > 0 {
      KidMetasEmits(parent, kids, id, span, n - 1);
      MetasStep(KidMetas(parent, kids, n - 1), KidEmits(kids, id, span, n - 1), parent, kids[n - 1].id, kids[n - 1].emits, false, id, span);
    }
  }

  /** The rows of one more node or child. */
  lemma {:induction false} MetasStep(before: seq<Meta>, emits: seq<Emit>, parent: CString, x: CString, more: seq<Emit>, b: bool, id: CString, span: CString)
    requires AllEmits(before, parent, id, span) == emits
    ensures AllEmits(before + Metas(parent, x, more, b), parent, id, span) == emits + if x == id then KeyedEmits(more, span, |more|) else []
  {
    AllMetasEmits(parent, x, more, b, parent, id, span);
    AllJoin(before, Metas(parent, x, more, b), parent, id, span, if x == id then KeyedEmits(more, span, |more|) else []);
  }

  lemma {:induction false} NoneWanted(xs: seq<Meta>, parent: CString, id: CString, span: CString, n: nat)
    requires n <= |xs| && forall i :: 0 <= i < |xs| ==> xs[i].parent != parent
    ensures EmitsIn(xs, parent, id, span, n) == []
  {
    if n > 0 {
      NoneWanted(xs, parent, id, span, n - 1);
    }
  }

  lemma {:induction false} OtherKidsEmits(p: CString, kids: seq<Child>, parent: CString, id: CString, span: CString)
    requires p != parent
    ensures AllEmits(KidMetas(p, kids, |kids|), parent, id, span) == []
  {
    var xs := KidMetas(p, kids, |kids|);
    forall i | 0 <= i < |xs|
      ensures xs[i].parent != parent
    {
      KidMetasPlain(p, kids, |kids|, i);
    }
    NoneWanted(xs, parent, id, span, |xs|);
  }

  lemma {:induction false} NodeKidsEmits(x: Node, parent: CString, id: CString, span: CString)
    ensures AllEmits(KidMetas(x.id, x.children, |x.children|), parent, id, span) ==
            if x.id == parent then KidEmits(x.children, id, span, |x.children|) else []
  {
    if x.id == parent {
      KidMetasEmits(parent, x.children, id, span, |x.children|);
    } else {
      OtherKidsEmits(x.id, x.children, parent, id, span);
    }
  }

  lemma {:induction false} ChildMetasEmits(nodes: seq<Node>, parent: CString, id: CString, span: CString, n: nat)
    requires n <= |nodes|
    ensures AllEmits(ChildMetas(nodes, n), parent, id, span) == EmitsOfChild(nodes, parent, id, span, n)
  {
    if n > 0 {
      ChildMetasEmits(nodes, parent, id, span, n - 1);
      ChildMetasStep(ChildMetas(nodes, n - 1), EmitsOfChild(nodes, parent, id, span, n - 1), nodes[n - 1], parent, id, span);
    }
  }

  lemma {:induction false} ChildMetasStep(before: seq<Meta>, emits: seq<Emit>, x: Node, parent: CString, id: CString, span: CString)
    requires AllEmits(before, parent, id, span) == emits
    ensures AllEmits(before + KidMetas(x.id, x.children, |x.children|), parent, id, span) ==
            emits + if x.id == parent then KidEmits(x.children, id, span, |x.children|) else []
  {
    NodeKidsEmits(x, parent, id, span);
    AllJoin(before, KidMetas(x.id, x.children, |x.children|), parent, id, span,
            if x.id == parent then KidEmits(x.children, id, span, |x.children|) else []);
  }

  /** Emits looked up in the opened file by node id, and by parent and child id, are the
      manifest's, in order. */
  lemma {:induction false} EmitsSurvive(f: Bytes, g: Image, m: Manifest, embed: Embed, dim: Word, r: Runtime, parent: CString, id: CString, span: CString)
    requires Compiled(f, g, m, embed, dim) && |f| >= HEADER_SIZE && RuntimeIs(f, dim, r)
    ensures TablesInside(f, r)
    ensures EmitsIn(NodeTable(f, r), [], id, span, r.nodeMetas) == NodeEmits(m.nodes, id, span, |m.nodes|)
    ensures EmitsIn(ChildTable(f, r), parent, id, span, r.childMetas) == EmitsOfChild(m.nodes, parent, id, span, |m.nodes|)
  {
    TablesSay(f, g, m, embed, dim, r);
    SameEmits(NodeTable(f, r), NodeMetas(m.nodes, |m.nodes|), [], id, span, r.nodeMetas);
    SameEmits(ChildTable(f, r), ChildMetas(m.nodes, |m.nodes|), parent, id, span, r.childMetas);
    NodeMetasEmits(m.nodes, id, span, |m.nodes|);
    ChildMetasEmits(m.nodes, parent, id, span, |m.nodes|);
  }

  // ---------- children ----------

  ghost predicate MarkedParent(xs: seq<Meta>, id: CString) {
    exists i :: 0 <= i < |xs| && xs[i].id == id && xs[i].hasChildren
  }

  ghost predicate IsParent(nodes: seq<Node>, n: nat, id: CString)
    requires n <= |nodes|
  {
    exists k :: 0 <= k < n && nodes[k].id == id && |nodes[k].children| > 0
  }

  lemma MarkedJoin(xs: seq<Meta>, ys: seq<Meta>, id: CString)
    ensures MarkedParent(xs + ys, id) <==> MarkedParent(xs, id) || MarkedParent(ys, id)
  {
    if MarkedParent(xs, id) {
      var i :| 0 <= i < |xs| && xs[i].id == id && xs[i].hasChildren;
      assert (xs + ys)[i] == xs[i];
    }
    if MarkedParent(ys, id) {
      var i :| 0 <= i < |ys| && ys[i].id == id && ys[i].hasChildren;
      assert (xs + ys)[|xs| + i] == ys[i];
    }
  }

  lemma MetasMarked(x: Node, id: CString)
    ensures MarkedParent(Metas([], x.id, x.emits, |x.children| > 0), id) <==> x.id == id && |x.children| > 0
  {
    var xs := Metas([], x.id, x.emits, |x.children| > 0);
    assert xs[0].id == x.id && xs[0].hasChildren == (|x.children| > 0);
  }

  lemma {:induction false} ParentsMarked(nodes: seq<Node>, n: nat, id: CString)
    requires n <= |nodes|
    ensures MarkedParent(NodeMetas(nodes, n), id) <==> IsParent(nodes, n, id)
  {
    if n > 0 {
      ParentsMarked(nodes, n - 1, id);
      MetasMarked(nodes[n - 1], id);
      MarkedJoin(NodeMetas(nodes, n - 1), Metas([], nodes[n - 1].id, nodes[n - 1].emits, |nodes[n - 1].children| > 0), id);
      assert IsParent(nodes, n, id) <==> IsParent(nodes, n - 1, id) || (nodes[n - 1].id == id && |nodes[n - 1].children| > 0);
    }
  }

  /** A node has children in the opened file if and only if a node of that id has some. */
  lemma {:induction false} ParentsSurvive(f: Bytes, g: Image, m: Manifest, embed: Embed, dim: Word, r: Runtime, id: CString)
    requires Compiled(f, g, m, embed, dim) && |f| >= HEADER_SIZE && RuntimeIs(f, dim, r)
    ensures TablesInside(f, r) && (MarkedParent(NodeTable(f, r), id) <==> IsParent(m.nodes, |m.nodes|, id))
  {
    TablesSay(f, g, m, embed, dim, r);
    ParentsMarked(m.nodes, |m.nodes|, id);
    SameMarks(NodeTable(f, r), NodeMetas(m.nodes, |m.nodes|), id);
  }

  lemma SameMarks(xs: seq<Meta>, ys: seq<Meta>, id: CString)
    requires SameRows(xs, ys)
    ensures MarkedParent(xs, id) <==> MarkedParent(ys, id)
  {
    if MarkedParent(xs, id) {
      var i :| 0 <= i < |xs| && xs[i].id == id && xs[i].hasChildren;
      assert SameRow(xs[i], ys[i]);
    }
    if MarkedParent(ys, id) {
      var i :| 0 <= i < |ys| && ys[i].id == id && ys[i].hasChildren;
      assert SameRow(xs[i], ys[i]);
    }
  }

  // ---------- compile, open, look up ----------

  /** Compiles a schema, opens the file and asks for the emits of one node: below 4 GiB the answers are
      the manifest's, and opening fails exactly for a described child without an id. */
  method Reopened(m: Manifest, embed: Embed, dim: Word, id: CString, span: CString)
    returns (f: Bytes, ghost g: Image, o: Option<Runtime>, emits: seq<Emit>)
    requires Valid(m) && dim > 0 && forall s :: |embed(s)| == dim
    ensures f == File(g, m, dim) && (|g.strtab| < LIMIT ==> Says(g, m, embed))
    ensures |f| < LIMIT ==> (o.Some? <==> ChildrenNamed(m.nodes))
    ensures |f| < LIMIT && o.Some? ==> Restored(f, m, embed, o.value) && emits == NodeEmits(m.nodes, id, span, |m.nodes|)
  {
    var c := new Compiler(embed);
    f, g := c.Compile(m, dim);
    o, emits := None, [];
    if |f| >= LIMIT {
      return;
    }
    assert Compiled(f, g, m, embed, dim) by {
      SectionsInPlace(g, m, dim);
    }
    CompiledOpensIff(f, g, m, embed, dim);
    o := Open(f, dim);
    if o.Some? {
      emits := LookUp(f, g, m, embed, dim, o.value, id, span);
    }
  }

  method LookUp(f: Bytes, ghost g: Image, ghost m: Manifest, ghost embed: Embed, ghost dim: Word, r: Runtime, id: CString, span: CString)
    returns (emits: seq<Emit>)
    requires Compiled(f, g, m, embed, dim) && |f| >= HEADER_SIZE && RuntimeIs(f, dim, r)
    ensures Restored(f, m, embed, r) && emits == NodeEmits(m.nodes, id, span, |m.nodes|)
  {
    EmitsSurvive(f, g, m, embed, dim, r, [], id, span);
    HeaderSays(f, g, m, embed, dim, r);
    IndexesSay(f, g, m, embed, dim, r);
    emits := MatchEmits(f, r, id, span);
  }

  /** The opened schema has the manifest's names, threshold, window sizes and descriptions. */
  ghost predicate Restored(f: Bytes, m: Manifest, embed: Embed, r: Runtime) {
    && r.threshold == m.threshold && r.minNgram == m.minNgram && r.maxNgram == m.maxNgram
    && HeaderNames(f, 5, m.id) && HeaderNames(f, 7, m.vendor) && HeaderNames(f, 9, m.version)
    && IndexSays(r.nodeIndex, embed, NodeDescs(m.nodes, |m.nodes|))
    && IndexSays(r.childIndex, embed, ChildDescs(m.nodes, |m.nodes|))
  }
}
