/** What a schema says, and how its compiled file is laid out. */
module SchemaLayout {
  import opened SchemaBytes

  datatype Emit = Emit(key: CString, value: CString)

  datatype Child = Child(id: CString, descriptions: seq<CString>, emits: seq<Emit>)

  datatype Node = Node(id: CString, descriptions: seq<CString>, emits: seq<Emit>, children: seq<Child>)

  /** `threshold` is the bit pattern of a float. */
  datatype Manifest = Manifest(id: CString, vendor: CString, version: CString, threshold: Word, minNgram: Word, maxNgram: Word, nodes: seq<Node>)

  predicate Valid(m: Manifest) {
    && m.id != [] && m.vendor != [] && m.version != [] && |m.nodes| >= 1 && 1 <= m.minNgram <= m.maxNgram
    && forall k :: 0 <= k < |m.nodes| ==> m.nodes[k].id != [] && |m.nodes[k].descriptions| >= 1
  }

  // ---------- the lists in the file ----------

  /** A description and the id it stands for. */
  datatype Described = Described(id: CString, text: CString)

  function Descriptions(id: CString, texts: seq<CString>): (r: seq<Described>)
    ensures |r| == |texts|
  {
    seq(|texts|, i requires 0 <= i < |texts| => Described(id, texts[i]))
  }

  /** Descriptions of the first `n` nodes. */
  function NodeDescs(nodes: seq<Node>, n: nat): seq<Described>
    requires n <= |nodes|
  {
    if n == 0 then [] else NodeDescs(nodes, n - 1) + Descriptions(nodes[n - 1].id, nodes[n - 1].descriptions)
  }

  function KidDescs(kids: seq<Child>, n: nat): seq<Described>
    requires n <= |kids|
  {
    if n == 0 then [] else KidDescs(kids, n - 1) + Descriptions(kids[n - 1].id, kids[n - 1].descriptions)
  }

  function ChildDescs(nodes: seq<Node>, n: nat): seq<Described>
    requires n <= |nodes|
  {
    if n == 0 then [] else ChildDescs(nodes, n - 1) + KidDescs(nodes[n - 1].children, |nodes[n - 1].children|)
  }

  /** A row of one of the two tables of emits. */
  datatype Meta = Meta(parent: CString, id: CString, key: CString, value: CString, hasChildren: bool)

  /** One row per emit, or one row without a key. */
  function Metas(parent: CString, id: CString, emits: seq<Emit>, hasChildren: bool): (r: seq<Meta>)
    ensures |r| == if emits == [] then 1 else |emits|
  {
    if emits == [] then [Meta(parent, id, [], [], hasChildren)]
    else seq(|emits|, i requires 0 <= i < |emits| => Meta(parent, id, emits[i].key, emits[i].value, hasChildren))
  }

  function NodeMetas(nodes: seq<Node>, n: nat): seq<Meta>
    requires n <= |nodes|
  {
    if n == 0 then []
    else NodeMetas(nodes, n - 1) + Metas([], nodes[n - 1].id, nodes[n - 1].emits, |nodes[n - 1].children| > 0)
  }

  function KidMetas(parent: CString, kids: seq<Child>, n: nat): seq<Meta>
    requires n <= |kids|
  {
    if n == 0 then [] else KidMetas(parent, kids, n - 1) + Metas(parent, kids[n - 1].id, kids[n - 1].emits, false)
  }

  function ChildMetas(nodes: seq<Node>, n: nat): seq<Meta>
    requires n <= |nodes|
  {
    if n == 0 then []
    else ChildMetas(nodes, n - 1) + KidMetas(nodes[n - 1].id, nodes[n - 1].children, |nodes[n - 1].children|)
  }

  // ---------- the file ----------

  type Embed = CString -> seq<Word>

  const HEADER_SIZE: nat := 92
  const MAGIC: Word := 0x4150_494B
  const FORMAT_VERSION: Word := 1

  /** Everything after the header, with the table rows as words. */
  datatype Image = Image(strtab: Bytes, id: StrRef, vendor: StrRef, version: StrRef,
                         nodeRows: seq<seq<Word>>, childRows: seq<seq<Word>>, nodeMeta: seq<seq<Word>>, childMeta: seq<seq<Word>>)

  function Section(rows: seq<seq<Word>>): Bytes {
    EncAll(Flat(rows))
  }

  function NodeEmbOff(g: Image): nat { HEADER_SIZE + |g.strtab| }

  function ChildEmbOff(g: Image): nat { NodeEmbOff(g) + |Section(g.nodeRows)| }

  function NodeMetaOff(g: Image): nat { ChildEmbOff(g) + |Section(g.childRows)| }

  function ChildMetaOff(g: Image): nat { NodeMetaOff(g) + |Section(g.nodeMeta)| }

  function FileSize(g: Image): nat { ChildMetaOff(g) + |Section(g.childMeta)| }

  /** Sizes, offsets and counts of the sections. */
  datatype Places = Places(size: nat, strtab: nat, nodeEmb: nat, nodes: nat, childEmb: nat, kids: nat,
                           nodeMeta: nat, nodeMetas: nat, childMeta: nat, childMetas: nat)

  function PlacesOf(g: Image): Places {
    Places(FileSize(g), |g.strtab|, NodeEmbOff(g), |g.nodeRows|, ChildEmbOff(g), |g.childRows|,
           NodeMetaOff(g), |g.nodeMeta|, ChildMetaOff(g), |g.childMeta|)
  }

  function HeaderWords(p: Places, id: StrRef, vendor: StrRef, version: StrRef, m: Manifest, dim: Word): (h: seq<Word>)
    ensures |h| == 23
  {
    [MAGIC, FORMAT_VERSION, Trunc(p.size), Trunc(HEADER_SIZE), Trunc(p.strtab),
     id.off, id.len, vendor.off, vendor.len, version.off, version.len,
     m.threshold, m.minNgram, m.maxNgram, dim,
     Trunc(p.nodeEmb), Trunc(p.nodes), Trunc(p.childEmb), Trunc(p.kids),
     Trunc(p.nodeMeta), Trunc(p.nodeMetas), Trunc(p.childMeta), Trunc(p.childMetas)]
  }

  function Header(g: Image, m: Manifest, dim: Word): (h: seq<Word>)
    ensures |h| == 23
  {
    HeaderWords(PlacesOf(g), g.id, g.vendor, g.version, m, dim)
  }

  function Body(g: Image): Bytes {
    g.strtab + Section(g.nodeRows) + Section(g.childRows) + Section(g.nodeMeta) + Section(g.childMeta)
  }

  function File(g: Image, m: Manifest, dim: Word): Bytes {
    EncAll(Header(g, m, dim)) + Body(g)
  }

  // ---------- an image that says what the manifest says ----------

  /** A description's row: where its id is, then its vector. */
  ghost predicate EmbRowOk(t: Bytes, embed: Embed, row: seq<Word>, d: Described) {
    |row| >= 2 && StrAt(t, StrRef(row[0], row[1]), d.id) && row[2..] == embed(d.text)
  }

  ghost predicate EmitOk(t: Bytes, key: StrRef, value: StrRef, x: Meta) {
    key.len == |x.key| && (x.key != [] ==> StrAt(t, key, x.key) && StrAt(t, value, x.value))
  }

  ghost predicate NodeRowOk(t: Bytes, row: seq<Word>, x: Meta) {
    && |row| == 7 && StrAt(t, StrRef(row[0], row[1]), x.id)
    && EmitOk(t, StrRef(row[2], row[3]), StrRef(row[4], row[5]), x) && (row[6] != 0 <==> x.hasChildren)
  }

  ghost predicate ChildRowOk(t: Bytes, row: seq<Word>, x: Meta) {
    && |row| == 8 && StrAt(t, StrRef(row[0], row[1]), x.parent) && StrAt(t, StrRef(row[2], row[3]), x.id)
    && EmitOk(t, StrRef(row[4], row[5]), StrRef(row[6], row[7]), x)
  }

  ghost predicate EmbRowsOk(t: Bytes, embed: Embed, rows: seq<seq<Word>>, ds: seq<Described>) {
    |rows| == |ds| && forall i :: 0 <= i < |ds| ==> EmbRowOk(t, embed, rows[i], ds[i])
  }

  ghost predicate NodeRowsOk(t: Bytes, rows: seq<seq<Word>>, xs: seq<Meta>) {
    |rows| == |xs| && forall i :: 0 <= i < |xs| ==> NodeRowOk(t, rows[i], xs[i])
  }

  ghost predicate ChildRowsOk(t: Bytes, rows: seq<seq<Word>>, xs: seq<Meta>) {
    |rows| == |xs| && forall i :: 0 <= i < |xs| ==> ChildRowOk(t, rows[i], xs[i])
  }

  ghost predicate Says(g: Image, m: Manifest, embed: Embed) {
    && StrAt(g.strtab, g.id, m.id) && StrAt(g.strtab, g.vendor, m.vendor) && StrAt(g.strtab, g.version, m.version)
    && EmbRowsOk(g.strtab, embed, g.nodeRows, NodeDescs(m.nodes, |m.nodes|))
    && EmbRowsOk(g.strtab, embed, g.childRows, ChildDescs(m.nodes, |m.nodes|))
    && NodeRowsOk(g.strtab, g.nodeMeta, NodeMetas(m.nodes, |m.nodes|))
    && ChildRowsOk(g.strtab, g.childMeta, ChildMetas(m.nodes, |m.nodes|))
  }

  // ---------- the sections tile the file ----------

  lemma {:induction false} SectionSize(rows: seq<seq<Word>>, k: nat)
    requires Uniform(rows, k)
    ensures |Section(rows)| == 4 * Start(|rows|, k)
  {
    FlatSize(rows, k);
  }

  lemma {:induction false} SectionsInPlace(g: Image, m: Manifest, dim: Word)
    ensures var f := File(g, m, dim);
            && |f| == FileSize(g) && Holds(f, 0, EncAll(Header(g, m, dim)))
            && Holds(f, HEADER_SIZE, g.strtab) && Holds(f, NodeEmbOff(g), Section(g.nodeRows))
            && Holds(f, ChildEmbOff(g), Section(g.childRows)) && Holds(f, NodeMetaOff(g), Section(g.nodeMeta))
            && Holds(f, ChildMetaOff(g), Section(g.childMeta))
  {
    var h := EncAll(Header(g, m, dim));
    FivePartsInPlace(h, g.strtab, Section(g.nodeRows), Section(g.childRows), Section(g.nodeMeta), Section(g.childMeta));
    assert File(g, m, dim) == h + (g.strtab + Section(g.nodeRows) + Section(g.childRows) + Section(g.nodeMeta) + Section(g.childMeta));
  }

  lemma PartInPlace(a: Bytes, b: Bytes, c: Bytes)
    ensures Holds(a + b + c, |a|, b)
  {
  }

  lemma FivePartsInPlace(h: Bytes, a: Bytes, b: Bytes, c: Bytes, d: Bytes, e: Bytes)
    ensures var f := h + (a + b + c + d + e);
            && Holds(f, 0, h) && Holds(f, |h|, a) && Holds(f, |h + a|, b) && Holds(f, |h + a + b|, c)
            && Holds(f, |h + a + b + c|, d) && Holds(f, |h + a + b + c + d|, e)
  {
    var f := h + (a + b + c + d + e);
    assert f == h + (a + b + c + d + e);
    assert f == h + a + (b + c + d + e);
    assert f == h + a + b + (c + d + e);
    assert f == h + a + b + c + (d + e);
    assert f == h + a + b + c + d + e + [];
    PartInPlace(h, a, b + c + d + e);
    PartInPlace(h + a, b, c + d + e);
    PartInPlace(h + a + b, c, d + e);
    PartInPlace(h + a + b + c, d, e);
    PartInPlace(h + a + b + c + d, e, []);
  }
}
