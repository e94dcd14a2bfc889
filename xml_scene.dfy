/**
 * The XML adapter's rules, as functions over a loaded scene document: the
 * space-separated number lists and their grouping into vectors, the vertex
 * chunk of a model with its count checks and axis flips, the index list, the
 * diffuse texture choice, and the collision-model cursor of the model loop.
 * `XmlExport` runs the same steps on the adapter's fields and is proved to
 * agree.
 */
module XmlScene {
  import opened Wrappers
  import opened CText
  import opened StuText
  import opened ModelData
  import opened SceneExport

  // ---------------------------------------------------------------------------
  // The loaded document

  /**
   * A `material` element of a model: whether its name is "diffuse", the
   * `index` attribute of its `texture` element when that attribute is an
   * integer, and the text of that element.
   */
  datatype XmlMaterial = XmlMaterial(isDiffuse: bool, index: Option<int>, uvText: CStr)

  /** A `model` element: its name, its collision flag, the texts of its vertex, normal and index lists, and its materials. */
  datatype XmlModel = XmlModel(
    name: CStr, isCollision: bool,
    verticesText: CStr, normalsText: CStr, indicesText: CStr,
    materials: seq<XmlMaterial>)

  /**
   * The `scene` element: the `count` of its `textures` element (0 without
   * one), the `fileName` of each `texture`, the `count` of its `models`
   * element, and the `model` elements in document order.
   */
  datatype XmlDoc = XmlDoc(textureCount: int, textureFiles: seq<CStr>, modelCount: int, models: seq<XmlModel>)

  // ---------------------------------------------------------------------------
  // Number lists

  /** The end of a token whose scan starts at `k`: the next space at or after `k`, or the end of the text. */
  function TokenEnd(t: CStr, k: nat): (e: nat)
    requires k <= |t|
    ensures k <= e <= |t|
    ensures e < |t| ==> t[e] == ' '
    ensures forall i :: k <= i < e ==> t[i] != ' '
    decreases |t| - k
  {
    if k == |t| || t[k] == ' ' then k else TokenEnd(t, k + 1)
  }

  /**
   * The tokens read from position `j` on: each starts at its first character,
   * whatever it is, and runs to the next space after it; the next token
   * starts one past that space.
   */
  function TokensFrom(t: CStr, j: nat): seq<CStr>
    decreases |t| - j
  {
    if j >= |t| then []
    else
      var k := TokenEnd(t, j + 1);
      [t[j..k]] + TokensFrom(t, k + 1)
  }

  /** The tokens of a text node, read up to its terminating NUL. */
  function Tokens(s: CStr): seq<CStr>
  {
    TokensFrom(CView(s), 0)
  }

  /** The scan is at `j` with `toks` read: the tokens of the text are `toks` followed by the tokens from `j` on. */
  predicate ReadUpTo(all: seq<CStr>, t: CStr, toks: seq<CStr>, j: nat)
  {
    all == toks + TokensFrom(t, j)
  }

  /** Every token fits the 20-character buffer it is copied into with its NUL. */
  predicate AllShort(toks: seq<CStr>)
  {
    forall i :: 0 <= i < |toks| ==> |toks[i]| < 20
  }

  predicate TokensShort(s: CStr)
  {
    AllShort(Tokens(s))
  }

  /** `atof` (narrowed to `float`) of each token, in order. */
  function Values(toks: seq<CStr>, atof: CStr -> real): (r: seq<real>)
    ensures |r| == |toks|
  {
    if toks == [] then [] else Values(toks[..|toks| - 1], atof) + [atof(toks[|toks| - 1])]
  }

  /** Three numbers per vector, or two for texture coordinates. */
  function Stride(is2: bool): nat
  {
    if is2 then 2 else 3
  }

  /** How many numbers of an unfinished group `n` numbers leave pending. */
  function Phase(n: nat, is2: bool): (p: nat)
    ensures p < Stride(is2) && p <= n
  {
    if is2 then n % 2 else n % 3
  }

  /** One more number: the pending count grows by one, or restarts at 0 when the group is complete. */
  lemma PhaseNext(n: nat, is2: bool)
    ensures Phase(n + 1, is2) == if Phase(n, is2) + 1 == Stride(is2) then 0 else Phase(n, is2) + 1
  {
  }

  /** The vector a complete group at the end of `vals` makes: z is 0 for a two-element group. */
  function LastGroup(vals: seq<real>, is2: bool): Vec3
    requires |vals| >= Stride(is2)
  {
    var n := |vals|;
    if is2 then Vec3(vals[n - 2], vals[n - 1], 0.0) else Vec3(vals[n - 3], vals[n - 2], vals[n - 1])
  }

  /** The vectors pushed while the numbers are read in order: one whenever a group completes. */
  function Group(vals: seq<real>, is2: bool): seq<Vec3>
  {
    if vals == [] then []
    else Group(vals[..|vals| - 1], is2) + (if Phase(|vals|, is2) == 0 then [LastGroup(vals, is2)] else [])
  }

  /** One more token: one more number. */
  lemma ValuesSnoc(toks: seq<CStr>, tok: CStr, atof: CStr -> real)
    ensures Values(toks + [tok], atof) == Values(toks, atof) + [atof(tok)]
  {
    assert (toks + [tok])[..|toks|] == toks;
  }

  /**
   * One more number: the vectors pushed so far (after `acc`) grow by the
   * completed group, if the number completes one.
   */
  lemma GroupSnoc(acc: seq<Vec3>, out: seq<Vec3>, out': seq<Vec3>, vals: seq<real>, x: real, is2: bool)
    requires out == acc + Group(vals, is2)
    requires out' == out + (if Phase(|vals + [x]|, is2) == 0 then [LastGroup(vals + [x], is2)] else [])
    ensures out' == acc + Group(vals + [x], is2)
  {
    assert (vals + [x])[..|vals|] == vals;
    AppendAssoc(acc, Group(vals, is2), if Phase(|vals + [x]|, is2) == 0 then [LastGroup(vals + [x], is2)] else []);
  }

  /**
   * Reading the token at `j`, which ends at `k`: when `all` is the tokens
   * read so far followed by those from `j` on, it is the next token of `all`,
   * and the tokens read so far grow by it.
   */
  lemma ReadToken(t: CStr, all: seq<CStr>, toks: seq<CStr>, j: nat, k: nat)
    requires j < |t| && k == TokenEnd(t, j + 1)
    requires ReadUpTo(all, t, toks, j)
    ensures ReadUpTo(all, t, toks + [t[j..k]], k + 1)
    ensures |toks| < |all| && all[|toks|] == t[j..k]
  {
    TokensFromStep(t, j, k);
    AppendAssoc(toks, [t[j..k]], TokensFrom(t, k + 1));
  }

  /** The token at `j`, which ends at `k`, and the tokens after it. */
  lemma TokensFromStep(t: CStr, j: nat, k: nat)
    requires j < |t| && k == TokenEnd(t, j + 1)
    ensures TokensFrom(t, j) == [t[j..k]] + TokensFrom(t, k + 1)
  {
  }

  /**
   * The numbers of the group under way are the last `|pending|` numbers read.
   * One more number completes the group exactly when the count of numbers
   * reaches a multiple of the stride, and the completed group is the vector
   * of the numbers pending.
   */
  lemma GroupPush(vals: seq<real>, x: real, is2: bool, pending: seq<real>)
    requires |pending| == Phase(|vals|, is2) && pending == vals[|vals| - |pending|..]
    ensures Phase(|vals + [x]|, is2) == 0 <==> |pending| + 1 == Stride(is2)
    ensures |pending| + 1 == Stride(is2) ==>
      LastGroup(vals + [x], is2) == Vec3(pending[0], if is2 then x else pending[1], if is2 then 0.0 else x)
    ensures |pending| + 1 < Stride(is2) ==>
      |pending| + 1 == Phase(|vals + [x]|, is2) && pending + [x] == (vals + [x])[|vals + [x]| - |pending| - 1..]
  {
    PhaseNext(|vals|, is2);
  }

  /** `ParseVectorString`: the vectors of a text node. */
  function VectorsOf(s: CStr, atof: CStr -> real, is2: bool): seq<Vec3>
  {
    Group(Values(Tokens(s), atof), is2)
  }

  /** `(unsigned short)atoi(text)` of each token, in order: the value modulo 2^16. */
  function ShortsOf(toks: seq<CStr>): (r: seq<u16>)
    ensures |r| == |toks|
  {
    if toks == [] then [] else ShortsOf(toks[..|toks| - 1]) + [Atoi(toks[|toks| - 1]) % U16_LIMIT]
  }

  /** One more token: one more index. */
  lemma ShortsSnoc(toks: seq<CStr>, tok: CStr)
    ensures ShortsOf(toks + [tok]) == ShortsOf(toks) + [Atoi(tok) % U16_LIMIT]
  {
    assert (toks + [tok])[..|toks|] == toks;
  }

  /** The index list of a text node. */
  function IndicesOf(s: CStr): seq<u16>
  {
    ShortsOf(Tokens(s))
  }

  // ---------------------------------------------------------------------------
  // The vertex chunk of a model

  /** The three axis flip flags `m_bFlipOnX`, `m_bFlipOnY`, `m_bFlipOnZ`. */
  datatype Flips = Flips(x: bool, y: bool, z: bool)

  const NO_FLIPS: Flips := Flips(false, false, false)

  /** Each component negated when the flag of its axis is set. */
  function FlipVec(p: Vec3, f: Flips): Vec3
  {
    Vec3(if f.x then -p.x else p.x, if f.y then -p.y else p.y, if f.z then -p.z else p.z)
  }

  /** The positions as written, in order. */
  function FlipAll(ps: seq<Vec3>, f: Flips): (r: seq<Vec3>)
    ensures |r| == |ps|
  {
    if ps == [] then [] else FlipAll(ps[..|ps| - 1], f) + [FlipVec(ps[|ps| - 1], f)]
  }

  /** One more vertex: its flipped position, and the box grown by it. */
  lemma FlipStep(ps: seq<Vec3>, f: Flips, k: nat)
    requires k < |ps|
    ensures FlipAll(ps[..k + 1], f) == FlipAll(ps[..k], f) + [FlipVec(ps[k], f)]
    ensures BoundsOf(FlipAll(ps[..k + 1], f)) == Grow(BoundsOf(FlipAll(ps[..k], f)), FlipVec(ps[k], f))
  {
    assert ps[..k + 1][..k] == ps[..k];
    var qs := FlipAll(ps[..k + 1], f);
    assert qs[..|qs| - 1] == FlipAll(ps[..k], f);
  }

  /**
   * The `texture` index of the diffuse materials, as `QueryIntAttribute`
   * leaves it after the material loop: it starts at -1, and each material
   * named "diffuse" whose index attribute is an integer overwrites it.
   */
  function DiffuseIndex(ms: seq<XmlMaterial>): int
  {
    if ms == [] then -1
    else
      var m := ms[|ms| - 1];
      if m.isDiffuse && m.index.Some? then m.index.value else DiffuseIndex(ms[..|ms| - 1])
  }

  /**
   * The texture coordinates `WriteVertexChunk` collects: each diffuse
   * material read while the index so far is above -1 appends the two-element
   * vectors of its text.
   */
  function DiffuseUVs(ms: seq<XmlMaterial>, atof: CStr -> real): seq<Vec3>
  {
    if ms == [] then []
    else
      var m := ms[|ms| - 1];
      DiffuseUVs(ms[..|ms| - 1], atof) + (if m.isDiffuse && DiffuseIndex(ms) > -1 then VectorsOf(m.uvText, atof, true) else [])
  }

  /** One more material: the index and the coordinates after it. */
  lemma MaterialSnoc(ms: seq<XmlMaterial>, m: XmlMaterial, atof: CStr -> real)
    ensures DiffuseIndex(ms + [m]) == if m.isDiffuse && m.index.Some? then m.index.value else DiffuseIndex(ms)
    ensures DiffuseUVs(ms + [m], atof) == DiffuseUVs(ms, atof) +
      (if m.isDiffuse && DiffuseIndex(ms + [m]) > -1 then VectorsOf(m.uvText, atof, true) else [])
  {
    assert (ms + [m])[..|ms|] == ms;
  }

  /** The diffuse materials whose text `WriteVertexChunk` parses. */
  predicate UVTextsShort(ms: seq<XmlMaterial>)
  {
    forall j :: 0 <= j < |ms| && ms[j].isDiffuse && DiffuseIndex(ms[..j + 1]) > -1 ==> TokensShort(ms[j].uvText)
  }

  /** The record of vertex `i`: flipped position and normal, and the coordinate when a diffuse index is set. */
  function XmlRecordAt(verts: seq<Vec3>, normals: seq<Vec3>, uvs: seq<Vec3>, textured: bool, f: Flips, i: nat): Vertex
    requires i < |verts| == |normals| && (textured ==> |uvs| == |verts|)
  {
    NormalsVertex(FlipVec(verts[i], f), Set(FlipVec(normals[i], f)), if textured then Set(UV(uvs[i].x, uvs[i].y)) else Kept)
  }

  /** The records of the first `k` vertices. */
  function XmlRecords(verts: seq<Vec3>, normals: seq<Vec3>, uvs: seq<Vec3>, textured: bool, f: Flips, k: nat): (r: seq<Vertex>)
    requires k <= |verts| == |normals| && (textured ==> |uvs| == |verts|)
    ensures |r| == k
  {
    if k == 0 then [] else XmlRecords(verts, normals, uvs, textured, f, k - 1) + [XmlRecordAt(verts, normals, uvs, textured, f, k - 1)]
  }

  /** What `WriteVertexChunk` does with a model: skips it on a count mismatch, throws on an empty payload, or writes the chunk pair. */
  datatype VertexOutcome = CountMismatch | EmptyPayload | Wrote(chunks: seq<Chunk>)

  /** The two count checks: vertices against normals, and against coordinates when a diffuse index is set. */
  predicate CountsAgree(nVerts: nat, nNormals: nat, nUVs: nat, textured: bool)
  {
    nVerts == nNormals && (textured ==> nVerts == nUVs)
  }

  function VertexChunksOf(name: CStr, m: XmlModel, verts: seq<Vec3>, atof: CStr -> real, f: Flips): VertexOutcome
  {
    var normals := VectorsOf(m.normalsText, atof, false);
    var textured := DiffuseIndex(m.materials) > -1;
    var uvs := DiffuseUVs(m.materials, atof);
    if !CountsAgree(|verts|, |normals|, |uvs|, textured) then CountMismatch
    else if verts == [] then EmptyPayload
    else Wrote(VertexChunks(name, XmlRecords(verts, normals, uvs, textured, f, |verts|), BoundsOf(FlipAll(verts, f))))
  }

  // ---------------------------------------------------------------------------
  // The Model chunk of a model

  const NODE_PREFIX: CStr := "XML."

  function NodeName(name: CStr, k: nat): CStr
  {
    DisplayName(NODE_PREFIX, name, k)
  }

  function MeshName(nodeName: CStr, name: CStr, k: nat): CStr
  {
    DisplayName(nodeName + ".mesh", name, k)
  }

  /** The start of a Model chunk: no children, the two names, the identity matrix, one mesh with its two names, no animation, the vertex count and the Normals tag. */
  function ModelHead(nodeName: CStr, meshName: CStr, name: CStr, nVerts: nat): seq<Field>
  {
    [U32(0), Text(nodeName), Text(name), Matrix(Identity), U32(1),
     Text(meshName), Text(name), U32(0), U32(nVerts), U32(Normals.Code())]
  }

  /** The index count, then the indices. */
  function IndexFields(ixs: seq<u16>): (r: seq<Field>)
    ensures |r| == |ixs| + 1
  {
    [U32(|ixs|)] + seq(|ixs|, i requires 0 <= i < |ixs| => U16(ixs[i]))
  }

  /** The fixed surface: ambient 0.25, diffuse and specular 1, shininess 8, alpha 1. */
  const XML_MATERIAL: Material := Material(Grey(0.25), Grey(1.0), Grey(1.0), 8.0, 1.0)

  /** After the indices: the triangle tag, two-sided 0 and the fixed surface. */
  const MODEL_TAIL: seq<Field> := [U32(Triangle.Code()), U32(0)] + MaterialFields(XML_MATERIAL)

  /** The texture the Model chunk names: the diffuse index, or 0 when there are textures and no index was read. */
  function ChosenTexture(textures: seq<CStr>, ms: seq<XmlMaterial>): int
  {
    var idx := DiffuseIndex(ms);
    if |textures| > 0 && idx == -1 then 0 else idx
  }

  /** The chosen texture is in the list whenever one is chosen; `m_Textures[i]` past the end is undefined. */
  predicate TextureChoiceValid(textures: seq<CStr>, ms: seq<XmlMaterial>)
  {
    ChosenTexture(textures, ms) < |textures|
  }

  /** The diffuse descriptor: the folder-stripped, rewritten name of the chosen texture, or the colour entry with alpha 1. */
  function XmlDiffuseSlot(textures: seq<CStr>, ms: seq<XmlMaterial>): TextureSlot
    requires TextureChoiceValid(textures, ms)
  {
    var idx := ChosenTexture(textures, ms);
    if idx > -1 then
      var file := RemoveFoldersFromPaths(textures[idx]);
      if |file| > 0 then Named(Diffuse, ReplaceUnrecognizedInternalTextureFormats(file).name) else ColorAlpha(1.0)
    else ColorAlpha(1.0)
  }

  /** The descriptors after the fixed surface: the diffuse one, then no normal map. */
  function SlotsFields(textures: seq<CStr>, ms: seq<XmlMaterial>): seq<Field>
    requires TextureChoiceValid(textures, ms)
  {
    SlotFields(XmlDiffuseSlot(textures, ms)) + SlotFields(NoTexture)
  }

  // ---------------------------------------------------------------------------
  // The adapter's state and one model

  /**
   * The fields of the adapter the export reads or changes: `m_TotalMeshCount`,
   * the model and vertex-chunk counters, `m_Entries`, the UV flip flag, the
   * three axis flip flags, the node-name counter `m_uUniqueOBJUnknownID`, the
   * function-static mesh-name counter, the solid colour, the texture list
   * `m_Textures`, and the chunks appended to the `.stu` file.
   */
  datatype XmlState = XmlState(
    totalMeshes: nat,
    models: nat,
    vertexChunks: nat,
    entries: seq<nat>,
    flipUV: bool,
    flips: Flips,
    nodeIds: nat,
    meshIds: nat,
    solid: Vec3,
    textures: seq<CStr>,
    written: seq<Chunk>)

  /** What `WriteVertexChunk` parses before its payload can throw: the vertex, normal and texture coordinate texts. */
  predicate VertexTextsShort(m: XmlModel)
  {
    TokensShort(m.verticesText) && TokensShort(m.normalsText) && UVTextsShort(m.materials)
  }

  /** What a model needs for the export to be defined: short tokens in every list it parses, and a chosen texture in the list. */
  predicate ModelValid(textures: seq<CStr>, m: XmlModel)
  {
    VertexTextsShort(m) && TokensShort(m.indicesText) && TextureChoiceValid(textures, m.materials)
  }

  /** The vertices of a model. */
  function VerticesOf(m: XmlModel, atof: CStr -> real): seq<Vec3>
  {
    VectorsOf(m.verticesText, atof, false)
  }

  /** A model whose vertex chunk throws: the counts agree and there are no vertices, so the payload is empty. */
  predicate Throws(m: XmlModel, atof: CStr -> real)
  {
    && VerticesOf(m, atof) == []
    && CountsAgree(0, |VectorsOf(m.normalsText, atof, false)|, |DiffuseUVs(m.materials, atof)|, DiffuseIndex(m.materials) > -1)
  }

  /** The Model chunk payload of a model with the given names and vertex count. */
  function ModelFields(textures: seq<CStr>, m: XmlModel, nodeName: CStr, meshName: CStr, nVerts: nat): seq<Field>
    requires TextureChoiceValid(textures, m.materials)
  {
    ModelHead(nodeName, meshName, m.name, nVerts)
    + IndexFields(IndicesOf(m.indicesText)) + MODEL_TAIL + SlotsFields(textures, m.materials)
  }

  /** The Model chunk payload of a model exported from state `st`. */
  function ModelPayload(st: XmlState, m: XmlModel, atof: CStr -> real): seq<Field>
    requires TextureChoiceValid(st.textures, m.materials)
  {
    var nodeName := NodeName(m.name, st.nodeIds);
    ModelFields(st.textures, m, nodeName, MeshName(nodeName, m.name, st.meshIds), |VerticesOf(m, atof)|)
  }

  /** The three counters a model advances before its vertex chunk is written. */
  function Counted(st: XmlState): XmlState
  {
    st.(nodeIds := st.nodeIds + 1, meshIds := st.meshIds + 1, vertexChunks := st.vertexChunks + 1)
  }

  /** The vertex chunk pair appended, or nothing on a count mismatch. */
  function Vertexed(st: XmlState, vx: VertexOutcome): XmlState
  {
    if vx.Wrote? then st.(written := st.written + vx.chunks) else st
  }

  /** A Model chunk appended under the next number. */
  function Closed(st: XmlState, data: seq<Field>): XmlState
  {
    st.(models := st.models + 1, written := st.written + [Chunk(ModelName(st.models), data)])
  }

  /** A model that does not throw: its three counters, its vertex chunks, then its Model chunk. */
  function ModelState(st: XmlState, m: XmlModel, atof: CStr -> real): XmlState
    requires TextureChoiceValid(st.textures, m.materials)
  {
    var vx := VertexChunksOf(VxName(st.vertexChunks), m, VerticesOf(m, atof), atof, st.flips);
    Closed(Vertexed(Counted(st), vx), ModelPayload(st, m, atof))
  }

  /** Every model the loop exports is valid. */
  predicate ModelsValid(textures: seq<CStr>, models: seq<XmlModel>, n: nat)
  {
    n <= |models| && forall j :: 0 <= j < n ==> ModelValid(textures, models[j])
  }

  /** The state after models `0..k-1` have been exported, none of them throwing. */
  function ModelsState(st: XmlState, models: seq<XmlModel>, atof: CStr -> real, k: nat): (r: XmlState)
    requires ModelsValid(st.textures, models, k)
    ensures r.textures == st.textures
    decreases k, 0
  {
    if k == 0 then st else AfterModel(st, models, atof, k - 1)
  }

  function AfterModel(st: XmlState, models: seq<XmlModel>, atof: CStr -> real, i: nat): (r: XmlState)
    requires ModelsValid(st.textures, models, i + 1)
    ensures r.textures == st.textures
    decreases i, 1
  {
    ModelState(ModelsState(st, models, atof, i), models[i], atof)
  }

  /** `st` is the state after models `0..c-1` have been exported from `s1`. */
  predicate AtModel(st: XmlState, s1: XmlState, models: seq<XmlModel>, atof: CStr -> real, c: nat)
    requires ModelsValid(s1.textures, models, c)
  {
    st == ModelsState(s1, models, atof, c)
  }

  /** The index of the first of models `i..n-1` that throws, or `n`. */
  function FirstThrow(models: seq<XmlModel>, atof: CStr -> real, i: nat, n: nat): (k: nat)
    requires i <= n <= |models|
    ensures i <= k <= n
    ensures forall j :: i <= j < k ==> !Throws(models[j], atof)
    ensures k < n ==> Throws(models[k], atof)
    decreases n - i
  {
    if i == n || Throws(models[i], atof) then i else FirstThrow(models, atof, i + 1, n)
  }

  /**
   * The models the loop over the first `n` reaches can be read: those before
   * the first that throws in full, and that one up to its vertex chunk. The
   * models after it are never reached.
   */
  predicate ReachedValid(textures: seq<CStr>, models: seq<XmlModel>, atof: CStr -> real, n: nat)
  {
    && n <= |models|
    && var k := FirstThrow(models, atof, 0, n);
      ModelsValid(textures, models, k) && (k < n ==> VertexTextsShort(models[k]))
  }

  /** None of models `0..c-1` throws. */
  predicate NoneThrow(models: seq<XmlModel>, atof: CStr -> real, c: nat)
    requires c <= |models|
  {
    c == 0 || (NoneThrow(models, atof, c - 1) && !Throws(models[c - 1], atof))
  }

  /** The first model that throws is `c` when none before it throws and it does (or it is `n`). */
  lemma {:induction false} FirstThrowAt(models: seq<XmlModel>, atof: CStr -> real, i: nat, c: nat, n: nat)
    requires i <= c <= n <= |models|
    requires NoneThrow(models, atof, c)
    requires c < n ==> Throws(models[c], atof)
    ensures FirstThrow(models, atof, i, n) == c
    decreases c - i
  {
    if i < c {
      NoneThrowBefore(models, atof, c, i);
      FirstThrowAt(models, atof, i + 1, c, n);
    }
  }

  /** A model before `c` does not throw. */
  lemma {:induction false} NoneThrowBefore(models: seq<XmlModel>, atof: CStr -> real, c: nat, j: nat)
    requires j < c <= |models| && NoneThrow(models, atof, c)
    ensures !Throws(models[j], atof)
    decreases c
  {
    if j < c - 1 {
      NoneThrowBefore(models, atof, c - 1, j);
    }
  }

  /**
   * A model the loop reaches, with none before it throwing, can be read up to
   * its vertex chunk, and in full when it does not throw.
   */
  lemma ReachedModel(textures: seq<CStr>, models: seq<XmlModel>, atof: CStr -> real, c: nat, n: nat)
    requires ReachedValid(textures, models, atof, n) && c < n && NoneThrow(models, atof, c)
    ensures VertexTextsShort(models[c])
    ensures !Throws(models[c], atof) ==> ModelValid(textures, models[c])
  {
    var k := FirstThrow(models, atof, 0, n);
    if k < c {
      NoneThrowBefore(models, atof, c, k);
      assert false;
    } else if c < k {
      ValidBefore(textures, models, k, c);
    }
  }

  lemma ValidBefore(textures: seq<CStr>, models: seq<XmlModel>, k: nat, c: nat)
    requires ModelsValid(textures, models, k) && c < k
    ensures ModelValid(textures, models[c])
  {
  }

  lemma ValidAfter(textures: seq<CStr>, models: seq<XmlModel>, c: nat)
    requires ModelsValid(textures, models, c) && c < |models| && ModelValid(textures, models[c])
    ensures ModelsValid(textures, models, c + 1)
  {
  }

  /** Whether the loop passes over a model instead of exporting it: a collision model when those are not loaded. */
  predicate Skipped(m: XmlModel, load: bool)
  {
    m.isCollision && !load
  }

  /** The index of the first collision model when those are not loaded, or the number of models. */
  function FirstSkip(models: seq<XmlModel>, load: bool, i: nat): (k: nat)
    requires i <= |models|
    ensures i <= k <= |models|
    ensures forall j :: i <= j < k ==> !Skipped(models[j], load)
    ensures k < |models| ==> Skipped(models[k], load)
    decreases |models| - i
  {
    if i == |models| || Skipped(models[i], load) then i else FirstSkip(models, load, i + 1)
  }

  /**
   * The number of models the loop exports: `count` iterations (none for a
   * negative count), but the cursor stops at the first skipped collision
   * model and every later iteration skips it again.
   */
  function Planned(d: XmlDoc, load: bool): nat
  {
    var c := if d.modelCount < 0 then 0 else d.modelCount;
    var s := FirstSkip(d.models, load, 0);
    if c <= s then c else s
  }

  /** The cursor never runs off the end of the model list: an iteration on a null element is undefined. */
  predicate CursorValid(d: XmlDoc, load: bool)
  {
    d.modelCount <= |d.models| || FirstSkip(d.models, load, 0) < |d.models|
  }

  /** The model the cursor is on at iteration `i` of the model loop. */
  function Cursor(d: XmlDoc, load: bool, i: nat): nat
  {
    var s := FirstSkip(d.models, load, 0);
    if i <= s then i else s
  }

  /**
   * One iteration of the model loop: the cursor is on a model; a skipped one
   * keeps it there, and any other is one of the planned models and moves it
   * one on.
   */
  lemma CursorStep(d: XmlDoc, load: bool, i: nat)
    requires CursorValid(d, load) && i < d.modelCount
    ensures Cursor(d, load, i) < |d.models|
    ensures Skipped(d.models[Cursor(d, load, i)], load) ==> Cursor(d, load, i + 1) == Cursor(d, load, i)
    ensures !Skipped(d.models[Cursor(d, load, i)], load) ==>
      Cursor(d, load, i) == i < Planned(d, load) && Cursor(d, load, i + 1) == i + 1
  {
  }

  /** After the last iteration the cursor has passed every planned model. */
  lemma CursorEnd(d: XmlDoc, load: bool, i: nat)
    requires d.modelCount <= i && (i == 0 || i == d.modelCount)
    ensures Cursor(d, load, i) == Planned(d, load)
  {
  }

  // ---------------------------------------------------------------------------
  // The whole export

  /** The texture file names of the document, as `std::string`s. */
  function LoadedTextures(d: XmlDoc): (r: seq<CStr>)
    requires d.textureCount <= |d.textureFiles|
    ensures |r| == if d.textureCount < 0 then 0 else d.textureCount
  {
    var n := if d.textureCount < 0 then 0 else d.textureCount;
    seq(n, i requires 0 <= i < n => CView(d.textureFiles[i]))
  }

  /** What the document needs for the export to be defined. */
  predicate DocValid(textures: seq<CStr>, d: XmlDoc, load: bool, atof: CStr -> real)
  {
    && d.textureCount <= |d.textureFiles| && CursorValid(d, load)
    && ReachedValid(textures + LoadedTextures(d), d.models, atof, Planned(d, load))
  }

  /** The resets `ExportToSTUFormat` performs before loading the file. */
  function Restart(st: XmlState, flipUV: bool, flips: Flips): XmlState
  {
    st.(flips := flips, models := 0, vertexChunks := 0, flipUV := flipUV, entries := [], totalMeshes := 0)
  }

  /** The model loop over the first `n` models: all of them, or up to the first that throws, which ends the program. */
  function RunModels(st: XmlState, models: seq<XmlModel>, atof: CStr -> real, n: nat): (ExportResult, XmlState)
    requires ReachedValid(st.textures, models, atof, n)
  {
    var k := FirstThrow(models, atof, 0, n);
    var s := ModelsState(st, models, atof, k);
    if k == n then (Returned(true), s) else (Terminated, Counted(s))
  }

  /**
   * `ExportToSTUFormat(path, bFlipUV, bLoadCollsionModel, bFlipOnX, bFlipOnY,
   * bFlipOnZ)`; `doc` is `None` when loading fails. The texture names are
   * appended to the list kept from earlier exports, then the model loop runs.
   */
  function Export(st: XmlState, doc: Option<XmlDoc>, flipUV: bool, load: bool, flips: Flips, atof: CStr -> real): (ExportResult, XmlState)
    requires doc.Some? ==> DocValid(st.textures, doc.value, load, atof)
  {
    var s0 := Restart(st, flipUV, flips);
    if doc.None? then (Returned(false), s0)
    else
      var d := doc.value;
      RunModels(s0.(textures := s0.textures + LoadedTextures(d)), d.models, atof, Planned(d, load))
  }

  // ---------------------------------------------------------------------------
  // The model loop as evidently intended

  /** The models of `ms` that are not passed over, in document order. */
  function KeptModels(ms: seq<XmlModel>, load: bool): (r: seq<XmlModel>)
    ensures |r| <= |ms|
  {
    if ms == [] then []
    else KeptModels(ms[..|ms| - 1], load) + (if Skipped(ms[|ms| - 1], load) then [] else [ms[|ms| - 1]])
  }

  /**
   * The models a loop that moves the cursor on after a skipped model too
   * would export: the kept ones among the first `count`.
   */
  function IntendedModels(d: XmlDoc, load: bool): seq<XmlModel>
    requires d.modelCount <= |d.models|
  {
    KeptModels(d.models[..if d.modelCount < 0 then 0 else d.modelCount], load)
  }

  /** What the document needs for the intended export to be defined. */
  predicate IntendedValid(textures: seq<CStr>, d: XmlDoc, load: bool, atof: CStr -> real)
  {
    && d.textureCount <= |d.textureFiles| && d.modelCount <= |d.models|
    && ReachedValid(textures + LoadedTextures(d), IntendedModels(d, load), atof, |IntendedModels(d, load)|)
  }

  /** `ExportToSTUFormat` with the cursor moved on after a skipped collision model. */
  function IntendedExport(st: XmlState, doc: Option<XmlDoc>, flipUV: bool, load: bool, flips: Flips, atof: CStr -> real): (ExportResult, XmlState)
    requires doc.Some? ==> IntendedValid(st.textures, doc.value, load, atof)
  {
    var s0 := Restart(st, flipUV, flips);
    if doc.None? then (Returned(false), s0)
    else
      var d := doc.value;
      var kept := IntendedModels(d, load);
      RunModels(s0.(textures := s0.textures + LoadedTextures(d)), kept, atof, |kept|)
  }
}
