/**
 * What the XML adapter's rules promise: number lists that split back into
 * their text, vectors made of consecutive groups of numbers with an
 * unfinished group dropped, one 16-bit index per token, a vertex chunk with
 * one record per vertex whose positions and normals are flipped but whose
 * texture coordinates are not, the texture a model names, and per exported
 * model a vertex chunk pair and one "Model:<n>" chunk numbered from 0 in
 * every export.
 */
module XmlProperties {
  import opened Wrappers
  import opened CText
  import opened StuText
  import opened ModelData
  import opened SceneExport
  import opened XmlScene

  // ---------------------------------------------------------------------------
  // Tokens

  /** The tokens joined by single spaces. */
  function Joined(toks: seq<CStr>): CStr
  {
    if toks == [] then []
    else if |toks| == 1 then toks[0]
    else toks[0] + " " + Joined(toks[1..])
  }

  /** Every token is non-empty and holds no space after its first character. */
  lemma {:induction false} TokensFromShape(t: CStr, j: nat)
    ensures forall i :: 0 <= i < |TokensFrom(t, j)| ==>
      |TokensFrom(t, j)[i]| > 0 && ' ' !in TokensFrom(t, j)[i][1..]
    decreases |t| - j
  {
    if j < |t| {
      var k := TokenEnd(t, j + 1);
      TokensFromShape(t, k + 1);
      assert ' ' !in t[j..k][1..] by {
        assert t[j..k][1..] == t[j + 1..k];
      }
    }
  }

  /** The tokens from `j` on, joined by single spaces, give back the text from `j` on, short of at most one trailing space. */
  lemma {:induction false} TokensFromJoin(t: CStr, j: nat)
    requires j <= |t|
    ensures Joined(TokensFrom(t, j)) == t[j..] || Joined(TokensFrom(t, j)) + " " == t[j..]
    decreases |t| - j
  {
    if j < |t| {
      var k := TokenEnd(t, j + 1);
      if k < |t| {
        TokensFromJoin(t, k + 1);
        JoinAtSpace(t, j, k);
      } else {
        TokensFromStep(t, j, k);
        JoinLast(t[j..k], TokensFrom(t, k + 1), TokensFrom(t, j));
      }
    }
  }

  /** A token ended by a space, followed by the tokens after that space. */
  lemma JoinAtSpace(t: CStr, j: nat, k: nat)
    requires j < k < |t| && k == TokenEnd(t, j + 1)
    requires Joined(TokensFrom(t, k + 1)) == t[k + 1..] || Joined(TokensFrom(t, k + 1)) + " " == t[k + 1..]
    ensures Joined(TokensFrom(t, j)) == t[j..] || Joined(TokensFrom(t, j)) + " " == t[j..]
  {
    TokensFromStep(t, j, k);
    SplitAtSpace(t, j, k);
    JoinStep(t[j..k], TokensFrom(t, k + 1), t[k + 1..], TokensFrom(t, j), t[j..]);
  }

  lemma SplitAtSpace(t: CStr, j: nat, k: nat)
    requires j <= k < |t| && t[k] == ' '
    ensures t[j..] == t[j..k] + " " + t[k + 1..]
  {
  }

  /** A token followed by the tokens of the rest of the text after a space. */
  lemma JoinStep(tok: CStr, rest: seq<CStr>, tail: CStr, toks: seq<CStr>, text: CStr)
    requires Joined(rest) == tail || Joined(rest) + " " == tail
    requires rest == [] ==> tail == []
    requires toks == [tok] + rest && text == tok + " " + tail
    ensures Joined(toks) == text || Joined(toks) + " " == text
  {
    if rest != [] {
      assert toks[1..] == rest;
      assert Joined(toks) == tok + " " + Joined(rest);
      if Joined(rest) != tail {
        assert Joined(toks) + " " == tok + " " + (Joined(rest) + " ");
      }
    } else {
      assert Joined(toks) + " " == text;
    }
  }

  /** The last token of the text, with nothing after it. */
  lemma JoinLast(tok: CStr, rest: seq<CStr>, toks: seq<CStr>)
    requires rest == [] && toks == [tok] + rest
    ensures Joined(toks) == tok
  {
    assert toks == [tok];
  }

  /**
   * The tokens of a text node are non-empty, hold no space after their first
   * character, and joined by single spaces give back the text up to its NUL,
   * short of at most one trailing space.
   */
  lemma TokensOfText(s: CStr)
    ensures forall i :: 0 <= i < |Tokens(s)| ==> |Tokens(s)[i]| > 0 && ' ' !in Tokens(s)[i][1..]
    ensures Joined(Tokens(s)) == CView(s) || Joined(Tokens(s)) + " " == CView(s)
  {
    TokensFromShape(CView(s), 0);
    TokensFromJoin(CView(s), 0);
  }

  // ---------------------------------------------------------------------------
  // Numbers, vectors and indices

  /** Number `i` is `atof` of token `i`. */
  lemma {:induction false} ValuesAt(toks: seq<CStr>, atof: CStr -> real)
    ensures forall i :: 0 <= i < |toks| ==> Values(toks, atof)[i] == atof(toks[i])
  {
    if toks != [] {
      ValuesAt(toks[..|toks| - 1], atof);
    }
  }

  /** Index `i` is `atoi` of token `i`, cut to 16 bits. */
  lemma {:induction false} ShortsAt(toks: seq<CStr>)
    ensures forall i :: 0 <= i < |toks| ==> ShortsOf(toks)[i] == Atoi(toks[i]) % U16_LIMIT
  {
    if toks != [] {
      var init := toks[..|toks| - 1];
      ShortsAt(init);
      var r := ShortsOf(toks);
      assert r == ShortsOf(init) + [Atoi(toks[|toks| - 1]) % U16_LIMIT];
      forall i | 0 <= i < |toks|
        ensures r[i] == Atoi(toks[i]) % U16_LIMIT
      {
        if i < |init| {
          assert toks[i] == init[i];
        }
      }
    }
  }

  /** One index per token of the text, in order. */
  lemma IndicesOfText(s: CStr)
    ensures |IndicesOf(s)| == |Tokens(s)|
    ensures forall i :: 0 <= i < |Tokens(s)| ==> IndicesOf(s)[i] == Atoi(Tokens(s)[i]) % U16_LIMIT
  {
    ShortsAt(Tokens(s));
  }

  /** Every complete group of three numbers makes one vector; an unfinished last group (one or two numbers) makes none. */
  lemma {:induction false} GroupCount3(vals: seq<real>)
    ensures 3 * |Group(vals, false)| + |vals| % 3 == |vals|
  {
    if vals != [] {
      GroupCount3(vals[..|vals| - 1]);
    }
  }

  /** Every complete pair of numbers makes one vector; an unfinished last number makes none. */
  lemma {:induction false} GroupCount2(vals: seq<real>)
    ensures 2 * |Group(vals, true)| + |vals| % 2 == |vals|
  {
    if vals != [] {
      GroupCount2(vals[..|vals| - 1]);
    }
  }

  /** Vector `i` holds numbers `3i`, `3i + 1` and `3i + 2`. */
  lemma {:induction false} GroupAt3(vals: seq<real>)
    ensures forall i :: 0 <= i < |Group(vals, false)| ==>
      3 * i + 2 < |vals| && Group(vals, false)[i] == Vec3(vals[3 * i], vals[3 * i + 1], vals[3 * i + 2])
  {
    if vals != [] {
      var init := vals[..|vals| - 1];
      GroupAt3(init);
      GroupCount3(vals);
      GroupCount3(init);
    }
  }

  /** Vector `i` holds numbers `2i` and `2i + 1`, and 0 as z. */
  lemma {:induction false} GroupAt2(vals: seq<real>)
    ensures forall i :: 0 <= i < |Group(vals, true)| ==>
      2 * i + 1 < |vals| && Group(vals, true)[i] == Vec3(vals[2 * i], vals[2 * i + 1], 0.0)
  {
    if vals != [] {
      var init := vals[..|vals| - 1];
      GroupAt2(init);
      GroupCount2(vals);
      GroupCount2(init);
    }
  }

  /**
   * `ParseVectorString` on three-element vectors: one vector per complete
   * group of three tokens, made of the numbers `atof` reads from them.
   */
  lemma VectorsOfText(s: CStr, atof: CStr -> real)
    ensures var vs := VectorsOf(s, atof, false); var toks := Tokens(s);
      && 3 * |vs| + |toks| % 3 == |toks|
      && forall i :: 0 <= i < |vs| ==>
           (3 * i + 2 < |toks| && vs[i] == Vec3(atof(toks[3 * i]), atof(toks[3 * i + 1]), atof(toks[3 * i + 2])))
  {
    GroupCount3(Values(Tokens(s), atof));
    GroupAt3(Values(Tokens(s), atof));
    ValuesAt(Tokens(s), atof);
  }

  /**
   * `ParseVectorString` on texture coordinates: one vector per complete pair
   * of tokens, with z set to 0.
   */
  lemma UVsOfText(s: CStr, atof: CStr -> real)
    ensures var vs := VectorsOf(s, atof, true); var toks := Tokens(s);
      && 2 * |vs| + |toks| % 2 == |toks|
      && forall i :: 0 <= i < |vs| ==>
           (2 * i + 1 < |toks| && vs[i] == Vec3(atof(toks[2 * i]), atof(toks[2 * i + 1]), 0.0))
  {
    GroupCount2(Values(Tokens(s), atof));
    GroupAt2(Values(Tokens(s), atof));
    ValuesAt(Tokens(s), atof);
  }

  // ---------------------------------------------------------------------------
  // The vertex chunk of a model

  /** Flipping the same axes again gives back the vector; with no flags set nothing changes. */
  lemma FlipInvolution(p: Vec3, f: Flips)
    ensures FlipVec(FlipVec(p, f), f) == p
    ensures FlipVec(p, NO_FLIPS) == p
  {
  }

  /** Position `i` as written is vector `i` flipped. */
  lemma {:induction false} FlipAllAt(ps: seq<Vec3>, f: Flips)
    ensures forall i :: 0 <= i < |ps| ==> FlipAll(ps, f)[i] == FlipVec(ps[i], f)
  {
    if ps != [] {
      FlipAllAt(ps[..|ps| - 1], f);
    }
  }

  /** Record `i` is the record of vertex `i`. */
  lemma {:induction false} XmlRecordsAt(verts: seq<Vec3>, normals: seq<Vec3>, uvs: seq<Vec3>, textured: bool, f: Flips, k: nat)
    requires k <= |verts| == |normals| && (textured ==> |uvs| == |verts|)
    ensures forall i :: 0 <= i < k ==>
      XmlRecords(verts, normals, uvs, textured, f, k)[i] == XmlRecordAt(verts, normals, uvs, textured, f, i)
  {
    if k > 0 {
      XmlRecordsAt(verts, normals, uvs, textured, f, k - 1);
    }
  }

  /**
   * `WriteVertexChunk` writes nothing when the normals, or the texture
   * coordinates while a diffuse index is set, do not match the vertices in
   * number, and has an empty payload exactly when they match and there are
   * no vertices.
   */
  lemma VertexOutcomeCases(name: CStr, m: XmlModel, verts: seq<Vec3>, atof: CStr -> real, f: Flips)
    ensures var normals := VectorsOf(m.normalsText, atof, false);
            var uvs := DiffuseUVs(m.materials, atof); var textured := DiffuseIndex(m.materials) > -1;
      && (VertexChunksOf(name, m, verts, atof, f).CountMismatch? <==>
            |verts| != |normals| || (textured && |verts| != |uvs|))
      && (VertexChunksOf(name, m, verts, atof, f).EmptyPayload? <==>
            |normals| == 0 && verts == [] && (textured ==> |uvs| == 0))
  {
  }

  /**
   * A written vertex chunk holds one record per vertex: the position and
   * normal with the flagged axes negated, and, while a diffuse index is set,
   * the texture coordinate as read, never flipped. Its box chunk follows
   * under "<name>BB", and its box holds every flipped position.
   */
  lemma WrittenVertexChunk(name: CStr, m: XmlModel, verts: seq<Vec3>, atof: CStr -> real, f: Flips)
    requires VertexChunksOf(name, m, verts, atof, f).Wrote?
    ensures var normals := VectorsOf(m.normalsText, atof, false); var cs := VertexChunksOf(name, m, verts, atof, f).chunks;
      && |verts| == |normals| > 0
      && |cs| == 2 && cs[0].name == name && cs[1].name == BBName(name) && |cs[0].data| == |verts|
      && forall i :: 0 <= i < |verts| ==>
           (cs[0].data[i].Record? && cs[0].data[i].v.NormalsVertex?
            && cs[0].data[i].v.position == FlipVec(verts[i], f) && cs[0].data[i].v.normal == Set(FlipVec(normals[i], f)))
    ensures var uvs := DiffuseUVs(m.materials, atof); var cs := VertexChunksOf(name, m, verts, atof, f).chunks;
      && (DiffuseIndex(m.materials) > -1 ==> |uvs| == |verts|)
      && forall i :: 0 <= i < |verts| ==>
           cs[0].data[i].v.texcoord == if DiffuseIndex(m.materials) > -1 then Set(UV(uvs[i].x, uvs[i].y)) else Kept
    ensures var cs := VertexChunksOf(name, m, verts, atof, f).chunks; var b := BoundsOf(FlipAll(verts, f));
      && cs[1].data == BoxFields(b)
      && forall i :: 0 <= i < |verts| ==> Inside(b, FlipVec(verts[i], f))
  {
    var normals := VectorsOf(m.normalsText, atof, false);
    var uvs := DiffuseUVs(m.materials, atof);
    var textured := DiffuseIndex(m.materials) > -1;
    XmlRecordsAt(verts, normals, uvs, textured, f, |verts|);
    FlipAllAt(verts, f);
    BoundsContain(FlipAll(verts, f));
  }

  // ---------------------------------------------------------------------------
  // The diffuse texture

  /** The diffuse index is the index of the last material named "diffuse" whose index attribute is an integer. */
  lemma {:induction false} DiffuseIndexLast(ms: seq<XmlMaterial>, j: nat)
    requires j < |ms| && ms[j].isDiffuse && ms[j].index.Some?
    requires forall k :: j < k < |ms| ==> !(ms[k].isDiffuse && ms[k].index.Some?)
    ensures DiffuseIndex(ms) == ms[j].index.value
  {
    if j < |ms| - 1 {
      DiffuseIndexLast(ms[..|ms| - 1], j);
    }
  }

  /** Without such a material the diffuse index stays -1. */
  lemma {:induction false} DiffuseIndexNone(ms: seq<XmlMaterial>)
    requires forall k :: 0 <= k < |ms| ==> !(ms[k].isDiffuse && ms[k].index.Some?)
    ensures DiffuseIndex(ms) == -1
  {
    if ms != [] {
      DiffuseIndexNone(ms[..|ms| - 1]);
    }
  }

  /** A model with one diffuse material that names a texture takes its texture coordinates from that material's text. */
  lemma OneDiffuseMaterial(m: XmlMaterial, atof: CStr -> real)
    requires m.isDiffuse && m.index.Some? && m.index.value > -1
    ensures DiffuseIndex([m]) == m.index.value
    ensures DiffuseUVs([m], atof) == VectorsOf(m.uvText, atof, true)
  {
    MaterialSnoc([], m, atof);
  }

  /**
   * The diffuse descriptor of a Model chunk is never empty: it names the
   * chosen texture's file, without its folders and with an unsupported
   * format's extension rewritten, when a texture is chosen and that name is
   * not empty, and is otherwise the colour entry with alpha 1. Without a
   * diffuse index the first texture of the list is chosen; an index below
   * -1 chooses none.
   */
  lemma DiffuseSlotChoice(textures: seq<CStr>, ms: seq<XmlMaterial>)
    requires TextureChoiceValid(textures, ms)
    ensures XmlDiffuseSlot(textures, ms).Named? || XmlDiffuseSlot(textures, ms) == ColorAlpha(1.0)
    ensures var c := ChosenTexture(textures, ms);
      XmlDiffuseSlot(textures, ms).Named? <==> c > -1 && |RemoveFoldersFromPaths(textures[c])| > 0
    ensures var c := ChosenTexture(textures, ms);
      XmlDiffuseSlot(textures, ms).Named? ==>
        XmlDiffuseSlot(textures, ms) == Named(Diffuse, ReplaceUnrecognizedInternalTextureFormats(RemoveFoldersFromPaths(textures[c])).name)
    ensures DiffuseIndex(ms) == -1 && |textures| > 0 ==> ChosenTexture(textures, ms) == 0
    ensures DiffuseIndex(ms) < -1 ==> XmlDiffuseSlot(textures, ms) == ColorAlpha(1.0)
  {
  }

  // ---------------------------------------------------------------------------
  // The Model chunk of a model

  lemma ConcatAt(a: seq<Field>, b: seq<Field>, d: seq<Field>)
    requires d == a + b
    ensures |d| == |a| + |b|
    ensures forall i :: 0 <= i < |a| ==> d[i] == a[i]
    ensures forall i :: 0 <= i < |b| ==> d[|a| + i] == b[i]
  {
  }

  /** The fields of a Model chunk after its head, as `IndexFields` and the tail lay them out. */
  lemma IndexFieldsAt(ixs: seq<u16>)
    ensures IndexFields(ixs)[0] == U32(|ixs|)
    ensures forall i :: 0 <= i < |ixs| ==> IndexFields(ixs)[1 + i] == U16(ixs[i])
  {
  }

  /** The diffuse descriptor comes first in the slot fields, the empty normal-map entry last. */
  lemma SlotsFieldsEnd(textures: seq<CStr>, ms: seq<XmlMaterial>)
    requires TextureChoiceValid(textures, ms)
    ensures SlotsFields(textures, ms) == SlotFields(XmlDiffuseSlot(textures, ms)) + [U32(UnknownTexture.Code())]
  {
  }

  /**
   * The Model chunk of a model: no children, the node name and the model's
   * name, the identity matrix, one mesh with the mesh name and the model's
   * name, no animation, the vertex count and the Normals tag; then the index
   * count and the indices; then the tail and the texture slots. `ModelFields`
   * builds it with `MODEL_TAIL` (the triangle tag, 0 and the fixed surface)
   * and `SlotsFields` (the diffuse descriptor and no normal map).
   */
  lemma ModelFieldsLayout(nodeName: CStr, meshName: CStr, name: CStr, nVerts: nat, ixs: seq<u16>,
                          tail: seq<Field>, slots: seq<Field>, d: seq<Field>)
    requires d == ModelHead(nodeName, meshName, name, nVerts) + IndexFields(ixs) + tail + slots
    ensures |d| == 11 + |ixs| + |tail| + |slots|
    ensures d[..10] == [U32(0), Text(nodeName), Text(name), Matrix(Identity), U32(1),
                        Text(meshName), Text(name), U32(0), U32(nVerts), U32(Normals.Code())]
    ensures d[10] == U32(|ixs|)
    ensures forall i :: 0 <= i < |ixs| ==> d[11 + i] == U16(ixs[i])
    ensures d[11 + |ixs|..] == tail + slots
  {
    var head := ModelHead(nodeName, meshName, name, nVerts);
    var rest := tail + slots;
    assert d == head + (IndexFields(ixs) + rest);
    ConcatAt(head, IndexFields(ixs) + rest, d);
    ConcatAt(IndexFields(ixs), rest, IndexFields(ixs) + rest);
    IndexFieldsAt(ixs);
    assert d[..10] == head;
    assert d[11 + |ixs|..] == rest;
  }

  // ---------------------------------------------------------------------------
  // One model

  /**
   * A model that does not throw writes its vertex chunk pair, or nothing on a
   * count mismatch, and then its Model chunk under the next number, and
   * advances the model, vertex-chunk, node and mesh counters by one.
   */
  lemma ModelWrites(st: XmlState, m: XmlModel, atof: CStr -> real)
    requires TextureChoiceValid(st.textures, m.materials) && !Throws(m, atof)
    ensures var vx := VertexChunksOf(VxName(st.vertexChunks), m, VerticesOf(m, atof), atof, st.flips);
      && !vx.EmptyPayload?
      && ModelState(st, m, atof).written
           == st.written + (if vx.Wrote? then vx.chunks else []) + [Chunk(ModelName(st.models), ModelPayload(st, m, atof))]
    ensures var r := ModelState(st, m, atof);
      && r.models == st.models + 1 && r.vertexChunks == st.vertexChunks + 1
      && r.nodeIds == st.nodeIds + 1 && r.meshIds == st.meshIds + 1
      && r.textures == st.textures && r.flips == st.flips && r.flipUV == st.flipUV
      && r.entries == st.entries && r.totalMeshes == st.totalMeshes && r.solid == st.solid
  {
  }

  // ---------------------------------------------------------------------------
  // The model loop

  /**
   * From `a` to `b` the adapter appended `n` Model chunks numbered on from
   * its model count, advanced its counters by `n` and kept everything else.
   */
  ghost predicate Advance(a: XmlState, b: XmlState, n: nat)
  {
    && AppendsModels(a.written, b.written, a.models, n)
    && b.models == a.models + n && b.vertexChunks == a.vertexChunks + n
    && b.nodeIds == a.nodeIds + n && b.meshIds == a.meshIds + n
    && b.textures == a.textures && b.flips == a.flips && b.flipUV == a.flipUV
    && b.entries == a.entries && b.totalMeshes == a.totalMeshes && b.solid == a.solid
  }

  lemma AdvanceTrans(a: XmlState, b: XmlState, c: XmlState, n1: nat, n2: nat)
    requires Advance(a, b, n1) && Advance(b, c, n2)
    ensures Advance(a, c, n1 + n2)
  {
    AppendsCompose(a.written, b.written, c.written, a.models, n1, n2);
  }

  lemma AdvanceByOne(st: XmlState, r: XmlState, w1: seq<Chunk>, model: Chunk)
    requires AppendsModels(st.written, w1, st.models, 0) && AppendsModels(w1, w1 + [model], st.models, 1)
    requires r.written == w1 + [model]
    requires r.models == st.models + 1 && r.vertexChunks == st.vertexChunks + 1
    requires r.nodeIds == st.nodeIds + 1 && r.meshIds == st.meshIds + 1
    requires r.textures == st.textures && r.flips == st.flips && r.flipUV == st.flipUV
    requires r.entries == st.entries && r.totalMeshes == st.totalMeshes && r.solid == st.solid
    ensures Advance(st, r, 1)
  {
    AppendsCompose(st.written, w1, w1 + [model], st.models, 0, 1);
  }

  /** The vertex chunks of a model, written or not, add no Model chunk. */
  lemma VertexOutcomeAppends(w: seq<Chunk>, lo: nat, n: nat, m: XmlModel, atof: CStr -> real, f: Flips)
    ensures var vx := VertexChunksOf(VxName(n), m, VerticesOf(m, atof), atof, f);
      AppendsModels(w, w + (if vx.Wrote? then vx.chunks else []), lo, 0)
  {
    var verts := VerticesOf(m, atof);
    var vx := VertexChunksOf(VxName(n), m, verts, atof, f);
    if vx.Wrote? {
      var uvs := DiffuseUVs(m.materials, atof);
      AppendsVertexChunks(w, lo, n, XmlRecords(verts, VectorsOf(m.normalsText, atof, false), uvs, DiffuseIndex(m.materials) > -1, f, |verts|),
        BoundsOf(FlipAll(verts, f)));
    } else {
      assert w + [] == w;
      AppendsNothing(w, lo);
    }
  }

  /** A model that does not throw writes one Model chunk, numbered next, and advances every counter by one. */
  lemma ModelAdvance(st: XmlState, m: XmlModel, atof: CStr -> real)
    requires TextureChoiceValid(st.textures, m.materials) && !Throws(m, atof)
    ensures Advance(st, ModelState(st, m, atof), 1)
  {
    var vx := VertexChunksOf(VxName(st.vertexChunks), m, VerticesOf(m, atof), atof, st.flips);
    var w1 := st.written + (if vx.Wrote? then vx.chunks else []);
    var model := Chunk(ModelName(st.models), ModelPayload(st, m, atof));
    ModelWrites(st, m, atof);
    VertexOutcomeAppends(st.written, st.models, st.vertexChunks, m, atof, st.flips);
    AppendsModelChunk(w1, st.models, ModelPayload(st, m, atof));
    AdvanceByOne(st, ModelState(st, m, atof), w1, model);
  }

  lemma StepAdvance(st: XmlState, models: seq<XmlModel>, atof: CStr -> real, k: nat)
    requires 0 < k && ModelsValid(st.textures, models, k) && !Throws(models[k - 1], atof)
    ensures Advance(ModelsState(st, models, atof, k - 1), ModelsState(st, models, atof, k), 1)
  {
    ModelAdvance(ModelsState(st, models, atof, k - 1), models[k - 1], atof);
  }

  /** The first `k` models, none of which throws, write `k` Model chunks numbered on from the model count. */
  lemma ModelsAdvance(st: XmlState, models: seq<XmlModel>, atof: CStr -> real, k: nat)
    requires ModelsValid(st.textures, models, k)
    requires forall j :: 0 <= j < k ==> !Throws(models[j], atof)
    ensures Advance(st, ModelsState(st, models, atof, k), k)
  {
    NoneThrowUpTo(models, atof, k);
    AdvanceUpTo(st, models, atof, k);
  }

  lemma {:induction false} AdvanceUpTo(st: XmlState, models: seq<XmlModel>, atof: CStr -> real, k: nat)
    requires ModelsValid(st.textures, models, k) && NoneThrow(models, atof, k)
    ensures Advance(st, ModelsState(st, models, atof, k), k)
  {
    if k == 0 {
      AppendsNothing(st.written, st.models);
    } else {
      AdvanceUpTo(st, models, atof, k - 1);
      AdvanceStep(st, models, atof, k);
    }
  }

  lemma AdvanceStep(st: XmlState, models: seq<XmlModel>, atof: CStr -> real, k: nat)
    requires 0 < k && ModelsValid(st.textures, models, k) && !Throws(models[k - 1], atof)
    requires Advance(st, ModelsState(st, models, atof, k - 1), k - 1)
    ensures Advance(st, ModelsState(st, models, atof, k), k)
  {
    StepAdvance(st, models, atof, k);
    AdvanceTrans(st, ModelsState(st, models, atof, k - 1), ModelsState(st, models, atof, k), k - 1, 1);
  }

  /** No model before `k` throws. */
  lemma {:induction false} NoneThrowUpTo(models: seq<XmlModel>, atof: CStr -> real, k: nat)
    requires k <= |models| && forall j :: 0 <= j < k ==> !Throws(models[j], atof)
    ensures NoneThrow(models, atof, k)
  {
    if k > 0 {
      NoneThrowUpTo(models, atof, k - 1);
    }
  }

  /** Different counters give different node names, whatever the models' own names. */
  lemma NodeNameCounterDistinct(n1: CStr, k1: nat, n2: CStr, k2: nat)
    requires k1 != k2
    ensures NodeName(n1, k1) != NodeName(n2, k2)
  {
    DisplayNameCounterDistinct(NODE_PREFIX, n1, k1, n2, k2);
  }

  // ---------------------------------------------------------------------------
  // The whole export

  /**
   * A document that does not load returns false and writes nothing. One that
   * loads never returns false: it returns true exactly when none of the
   * models the loop reaches throws, having written one Model chunk per model
   * numbered from 0; the first that throws ends the program after the Model
   * chunks of the models before it, having advanced the vertex-chunk, node
   * and mesh counters once more. The node and mesh counters carry on from
   * earlier exports, the model and vertex-chunk numbers restart at 0, and the
   * document's texture names are appended to the list.
   */
  lemma ExportOutcome(st: XmlState, doc: Option<XmlDoc>, flipUV: bool, load: bool, flips: Flips, atof: CStr -> real)
    requires doc.Some? ==> DocValid(st.textures, doc.value, load, atof)
    ensures doc.None? ==>
      && Export(st, doc, flipUV, load, flips, atof).0 == Returned(false)
      && Export(st, doc, flipUV, load, flips, atof).1.written == st.written
    ensures doc.Some? ==> Export(st, doc, flipUV, load, flips, atof).0 != Returned(false)
    ensures doc.Some? ==>
      (Export(st, doc, flipUV, load, flips, atof).0 == Returned(true) <==>
         forall j :: 0 <= j < Planned(doc.value, load) ==> !Throws(doc.value.models[j], atof))
    ensures doc.Some? ==>
      var d := doc.value; var k := FirstThrow(d.models, atof, 0, Planned(d, load));
      var r := Export(st, doc, flipUV, load, flips, atof);
      var extra := if r.0 == Terminated then 1 else 0;
      && AppendsModels(st.written, r.1.written, 0, k)
      && r.1.models == k && r.1.vertexChunks == k + extra
      && r.1.nodeIds == st.nodeIds + k + extra && r.1.meshIds == st.meshIds + k + extra
      && r.1.textures == st.textures + LoadedTextures(d)
      && r.1.flips == flips && r.1.flipUV == flipUV && r.1.entries == [] && r.1.totalMeshes == 0
  {
    if doc.Some? {
      var d := doc.value;
      var s0 := Restart(st, flipUV, flips);
      var s1 := s0.(textures := s0.textures + LoadedTextures(d));
      var n := Planned(d, load);
      var k := FirstThrow(d.models, atof, 0, n);
      ModelsAdvance(s1, d.models, atof, k);
      assert k < n ==> !(forall j :: 0 <= j < n ==> !Throws(d.models[j], atof));
    }
  }

  // ---------------------------------------------------------------------------
  // Collision models

  /** When collision models are loaded the loop runs `count` times, each on the next model. */
  lemma PlannedLoading(d: XmlDoc)
    requires CursorValid(d, true)
    ensures Planned(d, true) == if d.modelCount < 0 then 0 else d.modelCount
  {
  }

  /**
   * When they are not, no model the loop exports is a collision model, and
   * it stops short of `count` exactly at the first collision model.
   */
  lemma PlannedSkipping(d: XmlDoc)
    requires CursorValid(d, false)
    ensures forall j :: 0 <= j < Planned(d, false) ==> !d.models[j].isCollision
    ensures Planned(d, false) < d.modelCount ==>
      Planned(d, false) < |d.models| && d.models[Planned(d, false)].isCollision
  {
  }

  // ---------------------------------------------------------------------------
  // The model loop as evidently intended

  /** Exactly the models that are not passed over are kept. */
  lemma {:induction false} KeptModelsMembers(ms: seq<XmlModel>, load: bool, m: XmlModel)
    ensures m in KeptModels(ms, load) <==> m in ms && !Skipped(m, load)
  {
    if ms != [] {
      KeptModelsMembers(ms[..|ms| - 1], load, m);
      assert ms == ms[..|ms| - 1] + [ms[|ms| - 1]];
    }
  }

  /** A list with no model to pass over is kept whole. */
  lemma {:induction false} KeptModelsAll(ms: seq<XmlModel>, load: bool)
    requires forall j :: 0 <= j < |ms| ==> !Skipped(ms[j], load)
    ensures KeptModels(ms, load) == ms
  {
    if ms != [] {
      KeptModelsAll(ms[..|ms| - 1], load);
      assert ms == ms[..|ms| - 1] + [ms[|ms| - 1]];
    }
  }

  /** The kept models of a prefix are a prefix of the kept models: the order is the document's. */
  lemma {:induction false} KeptModelsPrefix(ms: seq<XmlModel>, load: bool, p: nat)
    requires p <= |ms|
    ensures var a := KeptModels(ms[..p], load); var b := KeptModels(ms, load);
      |a| <= |b| && b[..|a|] == a
    decreases |ms|
  {
    if p < |ms| {
      var init := ms[..|ms| - 1];
      assert init[..p] == ms[..p];
      KeptModelsPrefix(init, load, p);
      var a := KeptModels(ms[..p], load);
      var b0 := KeptModels(init, load);
      var tail := if Skipped(ms[|ms| - 1], load) then [] else [ms[|ms| - 1]];
      assert (b0 + tail)[..|a|] == b0[..|a|];
    } else {
      assert ms[..p] == ms;
    }
  }

  /**
   * The loop as written exports a prefix of the models the intended loop
   * exports, and all of them when no collision model among the first `count`
   * is passed over.
   */
  lemma AsWrittenPrefix(d: XmlDoc, load: bool)
    requires d.modelCount <= |d.models|
    ensures var p := Planned(d, load); var kept := IntendedModels(d, load);
      p <= |kept| && kept[..p] == d.models[..p]
    ensures FirstSkip(d.models, load, 0) >= d.modelCount ==>
      IntendedModels(d, load) == d.models[..Planned(d, load)]
  {
    var c := if d.modelCount < 0 then 0 else d.modelCount;
    var p := Planned(d, load);
    var head := d.models[..c];
    assert head[..p] == d.models[..p];
    KeptModelsAll(d.models[..p], load);
    KeptModelsPrefix(head, load, p);
    if FirstSkip(d.models, load, 0) >= d.modelCount {
      KeptModelsAll(head, load);
    }
  }

  /**
   * The input that shows the cursor bug: a collision model followed by a
   * plain one, two models announced, collision models not loaded. The loop
   * as written exports nothing; the intended loop exports the plain model.
   */
  lemma CollisionCursorCounterexample(plain: XmlModel, collision: XmlModel)
    requires !plain.isCollision && collision.isCollision
    ensures var d := XmlDoc(0, [], 2, [collision, plain]);
      && CursorValid(d, false)
      && Planned(d, false) == 0
      && IntendedModels(d, false) == [plain]
  {
    var d := XmlDoc(0, [], 2, [collision, plain]);
    assert d.models[..2] == [collision, plain];
    assert [collision, plain][..1] == [collision];
    assert [collision][..0] == [];
    assert KeptModels([collision], false) == [];
  }

  /** The first model that throws depends only on the models before the bound. */
  lemma {:induction false} FirstThrowPrefix(ms: seq<XmlModel>, ms2: seq<XmlModel>, atof: CStr -> real, i: nat, n: nat)
    requires i <= n <= |ms| && n <= |ms2| && ms[..n] == ms2[..n]
    ensures FirstThrow(ms, atof, i, n) == FirstThrow(ms2, atof, i, n)
    decreases n - i
  {
    if i < n {
      assert ms[i] == ms[..n][i];
      assert ms2[i] == ms2[..n][i];
      FirstThrowPrefix(ms, ms2, atof, i + 1, n);
    }
  }

  /** The state after `k` models depends only on those models. */
  lemma {:induction false} ModelsStatePrefix(st: XmlState, ms: seq<XmlModel>, ms2: seq<XmlModel>, atof: CStr -> real, k: nat)
    requires k <= |ms| && k <= |ms2| && ms[..k] == ms2[..k]
    requires ModelsValid(st.textures, ms, k) && ModelsValid(st.textures, ms2, k)
    ensures ModelsState(st, ms, atof, k) == ModelsState(st, ms2, atof, k)
  {
    if k > 0 {
      assert ms[..k - 1] == ms2[..k - 1] by {
        assert ms[..k - 1] == ms[..k][..k - 1];
        assert ms2[..k - 1] == ms2[..k][..k - 1];
      }
      ModelsStatePrefix(st, ms, ms2, atof, k - 1);
      assert ms[k - 1] == ms[..k][k - 1];
      assert ms2[k - 1] == ms2[..k][k - 1];
    }
  }

  lemma SharedPrefix(a: seq<XmlModel>, b: seq<XmlModel>, k: nat, n: nat)
    requires k <= n <= |a| && n <= |b| && a[..n] == b[..n]
    ensures a[..k] == b[..k]
  {
    assert a[..k] == a[..n][..k];
    assert b[..k] == b[..n][..k];
  }

  /** The model loop over `n` models depends only on those models. */
  lemma RunModelsPrefix(st: XmlState, ms: seq<XmlModel>, ms2: seq<XmlModel>, atof: CStr -> real, n: nat)
    requires n <= |ms| && n <= |ms2| && ms[..n] == ms2[..n]
    requires ReachedValid(st.textures, ms, atof, n) && ReachedValid(st.textures, ms2, atof, n)
    ensures RunModels(st, ms, atof, n) == RunModels(st, ms2, atof, n)
  {
    FirstThrowPrefix(ms, ms2, atof, 0, n);
    var k := FirstThrow(ms, atof, 0, n);
    SharedPrefix(ms, ms2, k, n);
    StatesAgree(st, ms, ms2, atof, k);
  }

  /** The states after the first `k` models agree when those models do. */
  lemma StatesAgree(st: XmlState, ms: seq<XmlModel>, ms2: seq<XmlModel>, atof: CStr -> real, k: nat)
    requires k <= |ms| && k <= |ms2| && ms[..k] == ms2[..k]
    requires ModelsValid(st.textures, ms, k) && ModelsValid(st.textures, ms2, k)
    ensures AtModel(ModelsState(st, ms, atof, k), st, ms2, atof, k)
  {
    ModelsStatePrefix(st, ms, ms2, atof, k);
  }

  /** Without a collision model passed over among the first `count`, the export as written is the intended one. */
  lemma ExportsAgree(st: XmlState, d: XmlDoc, flipUV: bool, load: bool, flips: Flips, atof: CStr -> real)
    requires DocValid(st.textures, d, load, atof) && IntendedValid(st.textures, d, load, atof)
    requires FirstSkip(d.models, load, 0) >= d.modelCount
    ensures Export(st, Some(d), flipUV, load, flips, atof) == IntendedExport(st, Some(d), flipUV, load, flips, atof)
  {
    var s0 := Restart(st, flipUV, flips);
    var s1 := s0.(textures := s0.textures + LoadedTextures(d));
    var p := Planned(d, load);
    AsWrittenPrefix(d, load);
    var kept := IntendedModels(d, load);
    assert |kept| == p;
    assert kept[..p] == d.models[..p];
    RunModelsPrefix(s1, d.models, kept, atof, p);
  }
}
