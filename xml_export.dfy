/**
 * The XML adapter (`C3DModelXML`) as a class over its own fields. Each method
 * performs the source's steps on those fields and is proved to leave them as
 * the matching function of `XmlScene` says.
 */
module XmlExport {
  import opened Wrappers
  import opened CText
  import opened StuText
  import opened ModelData
  import opened SceneExport
  import opened XmlScene

  class XmlAdapter {
    var TotalMeshCount: nat
    var SubModelCount: nat
    var SubModelVertexCount: nat
    var Entries: seq<nat>
    var FlipUVonY: bool
    var FlipOnX: bool
    var FlipOnY: bool
    var FlipOnZ: bool
    /** `m_uUniqueOBJUnknownID`, the node-name counter. */
    var UniqueNodeId: nat
    /** The function-static `sUniqueOBJUnknownMeshID`. */
    var UniqueMeshId: nat
    var SolidColor: Vec3
    /** `m_Textures`: the texture file names, kept from one export to the next. */
    var Textures: seq<CStr>
    /** The chunks handed to `AppendChunkToFile` for the `.stu` file, in order. */
    var Written: seq<Chunk>

    function State(): XmlState
      reads this
    {
      XmlState(TotalMeshCount, SubModelCount, SubModelVertexCount, Entries, FlipUVonY,
               Flips(FlipOnX, FlipOnY, FlipOnZ), UniqueNodeId, UniqueMeshId, SolidColor, Textures, Written)
    }

    /** `m_uUniqueOBJUnknownID` is left uninitialised by the constructor: `unknownId` stands for that value. */
    constructor(unknownId: nat)
      ensures State() == XmlState(0, 0, 0, [], false, NO_FLIPS, unknownId, 0, Grey(0.5), [], [])
    {
      TotalMeshCount := 0;
      SubModelCount := 0;
      SubModelVertexCount := 0;
      Entries := [];
      FlipUVonY := false;
      FlipOnX, FlipOnY, FlipOnZ := false, false, false;
      UniqueNodeId := unknownId;
      UniqueMeshId := 0;
      SolidColor := Grey(0.5);
      Textures := [];
      Written := [];
    }

    method SetDefaultSolidColor(red: real, green: real, blue: real)
      modifies this
      ensures State() == old(State()).(solid := Vec3(red, green, blue))
    {
      SolidColor := Vec3(red, green, blue);
    }

    /** `ExportToSTUFormat(path)`: the counter resets, then the export with flipped texture coordinates, no collision models and no axis flips. */
    method ExportWithDefaults(doc: Option<XmlDoc>, atof: CStr -> real) returns (r: ExportResult)
      requires doc.Some? ==> DocValid(Textures, doc.value, false, atof)
      modifies this
      ensures (r, State()) == Export(old(State()), doc, true, false, NO_FLIPS, atof)
    {
      SubModelCount := 0;
      SubModelVertexCount := 0;
      r := ExportToSTUFormat(doc, true, false, false, false, false, atof);
    }

    /** `ExportToSTUFormat(path, bFlipUV)`: no collision models and no axis flips. */
    method ExportFlipUV(doc: Option<XmlDoc>, flipUV: bool, atof: CStr -> real) returns (r: ExportResult)
      requires doc.Some? ==> DocValid(Textures, doc.value, false, atof)
      modifies this
      ensures (r, State()) == Export(old(State()), doc, flipUV, false, NO_FLIPS, atof)
    {
      r := ExportToSTUFormat(doc, flipUV, false, false, false, false, atof);
    }

    /**
     * `ExportToSTUFormat(path, bFlipUV, bLoadCollsionModel, bFlipOnX, bFlipOnY,
     * bFlipOnZ)`; `doc` is `None` when loading fails, and `atof` is the C
     * library's number reader.
     */
    method ExportToSTUFormat(doc: Option<XmlDoc>, flipUV: bool, load: bool, flipX: bool, flipY: bool, flipZ: bool,
                             atof: CStr -> real) returns (r: ExportResult)
      requires doc.Some? ==> DocValid(Textures, doc.value, load, atof)
      modifies this
      ensures (r, State()) == Export(old(State()), doc, flipUV, load, Flips(flipX, flipY, flipZ), atof)
    {
      ghost var st := State();
      Reset(flipUV, flipX, flipY, flipZ);
      if doc.None? {
        return Returned(false);
      }
      r := ExportDoc(st, doc.value, flipUV, load, Flips(flipX, flipY, flipZ), atof);
    }

    /** The flags stored and the counters and entries cleared before the file is opened. */
    method Reset(flipUV: bool, flipX: bool, flipY: bool, flipZ: bool)
      modifies this
      ensures State() == Restart(old(State()), flipUV, Flips(flipX, flipY, flipZ))
    {
      FlipOnX, FlipOnY, FlipOnZ := flipX, flipY, flipZ;
      SubModelCount, SubModelVertexCount, FlipUVonY := 0, 0, flipUV;
      Entries, TotalMeshCount := [], 0;
    }

    /** A loaded document, after the resets from state `st`: its texture names, then its models. */
    method ExportDoc(ghost st: XmlState, d: XmlDoc, flipUV: bool, load: bool, flips: Flips, atof: CStr -> real) returns (r: ExportResult)
      requires State() == Restart(st, flipUV, flips) && DocValid(st.textures, d, load, atof)
      modifies this
      ensures (r, State()) == Export(st, Some(d), flipUV, load, flips, atof)
    {
      LoadTextures(d);
      r := ExportModels(d, load, atof);
    }

    /** The texture loop: each `fileName` attribute is appended to `m_Textures`. */
    method LoadTextures(d: XmlDoc)
      requires d.textureCount <= |d.textureFiles|
      modifies this
      ensures State() == old(State()).(textures := old(Textures) + LoadedTextures(d))
    {
      var i := 0;
      while i < d.textureCount
        invariant 0 <= i && (i <= d.textureCount || i == 0)
        invariant State() == old(State()).(textures := old(Textures) + LoadedTextures(d)[..i])
        decreases d.textureCount - i
      {
        Textures := Textures + [CView(d.textureFiles[i])];
        i := i + 1;
      }
      assert LoadedTextures(d)[..i] == LoadedTextures(d);
    }

    /**
     * The model loop: `modelCount` iterations over a cursor that moves to the
     * next model after each exported one. A collision model, when those are
     * not loaded, is skipped without moving the cursor.
     */
    method ExportModels(d: XmlDoc, load: bool, atof: CStr -> real) returns (r: ExportResult)
      requires CursorValid(d, load) && ReachedValid(Textures, d.models, atof, Planned(d, load))
      modifies this
      ensures (r, State()) == RunModels(old(State()), d.models, atof, Planned(d, load))
    {
      ghost var s1 := State();
      var c := 0;
      var i := 0;
      while i < d.modelCount
        invariant 0 <= i && (i <= d.modelCount || i == 0)
        invariant c == Cursor(d, load, i)
        invariant c <= |d.models| && NoneThrow(d.models, atof, c)
        invariant ModelsValid(s1.textures, d.models, c) && AtModel(State(), s1, d.models, atof, c)
        decreases d.modelCount - i
      {
        var threw;
        c, threw := ModelsTurn(s1, d, load, atof, i, c);
        if threw {
          FirstThrowAt(d.models, atof, 0, c, Planned(d, load));
          return Terminated;
        }
        i := i + 1;
      }
      CursorEnd(d, load, i);
      FirstThrowAt(d.models, atof, 0, c, Planned(d, load));
      r := Returned(true);
    }

    /** One iteration of the model loop, at iteration `i` with the cursor on model `c`. */
    method ModelsTurn(ghost s1: XmlState, d: XmlDoc, load: bool, atof: CStr -> real, i: nat, c: nat) returns (c': nat, threw: bool)
      requires CursorValid(d, load) && ReachedValid(s1.textures, d.models, atof, Planned(d, load))
      requires i < d.modelCount && c == Cursor(d, load, i)
      requires c <= |d.models| && NoneThrow(d.models, atof, c)
      requires ModelsValid(s1.textures, d.models, c) && AtModel(State(), s1, d.models, atof, c)
      modifies this
      ensures !threw ==> c' == Cursor(d, load, i + 1)
      ensures threw ==> c' < Planned(d, load) && Throws(d.models[c'], atof)
      ensures threw ==> c' == c && State() == Counted(old(State()))
      ensures c' <= |d.models| && NoneThrow(d.models, atof, c')
      ensures !threw ==> ModelsValid(s1.textures, d.models, c') && AtModel(State(), s1, d.models, atof, c')
    {
      CursorStep(d, load, i);
      if d.models[c].isCollision && !load {
        return c, false;
      }
      ReachedModel(s1.textures, d.models, atof, c, Planned(d, load));
      threw := ExportAt(s1, d.models, atof, c, Planned(d, load));
      c' := if threw then c else c + 1;
    }

    /** Model `c` exported after models `0..c-1`. */
    method ExportAt(ghost s1: XmlState, models: seq<XmlModel>, atof: CStr -> real, c: nat, ghost n: nat) returns (threw: bool)
      requires c < n <= |models| && ModelsValid(s1.textures, models, c)
      requires VertexTextsShort(models[c]) && (!Throws(models[c], atof) ==> ModelValid(s1.textures, models[c]))
      requires NoneThrow(models, atof, c) && AtModel(State(), s1, models, atof, c)
      modifies this
      ensures threw ==> Throws(models[c], atof) && State() == Counted(old(State()))
      ensures !threw ==> ModelsValid(s1.textures, models, c + 1)
      ensures !threw ==> NoneThrow(models, atof, c + 1) && AtModel(State(), s1, models, atof, c + 1)
    {
      threw := ExportModel(models[c], atof);
      if !threw {
        ValidAfter(s1.textures, models, c);
      }
    }

    /**
     * One exported model: its names, its vertices and vertex chunk pair, then
     * its indices, fixed surface and texture descriptors in the Model chunk.
     * `threw` is set when its vertex payload is empty and `Data.at(0)` throws.
     */
    method ExportModel(m: XmlModel, atof: CStr -> real) returns (threw: bool)
      requires VertexTextsShort(m) && (!Throws(m, atof) ==> ModelValid(Textures, m))
      modifies this
      ensures threw == Throws(m, atof)
      ensures State() == if threw then Counted(old(State())) else ModelState(old(State()), m, atof)
    {
      var vxName, nodeName, meshName := NameModel(m);
      var verts := ParseVectorString(m.verticesText, atof, [], false);
      threw := WriteVertexChunk(vxName, m, verts, atof);
      if threw {
        return;
      }
      var data := ModelBody(m, nodeName, meshName, |verts|);
      CloseModel(data);
    }

    /** The Model chunk payload: the head, the indices, the fixed surface and the two texture descriptors. */
    method ModelBody(m: XmlModel, nodeName: CStr, meshName: CStr, nVerts: nat) returns (data: seq<Field>)
      requires TokensShort(m.indicesText) && TextureChoiceValid(Textures, m.materials)
      ensures data == ModelFields(Textures, m, nodeName, meshName, nVerts)
    {
      var ixs := ParseIndices(m.indicesText);
      var slots := DiffuseFields(m.materials);
      data := ModelHead(nodeName, meshName, m.name, nVerts) + IndexFields(ixs) + MODEL_TAIL + slots + SlotFields(NoTexture);
    }

    /** The node, mesh and vertex chunk names of a model; the three counters advance. */
    method NameModel(m: XmlModel) returns (vxName: CStr, nodeName: CStr, meshName: CStr)
      modifies this
      ensures vxName == VxName(old(SubModelVertexCount))
      ensures nodeName == NodeName(m.name, old(UniqueNodeId))
      ensures meshName == MeshName(nodeName, m.name, old(UniqueMeshId))
      ensures State() == Counted(old(State()))
    {
      nodeName := NodeName(m.name, UniqueNodeId);
      UniqueNodeId := UniqueNodeId + 1;
      meshName := MeshName(nodeName, m.name, UniqueMeshId);
      UniqueMeshId := UniqueMeshId + 1;
      vxName := VxName(SubModelVertexCount);
      SubModelVertexCount := SubModelVertexCount + 1;
    }

    /** A Model chunk under the next number. */
    method CloseModel(data: seq<Field>)
      modifies this
      ensures State() == Closed(old(State()), data)
    {
      Written := Written + [Chunk(ModelName(SubModelCount), data)];
      SubModelCount := SubModelCount + 1;
    }

    /** The index loop: each token of the text read with `atoi` and cut to 16 bits. */
    static method ParseIndices(str: CStr) returns (ixs: seq<u16>)
      requires TokensShort(str)
      ensures ixs == IndicesOf(str)
    {
      var t := CView(str);
      ghost var all := Tokens(str);
      ghost var toks: seq<CStr> := [];
      ixs := [];
      var j := 0;
      while j < |t|
        invariant NUL !in t && j <= |t| + 1
        invariant AllShort(all) && ReadUpTo(all, t, toks, j) && ixs == ShortsOf(toks)
        decreases |t| + 1 - j
      {
        j, ixs, toks := IndexTurn(t, j, ixs, all, toks);
      }
      assert TokensFrom(t, j) == [] && toks + [] == toks;
    }

    /** One turn of the index loop: the token at `j` read as an index, and the scan one past its end. */
    static method IndexTurn(t: CStr, j: nat, ixs: seq<u16>, ghost all: seq<CStr>, ghost toks: seq<CStr>)
      returns (j': nat, ixs': seq<u16>, ghost toks': seq<CStr>)
      requires NUL !in t && j < |t| && AllShort(all)
      requires ReadUpTo(all, t, toks, j) && ixs == ShortsOf(toks)
      ensures j < j' <= |t| + 1
      ensures ReadUpTo(all, t, toks', j') && ixs' == ShortsOf(toks')
    {
      var k, text := NextToken(t, j, all, toks);
      ShortsSnoc(toks, text);
      ixs' := ixs + [Atoi(text) % U16_LIMIT];
      toks' := toks + [text];
      j' := k + 1;
    }

    /** The material loop: the index of the last diffuse material that has one, or -1. */
    static method ScanDiffuseIndex(ms: seq<XmlMaterial>) returns (idx: int)
      ensures idx == DiffuseIndex(ms)
    {
      idx := -1;
      var i := 0;
      while i < |ms|
        invariant 0 <= i <= |ms| && idx == DiffuseIndex(ms[..i])
      {
        MaterialSnoc(ms[..i], ms[i], (_ => 0.0));
        assert ms[..i + 1] == ms[..i] + [ms[i]];
        if ms[i].isDiffuse && ms[i].index.Some? {
          idx := ms[i].index.value;
        }
        i := i + 1;
      }
      assert ms[..i] == ms;
    }

    /** The diffuse descriptor: the chosen texture's file name, or the colour entry with alpha 1. */
    method DiffuseFields(ms: seq<XmlMaterial>) returns (data: seq<Field>)
      requires TextureChoiceValid(Textures, ms)
      ensures data == SlotFields(XmlDiffuseSlot(Textures, ms))
    {
      var idx := ScanDiffuseIndex(ms);
      if |Textures| > 0 && idx == -1 {
        idx := 0;
      }
      if idx > -1 {
        var file := RemoveFoldersFromPaths(Textures[idx]);
        if |file| > 0 {
          data := [U32(Diffuse.Code()), Text(ReplaceUnrecognizedInternalTextureFormats(file).name)];
        } else {
          data := [U32(ColorDiffuse.Code()), F32(1.0)];
        }
      } else {
        data := [U32(ColorDiffuse.Code()), F32(1.0)];
      }
    }

    /** The material loop of `WriteVertexChunk`: the running diffuse index, and the coordinates read while it is above -1. */
    static method ReadDiffuseUVs(ms: seq<XmlMaterial>, atof: CStr -> real) returns (idx: int, uvs: seq<Vec3>)
      requires UVTextsShort(ms)
      ensures idx == DiffuseIndex(ms) && uvs == DiffuseUVs(ms, atof)
    {
      idx := -1;
      uvs := [];
      var i := 0;
      while i < |ms|
        invariant 0 <= i <= |ms| && idx == DiffuseIndex(ms[..i]) && uvs == DiffuseUVs(ms[..i], atof)
      {
        MaterialSnoc(ms[..i], ms[i], atof);
        assert ms[..i + 1] == ms[..i] + [ms[i]];
        if ms[i].isDiffuse {
          if ms[i].index.Some? {
            idx := ms[i].index.value;
          }
          if idx > -1 {
            uvs := ParseVectorString(ms[i].uvText, atof, uvs, true);
          }
        }
        i := i + 1;
      }
      assert ms[..i] == ms;
    }

    /**
     * `WriteVertexChunk`: nothing is written when the normal or coordinate
     * counts differ from the vertex count; otherwise one record per vertex and
     * the box of the flipped positions, then the vertex chunk and its box
     * chunk. With no vertices the payload is empty and `Data.at(0)` throws:
     * `threw` is set and nothing is written.
     */
    method WriteVertexChunk(name: CStr, m: XmlModel, verts: seq<Vec3>, atof: CStr -> real) returns (threw: bool)
      requires verts == VerticesOf(m, atof) && TokensShort(m.normalsText) && UVTextsShort(m.materials)
      modifies this
      ensures threw == Throws(m, atof)
      ensures State() == if threw then old(State()) else Vertexed(old(State()), VertexChunksOf(name, m, verts, atof, old(State()).flips))
    {
      var normals := ParseVectorString(m.normalsText, atof, [], false);
      assert normals == VectorsOf(m.normalsText, atof, false);
      var idx, uvs := ReadDiffuseUVs(m.materials, atof);
      if |verts| != |normals| {
        return false;
      }
      if |verts| != |uvs| && idx > -1 {
        return false;
      }
      var f := Flips(FlipOnX, FlipOnY, FlipOnZ);
      var records, box := XmlVertexRecords(verts, normals, uvs, idx > -1, f);
      if records == [] {
        return true;
      }
      assert VertexChunksOf(name, m, verts, atof, f) == Wrote(VertexChunks(name, records, box));
      Written := Written + VertexChunks(name, records, box);
      threw := false;
    }

    /** The record loop: one record per vertex, and the running box of the flipped positions. */
    static method XmlVertexRecords(verts: seq<Vec3>, normals: seq<Vec3>, uvs: seq<Vec3>, textured: bool, f: Flips)
      returns (records: seq<Vertex>, box: Box)
      requires |verts| == |normals| && (textured ==> |uvs| == |verts|)
      ensures records == XmlRecords(verts, normals, uvs, textured, f, |verts|)
      ensures box == BoundsOf(FlipAll(verts, f))
    {
      records := [];
      box := EmptyBox();
      var k := 0;
      while k < |verts|
        invariant 0 <= k <= |verts|
        invariant records == XmlRecords(verts, normals, uvs, textured, f, k)
        invariant box == BoundsOf(FlipAll(verts[..k], f))
      {
        FlipStep(verts, f, k);
        var p := FlipVec(verts[k], f);
        box := Grow(box, p);
        records := records + [NormalsVertex(p, Set(FlipVec(normals[k], f)), if textured then Set(UV(uvs[k].x, uvs[k].y)) else Kept)];
        k := k + 1;
      }
      assert verts[..k] == verts;
    }

    /** The token scan: from `j + 1` to the next space or the end of the text. */
    static method ScanToken(t: CStr, j: nat) returns (k: nat)
      requires j < |t|
      ensures k == TokenEnd(t, j + 1)
    {
      k := j + 1;
      while k < |t| && t[k] != ' '
        invariant j + 1 <= k <= |t|
        invariant TokenEnd(t, k) == TokenEnd(t, j + 1)
        decreases |t| - k
      {
        k := k + 1;
      }
    }

    /** The copy of `t[j..k]` into the 20-character buffer, NUL-terminated; `text` is the C string it holds. */
    static method CopyToken(t: CStr, j: nat, k: nat) returns (text: CStr)
      requires j <= k <= |t| && k - j < 20 && NUL !in t
      ensures text == t[j..k]
    {
      var buffer := new char8[20](_ => NUL);
      var l := 0;
      while l < k - j
        invariant 0 <= l <= k - j
        invariant buffer[..l] == t[j..j + l]
      {
        buffer[l] := t[j + l];
        l := l + 1;
      }
      buffer[k - j] := NUL;
      CViewOfPrefix(buffer[..], k - j);
      text := CView(buffer[..]);
      assert buffer[..][..k - j] == t[j..k];
    }

    /**
     * One number of a vector list: it goes into `v` at `element`, and when it
     * completes the group, the vector of `v` is pushed and `element` restarts.
     * `vals` are the numbers read before it, and `out` holds `acc` followed by
     * their vectors.
     */
    static method PushNumber(v: array<real>, element: nat, x: real, out: seq<Vec3>, is2: bool,
                             ghost acc: seq<Vec3>, ghost vals: seq<real>)
      returns (element': nat, out': seq<Vec3>)
      requires v.Length == 3 && element == Phase(|vals|, is2) && out == acc + Group(vals, is2)
      requires v[..element] == vals[|vals| - element..]
      modifies v
      ensures element' == Phase(|vals + [x]|, is2) && out' == acc + Group(vals + [x], is2)
      ensures v[..element'] == (vals + [x])[|vals + [x]| - element'..]
    {
      ghost var pending := v[..element];
      GroupPush(vals, x, is2, pending);
      v[element] := x;
      if element == Stride(is2) - 1 {
        assert v[0] == pending[0] && (is2 || v[1] == pending[1]);
        out' := out + [Vec3(v[0], v[1], if is2 then 0.0 else v[2])];
        element' := 0;
      } else {
        assert v[..element + 1] == pending + [x];
        out' := out;
        element' := element + 1;
      }
      GroupSnoc(acc, out, out', vals, x, is2);
    }

    /** The token at `j` copied out of the text, and the position of the space (or end) after it. */
    static method NextToken(t: CStr, j: nat, ghost all: seq<CStr>, ghost toks: seq<CStr>) returns (k: nat, text: CStr)
      requires NUL !in t && j < |t| && AllShort(all)
      requires ReadUpTo(all, t, toks, j)
      ensures j < k <= |t| && text == t[j..k]
      ensures ReadUpTo(all, t, toks + [text], k + 1)
    {
      k := ScanToken(t, j);
      ReadToken(t, all, toks, j, k);
      assert |all[|toks|]| < 20;
      text := CopyToken(t, j, k);
    }

    /**
     * One turn of the `ParseVectorString` loop: the token at `j` is copied out
     * and read as a number into `v`, and the scan moves one past its end.
     * `all` are the tokens of the whole text, `toks` those read so far and
     * `vals` their numbers.
     */
    static method ParseTurn(t: CStr, j: nat, v: array<real>, element: nat, out: seq<Vec3>, atof: CStr -> real, is2: bool,
                            ghost acc: seq<Vec3>, ghost all: seq<CStr>, ghost toks: seq<CStr>, ghost vals: seq<real>)
      returns (j': nat, element': nat, out': seq<Vec3>, ghost toks': seq<CStr>, ghost vals': seq<real>)
      requires NUL !in t && j < |t| && AllShort(all)
      requires ReadUpTo(all, t, toks, j) && vals == Values(toks, atof)
      requires element == Phase(|vals|, is2) && out == acc + Group(vals, is2)
      requires v.Length == 3 && v[..element] == vals[|vals| - element..]
      modifies v
      ensures j < j' <= |t| + 1
      ensures ReadUpTo(all, t, toks', j') && vals' == Values(toks', atof)
      ensures element' == Phase(|vals'|, is2) && out' == acc + Group(vals', is2)
      ensures v[..element'] == vals'[|vals'| - element'..]
    {
      var k, text := NextToken(t, j, all, toks);
      var x := atof(text);
      ValuesSnoc(toks, text, atof);
      element', out' := PushNumber(v, element, x, out, is2, acc, vals);
      toks', vals' := toks + [text], vals + [x];
      j' := k + 1;
    }

    /**
     * `ParseVectorString`: the tokens of `str` are read in order into `v`, and
     * each completed group is pushed onto `acc` (the vector the caller passes) as one vector.
     */
    static method ParseVectorString(str: CStr, atof: CStr -> real, acc: seq<Vec3>, is2: bool) returns (out: seq<Vec3>)
      requires TokensShort(str)
      ensures out == acc + VectorsOf(str, atof, is2)
    {
      var t := CView(str);
      var element := 0;
      var v := new real[3];
      out := acc;
      ghost var all := Tokens(str);
      ghost var toks: seq<CStr> := [];
      ghost var vals: seq<real> := [];
      var j := 0;
      while j < |t|
        invariant NUL !in t && j <= |t| + 1
        invariant ReadUpTo(all, t, toks, j) && vals == Values(toks, atof)
        invariant element == Phase(|vals|, is2) && out == acc + Group(vals, is2)
        invariant v.Length == 3 && v[..element] == vals[|vals| - element..]
        decreases |t| + 1 - j
      {
        j, element, out, toks, vals := ParseTurn(t, j, v, element, out, atof, is2, acc, all, toks, vals);
      }
      assert TokensFrom(t, j) == [] && toks + [] == toks;
    }
  }
}
