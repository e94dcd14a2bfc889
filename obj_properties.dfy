/**
 * What the OBJ adapter's rules promise: one record per corner with the layout
 * the file's normals decide, a box holding every position, the material
 * fallback to the appended default, texture descriptors that never leave the
 * diffuse slot empty, and per shape a vertex chunk, its box chunk and one
 * "Model:<n>" chunk numbered from 0 in every export, until the first shape
 * without corners ends the program.
 */
module ObjProperties {
  import opened Wrappers
  import opened CText
  import opened StuText
  import opened ModelData
  import opened SceneExport
  import opened ObjScene

  // ---------------------------------------------------------------------------
  // Records and box of one shape

  /**
   * A record holds the corner's position; it carries the corner's normal, and
   * has the Normals layout, exactly when the file has normals; it carries a
   * texture coordinate exactly when the file has texture coordinates and the
   * corner names one, and then its v is the stored v, or one minus it when
   * flipping.
   */
  lemma RecordOfCorner(a: ObjAttrib, ix: ObjIndex, flip: bool)
    requires IndexValid(a, ix)
    ensures var r := RecordAt(a, ix, flip);
      && r.position == PositionAt(a, ix)
      && (r.Layout() == Normals <==> |a.normals| > 0)
      && (r.Layout() != Normals ==> r.Layout() == Textured)
      && (|a.normals| > 0 ==> r.normal == Set(NormalAt(a, ix)))
    ensures var r := RecordAt(a, ix, flip);
      && (r.texcoord.Set? <==> |a.texcoords| > 0 && ix.texcoord >= 0)
      && (r.texcoord.Set? ==> r.texcoord.value.u == a.texcoords[2 * ix.texcoord])
      && (r.texcoord.Set? && !flip ==> r.texcoord.value.v == a.texcoords[2 * ix.texcoord + 1])
      && (r.texcoord.Set? && flip ==> r.texcoord.value.v + a.texcoords[2 * ix.texcoord + 1] == 1.0)
  {
  }

  /**
   * The vertex chunk of a shape holds one record per corner, in corner order,
   * all of one layout; the box chunk follows it under "<name>BB" and its box
   * holds the position of every corner.
   */
  lemma MeshChunksShape(name: CStr, a: ObjAttrib, ixs: seq<ObjIndex>, flip: bool)
    requires IndicesValid(a, ixs)
    ensures var cs := MeshChunks(name, a, ixs, flip);
      && |cs| == 2 && cs[0].name == name && cs[1].name == BBName(name)
      && |cs[0].data| == |ixs|
      && (forall i :: 0 <= i < |ixs| ==> cs[0].data[i] == Record(RecordAt(a, ixs[i], flip)))
    ensures var cs := MeshChunks(name, a, ixs, flip); var b := BoundsOf(Positions(a, ixs));
      && cs[1].data == BoxFields(b)
      && (forall i :: 0 <= i < |ixs| ==> Inside(b, PositionAt(a, ixs[i])))
  {
    BoundsContain(Positions(a, ixs));
  }

  /** Each bound of a shape's box is the coordinate of one of its corners, unless it is still the empty box's. */
  lemma MeshBoxAttained(a: ObjAttrib, ixs: seq<ObjIndex>, k: nat)
    requires IndicesValid(a, ixs) && k < 3
    ensures var b := BoundsOf(Positions(a, ixs));
      Coord(b.lo, k) == FLT_MAX || exists i :: 0 <= i < |ixs| && Coord(b.lo, k) == Coord(PositionAt(a, ixs[i]), k)
    ensures var b := BoundsOf(Positions(a, ixs));
      Coord(b.hi, k) == -FLT_MAX || exists i :: 0 <= i < |ixs| && Coord(b.hi, k) == Coord(PositionAt(a, ixs[i]), k)
  {
    BoundsAttained(Positions(a, ixs), k);
  }

  // ---------------------------------------------------------------------------
  // Materials and texture descriptors

  /** A first-face id picks the file's material it names; a negative id or one past the file's materials picks the default material. */
  lemma MaterialChoice(f: ObjFile, solid: Vec3, id: int)
    ensures MaterialFor(AllMaterials(f, solid), id)
         == if 0 <= id < |f.materials| then f.materials[id] else DefaultMaterial(solid)
  {
  }

  /**
   * The default material is written as the solid colour three times,
   * shininess 8, alpha 1, the colour diffuse entry with alpha 1, and no
   * height texture.
   */
  lemma DefaultSurface(solid: Vec3)
    ensures SurfaceFields(DefaultMaterial(solid))
         == [Color(solid), Color(solid), Color(solid), F32(8.0), F32(1.0),
             U32(ColorDiffuse.Code()), F32(1.0), U32(UnknownTexture.Code())]
  {
    assert CView([]) == [];
    assert RemoveFoldersFromPaths([]) == [];
  }

  /**
   * The diffuse descriptor is never empty: a diffuse texture with a non-empty
   * name without backslashes when the material names a file, otherwise the
   * colour entry with the written alpha.
   */
  lemma DiffuseSlotKinds(m: ObjMaterial)
    ensures DiffuseSlot(m) != NoTexture
    ensures DiffuseSlot(m).Named? <==> |RemoveFoldersFromPaths(CView(m.diffuseTexname))| > 0
    ensures DiffuseSlot(m).Named? ==> DiffuseSlot(m).kind == Diffuse && |DiffuseSlot(m).name| > 0
    ensures DiffuseSlot(m).ColorAlpha? ==> DiffuseSlot(m).alpha == AlphaOf(m)
  {
  }

  /** The height descriptor is a height texture or nothing, never a colour entry. */
  lemma HeightSlotKinds(m: ObjMaterial)
    ensures !HeightSlot(m).ColorAlpha?
    ensures HeightSlot(m).Named? <==> |RemoveFoldersFromPaths(CView(m.bumpTexname))| > 0
    ensures HeightSlot(m).Named? ==> HeightSlot(m).kind == Height && |HeightSlot(m).name| > 0
  {
  }

  // ---------------------------------------------------------------------------
  // The chunks of one shape

  /** A shape with corners appends its vertex chunk pair and then its Model chunk, and advances its counters by one. */
  lemma ShapeWrites(st: ObjState, a: ObjAttrib, all: seq<ObjMaterial>, s: ObjShape)
    requires |all| > 0 && ShapeValid(a, s) && |s.indices| > 0
    ensures var r := ShapeState(st, a, all, s);
      && r.written == st.written + MeshChunks(VxName(st.vertexChunks), a, s.indices, st.flip)
                      + [Chunk(ModelName(st.models), ShapeData(st, all, s))]
      && r.models == st.models + 1 && r.vertexChunks == st.vertexChunks + 1
      && r.nodeIds == st.nodeIds + 1 && r.meshIds == st.meshIds + 1
      && r.flip == st.flip && r.solid == st.solid && r.entries == st.entries
  {
  }

  /** A shape appends its vertex chunk, the box chunk and its Model chunk, in that order, and nothing else. */
  lemma ShapeChunkOrder(st: ObjState, a: ObjAttrib, all: seq<ObjMaterial>, s: ObjShape)
    requires |all| > 0 && ShapeValid(a, s) && |s.indices| > 0
    ensures var r := ShapeState(st, a, all, s);
      && |st.written| <= |r.written| && r.written[..|st.written|] == st.written
    ensures var w := ShapeState(st, a, all, s).written[|st.written|..];
      && |w| == 3
      && w[0].name == VxName(st.vertexChunks) && w[1].name == BBName(w[0].name)
      && w[2].name == ModelName(st.models)
  {
    ShapeWrites(st, a, all, s);
    ThreeChunksNamed(st.written, MeshChunks(VxName(st.vertexChunks), a, s.indices, st.flip),
                     Chunk(ModelName(st.models), ShapeData(st, all, s)), ShapeState(st, a, all, s).written);
  }

  /**
   * The Model chunk of a shape has as vertex count the number of records in
   * the shape's vertex chunk and an index count of 0; its layout tag says
   * Normals although the records carry normals only when the file has
   * normals.
   */
  lemma ShapeChunksAgree(st: ObjState, a: ObjAttrib, all: seq<ObjMaterial>, s: ObjShape)
    requires |all| > 0 && ShapeValid(a, s) && |s.indices| > 0
    ensures var w := ShapeState(st, a, all, s).written;
      && |w| == |st.written| + 3
      && |w[|w| - 1].data| > 10
      && w[|w| - 1].data[8] == U32(|w[|w| - 3].data|)
      && w[|w| - 1].data[9] == U32(Normals.Code()) && w[|w| - 1].data[10] == U32(0)
    ensures var w := ShapeState(st, a, all, s).written; var d := w[|w| - 3].data;
      forall i :: 0 <= i < |d| ==> d[i].Record? && (d[i].v.Layout() == Normals <==> |a.normals| > 0)
  {
    ShapeWrites(st, a, all, s);
    MeshChunksShape(VxName(st.vertexChunks), a, s.indices, st.flip);
    MeshRecordsLayout(VxName(st.vertexChunks), a, s.indices, st.flip);
    ShapeDataCounts(st, all, s);
    LastThree(st.written, MeshChunks(VxName(st.vertexChunks), a, s.indices, st.flip),
              Chunk(ModelName(st.models), ShapeData(st, all, s)), ShapeState(st, a, all, s).written);
  }

  lemma LastThree(w0: seq<Chunk>, mesh: seq<Chunk>, model: Chunk, w: seq<Chunk>)
    requires w == w0 + mesh + [model] && |mesh| == 2
    ensures |w| == |w0| + 3 && w[|w| - 3] == mesh[0] && w[|w| - 1] == model
  {
  }

  /** Every entry of a shape's vertex chunk is a record whose layout is Normals exactly when the file has normals. */
  lemma MeshRecordsLayout(name: CStr, a: ObjAttrib, ixs: seq<ObjIndex>, flip: bool)
    requires IndicesValid(a, ixs)
    ensures var d := MeshChunks(name, a, ixs, flip)[0].data;
      forall i :: 0 <= i < |d| ==> d[i].Record? && (d[i].v.Layout() == Normals <==> |a.normals| > 0)
  {
    MeshChunksShape(name, a, ixs, flip);
    forall i | 0 <= i < |ixs|
      ensures RecordAt(a, ixs[i], flip).Layout() == Normals <==> |a.normals| > 0
    {
      RecordOfCorner(a, ixs[i], flip);
    }
  }

  /** The corner count, the Normals tag and the empty index list sit at fields 8, 9 and 10 of a shape's Model chunk. */
  lemma ShapeDataCounts(st: ObjState, all: seq<ObjMaterial>, s: ObjShape)
    requires |all| > 0 && |s.materialIds| > 0
    ensures var d := ShapeData(st, all, s);
      && |d| > 10 && d[8] == U32(|s.indices|) && d[9] == U32(Normals.Code()) && d[10] == U32(0)
  {
    var nodeName := NodeName(s.name, st.nodeIds);
    ConcatIndex(ShapeHead(nodeName, MeshName(nodeName, s.name, st.meshIds), s), SHAPE_TAIL,
                SurfaceFields(MaterialFor(all, s.materialIds[0])), ShapeData(st, all, s));
  }

  lemma ConcatIndex(head: seq<Field>, tail: seq<Field>, rest: seq<Field>, d: seq<Field>)
    requires d == head + tail + rest
    ensures |d| >= |head| + |tail|
    ensures forall i :: 0 <= i < |head| ==> d[i] == head[i]
    ensures forall i :: 0 <= i < |tail| ==> d[|head| + i] == tail[i]
  {
  }

  lemma ThreeChunks(w0: seq<Chunk>, mesh: seq<Chunk>, model: Chunk, w: seq<Chunk>)
    requires w == w0 + mesh + [model] && |mesh| == 2
    ensures |w0| <= |w| && w[..|w0|] == w0 && w[|w0|..] == [mesh[0], mesh[1], model]
  {
    AppendAssoc(w0, mesh, [model]);
    AppendSplit(w0, mesh + [model]);
  }

  /** `ThreeChunks`, read off as the names of the three appended chunks. */
  lemma ThreeChunksNamed(w0: seq<Chunk>, mesh: seq<Chunk>, model: Chunk, w: seq<Chunk>)
    requires w == w0 + mesh + [model] && |mesh| == 2
    ensures |w0| <= |w| && w[..|w0|] == w0
    ensures var t := w[|w0|..]; |t| == 3 && t[0].name == mesh[0].name && t[1].name == mesh[1].name && t[2].name == model.name
  {
    ThreeChunks(w0, mesh, model, w);
  }

  // ---------------------------------------------------------------------------
  // The shape loop

  /**
   * From `a` to `b` the adapter appended `n` Model chunks numbered on from its
   * model count and advanced its counters by `n`.
   */
  ghost predicate Advance(a: ObjState, b: ObjState, n: nat)
  {
    && AppendsModels(a.written, b.written, a.models, n)
    && b.models == a.models + n && b.vertexChunks == a.vertexChunks + n
    && b.nodeIds == a.nodeIds + n && b.meshIds == a.meshIds + n
    && b.flip == a.flip && b.solid == a.solid && b.entries == a.entries
  }

  lemma AdvanceTrans(a: ObjState, b: ObjState, c: ObjState, n1: nat, n2: nat)
    requires Advance(a, b, n1) && Advance(b, c, n2)
    ensures Advance(a, c, n1 + n2)
  {
    AppendsCompose(a.written, b.written, c.written, a.models, n1, n2);
  }

  /** A shape with corners writes one Model chunk, numbered next, and advances every counter by one. */
  lemma ShapeAdvance(st: ObjState, a: ObjAttrib, all: seq<ObjMaterial>, s: ObjShape)
    requires |all| > 0 && ShapeValid(a, s) && |s.indices| > 0
    ensures Advance(st, ShapeState(st, a, all, s), 1)
  {
    var w1 := st.written + MeshChunks(VxName(st.vertexChunks), a, s.indices, st.flip);
    ShapeWrites(st, a, all, s);
    AppendsVertexChunks(st.written, st.models, st.vertexChunks, Records(a, s.indices, st.flip), BoundsOf(Positions(a, s.indices)));
    AppendsModelChunk(w1, st.models, ShapeData(st, all, s));
    AdvanceByOne(st, ShapeState(st, a, all, s), w1, Chunk(ModelName(st.models), ShapeData(st, all, s)));
  }

  lemma AdvanceByOne(st: ObjState, r: ObjState, w1: seq<Chunk>, model: Chunk)
    requires AppendsModels(st.written, w1, st.models, 0) && AppendsModels(w1, w1 + [model], st.models, 1)
    requires r.written == w1 + [model]
    requires r.models == st.models + 1 && r.vertexChunks == st.vertexChunks + 1
    requires r.nodeIds == st.nodeIds + 1 && r.meshIds == st.meshIds + 1
    requires r.flip == st.flip && r.solid == st.solid && r.entries == st.entries
    ensures Advance(st, r, 1)
  {
    AppendsCompose(st.written, w1, w1 + [model], st.models, 0, 1);
  }

  /** The first `k` shapes write `k` Model chunks numbered on from the model count. */
  lemma {:induction false} ShapesAdvance(st: ObjState, a: ObjAttrib, all: seq<ObjMaterial>, shapes: seq<ObjShape>, k: nat)
    requires |all| > 0 && k <= |shapes| && ShapesValid(a, shapes)
    requires forall j :: 0 <= j < k ==> |shapes[j].indices| > 0
    ensures Advance(st, ShapesState(st, a, all, shapes, k), k)
  {
    if k == 0 {
      AppendsNothing(st.written, st.models);
    } else {
      ShapesAdvance(st, a, all, shapes, k - 1);
      StepAdvance(st, a, all, shapes, k);
      AdvanceTrans(st, ShapesState(st, a, all, shapes, k - 1), ShapesState(st, a, all, shapes, k), k - 1, 1);
    }
  }

  lemma StepAdvance(st: ObjState, a: ObjAttrib, all: seq<ObjMaterial>, shapes: seq<ObjShape>, k: nat)
    requires |all| > 0 && 0 < k <= |shapes| && ShapesValid(a, shapes)
    requires forall j :: 0 <= j < k ==> |shapes[j].indices| > 0
    ensures Advance(ShapesState(st, a, all, shapes, k - 1), ShapesState(st, a, all, shapes, k), 1)
  {
    ShapeAdvance(ShapesState(st, a, all, shapes, k - 1), a, all, shapes[k - 1]);
  }

  /** Different counters give different node names, whatever the shapes' own names. */
  lemma NodeNameCounterDistinct(n1: CStr, k1: nat, n2: CStr, k2: nat)
    requires k1 != k2
    ensures NodeName(n1, k1) != NodeName(n2, k2)
  {
    DisplayNameCounterDistinct(NODE_PREFIX, n1, k1, n2, k2);
  }

  /** Within one export shape `k` is named with node counter `nodeIds + k`. */
  lemma {:induction false} ShapesCounters(st: ObjState, a: ObjAttrib, all: seq<ObjMaterial>, shapes: seq<ObjShape>, k: nat)
    requires |all| > 0 && k <= |shapes| && ShapesValid(a, shapes)
    requires forall j :: 0 <= j < k ==> |shapes[j].indices| > 0
    ensures ShapesState(st, a, all, shapes, k).nodeIds == st.nodeIds + k
  {
    if k > 0 {
      ShapesCounters(st, a, all, shapes, k - 1);
      ShapeWrites(ShapesState(st, a, all, shapes, k - 1), a, all, shapes[k - 1]);
    }
  }

  // ---------------------------------------------------------------------------
  // The whole export

  /**
   * A file that does not load returns false and writes nothing. A file that
   * loads never returns false: it returns true exactly when every shape has
   * corners, having written one Model chunk per shape numbered from 0; the
   * first shape without corners ends the program after the Model chunks of
   * the shapes before it, having advanced the node and mesh counters once
   * more. The node and mesh counters carry on from earlier exports, while
   * the model and vertex-chunk numbers restart at 0.
   */
  lemma ExportOutcome(st: ObjState, file: Option<ObjFile>, flip: bool)
    requires file.Some? ==> ShapesValid(file.value.attrib, file.value.shapes)
    ensures file.None? ==> Export(st, file, flip).0 == Returned(false) && Export(st, file, flip).1.written == st.written
    ensures file.Some? ==> Export(st, file, flip).0 != Returned(false)
    ensures file.Some? ==>
      (Export(st, file, flip).0 == Returned(true) <==> forall j :: 0 <= j < |file.value.shapes| ==> |file.value.shapes[j].indices| > 0)
    ensures file.Some? ==>
      var k := FirstEmpty(file.value.shapes); var r := Export(st, file, flip);
      var extra := if r.0 == Terminated then 1 else 0;
      && AppendsModels(st.written, r.1.written, 0, k)
      && r.1.models == k && r.1.vertexChunks == k + extra
      && r.1.nodeIds == st.nodeIds + k + extra && r.1.meshIds == st.meshIds + k + extra
      && r.1.flip == flip && r.1.entries == ZeroEntries(|file.value.shapes|)
  {
    if file.Some? {
      var f := file.value;
      var s0 := Restart(st, flip).(entries := ZeroEntries(|f.shapes|));
      var k := FirstEmpty(f.shapes);
      ShapesAdvance(s0, f.attrib, AllMaterials(f, s0.solid), f.shapes, k);
      assert k < |f.shapes| ==> !(forall j :: 0 <= j < |f.shapes| ==> |f.shapes[j].indices| > 0);
    }
  }
}
