/**
 * The OBJ adapter's flattening rules, as functions over a loaded OBJ file:
 * the de-indexed vertex records of a shape with their bounding box, the
 * material a shape picks, its texture descriptors, and the one "Model:<n>"
 * chunk written per shape. `ObjExport` runs the same steps on the adapter's
 * fields and is proved to agree.
 */
module ObjScene {
  import opened Wrappers
  import opened CText
  import opened StuText
  import opened ModelData
  import opened SceneExport

  // ---------------------------------------------------------------------------
  // The loaded file

  /** One corner of a face: indices into the position, normal and texture coordinate arrays; -1 means absent. */
  datatype ObjIndex = ObjIndex(vertex: int, normal: int, texcoord: int)

  /** The flat attribute arrays: three reals per position and per normal, two per texture coordinate. */
  datatype ObjAttrib = ObjAttrib(vertices: seq<real>, normals: seq<real>, texcoords: seq<real>)

  /** A shape: its name, the corners of its faces in face order, and one material id per face. */
  datatype ObjShape = ObjShape(name: CStr, indices: seq<ObjIndex>, materialIds: seq<int>)

  /** The material fields the export reads. */
  datatype ObjMaterial = ObjMaterial(
    ambient: Vec3, diffuse: Vec3, specular: Vec3, shininess: real, dissolve: real,
    diffuseTexname: CStr, bumpTexname: CStr)

  datatype ObjFile = ObjFile(attrib: ObjAttrib, shapes: seq<ObjShape>, materials: seq<ObjMaterial>)

  /**
   * The reads of one corner stay inside the arrays. The source asserts a
   * non-negative position index, and a non-negative normal index when the
   * file has normals; reading past the end of an array is undefined.
   */
  predicate IndexValid(a: ObjAttrib, ix: ObjIndex)
  {
    && 0 <= ix.vertex && 3 * ix.vertex + 2 < |a.vertices|
    && (|a.normals| > 0 ==> 0 <= ix.normal && 3 * ix.normal + 2 < |a.normals|)
    && (|a.texcoords| > 0 && ix.texcoord >= 0 ==> 2 * ix.texcoord + 1 < |a.texcoords|)
  }

  predicate IndicesValid(a: ObjAttrib, ixs: seq<ObjIndex>)
  {
    forall i :: 0 <= i < |ixs| ==> IndexValid(a, ixs[i])
  }

  /** A shape the export can read: valid corners, and a first material id whenever it has corners. */
  predicate ShapeValid(a: ObjAttrib, s: ObjShape)
  {
    IndicesValid(a, s.indices) && (|s.indices| > 0 ==> |s.materialIds| > 0)
  }

  /**
   * The shapes the loop reaches can be read: every shape before the first
   * without corners. That shape throws before any of its own reads, and the
   * shapes after it are never reached.
   */
  predicate ShapesValid(a: ObjAttrib, shapes: seq<ObjShape>)
  {
    forall j :: 0 <= j < FirstEmpty(shapes) ==> ShapeValid(a, shapes[j])
  }

  // ---------------------------------------------------------------------------
  // De-indexed vertex records

  function PositionAt(a: ObjAttrib, ix: ObjIndex): Vec3
    requires IndexValid(a, ix)
  {
    var f := 3 * ix.vertex;
    Vec3(a.vertices[f], a.vertices[f + 1], a.vertices[f + 2])
  }

  function NormalAt(a: ObjAttrib, ix: ObjIndex): Vec3
    requires IndexValid(a, ix) && |a.normals| > 0
  {
    var f := 3 * ix.normal;
    Vec3(a.normals[f], a.normals[f + 1], a.normals[f + 2])
  }

  /** The texture coordinate, y flipped on request, when the file has texture coordinates and the corner names one. */
  function TexcoordAt(a: ObjAttrib, ix: ObjIndex, flip: bool): Slot<UV>
    requires IndexValid(a, ix)
  {
    if |a.texcoords| > 0 && ix.texcoord >= 0 then
      var t := 2 * ix.texcoord;
      Set(FlipV(UV(a.texcoords[t], a.texcoords[t + 1]), flip))
    else Kept
  }

  /** The record of one corner: with a normal when the file has any normals, textured otherwise. */
  function RecordAt(a: ObjAttrib, ix: ObjIndex, flip: bool): Vertex
    requires IndexValid(a, ix)
  {
    if |a.normals| > 0 then NormalsVertex(PositionAt(a, ix), Set(NormalAt(a, ix)), TexcoordAt(a, ix, flip))
    else TexturedVertex(PositionAt(a, ix), TexcoordAt(a, ix, flip))
  }

  /** One record per corner, in corner order. */
  function Records(a: ObjAttrib, ixs: seq<ObjIndex>, flip: bool): (r: seq<Vertex>)
    requires IndicesValid(a, ixs)
    ensures |r| == |ixs|
    ensures forall i :: 0 <= i < |ixs| ==> r[i] == RecordAt(a, ixs[i], flip)
  {
    if ixs == [] then [] else Records(a, ixs[..|ixs| - 1], flip) + [RecordAt(a, ixs[|ixs| - 1], flip)]
  }

  function Positions(a: ObjAttrib, ixs: seq<ObjIndex>): (r: seq<Vec3>)
    requires IndicesValid(a, ixs)
    ensures |r| == |ixs|
    ensures forall i :: 0 <= i < |ixs| ==> r[i] == PositionAt(a, ixs[i])
  {
    if ixs == [] then [] else Positions(a, ixs[..|ixs| - 1]) + [PositionAt(a, ixs[|ixs| - 1])]
  }

  /** One more corner: one more record, and the box grown by its position. */
  lemma RecordsStep(a: ObjAttrib, ixs: seq<ObjIndex>, f: nat, flip: bool)
    requires IndicesValid(a, ixs) && f < |ixs|
    ensures Records(a, ixs[..f + 1], flip) == Records(a, ixs[..f], flip) + [RecordAt(a, ixs[f], flip)]
    ensures BoundsOf(Positions(a, ixs[..f + 1])) == Grow(BoundsOf(Positions(a, ixs[..f])), PositionAt(a, ixs[f]))
  {
    assert ixs[..f + 1][..f] == ixs[..f];
    var ps := Positions(a, ixs[..f + 1]);
    assert ps[..|ps| - 1] == Positions(a, ixs[..f]);
  }

  /** The vertex chunk of a shape and its box chunk. */
  function MeshChunks(name: CStr, a: ObjAttrib, ixs: seq<ObjIndex>, flip: bool): seq<Chunk>
    requires IndicesValid(a, ixs)
  {
    VertexChunks(name, Records(a, ixs, flip), BoundsOf(Positions(a, ixs)))
  }

  // ---------------------------------------------------------------------------
  // Material and texture descriptors

  /** `0.001f`, the float nearest to one thousandth. */
  const ALPHA_FLOOR: real := 0.001000000047497451305389404296875

  /** The material appended after the file's own: the solid colour for all three colours, shininess 8, dissolve 1, no textures. */
  function DefaultMaterial(solid: Vec3): ObjMaterial
  {
    ObjMaterial(solid, solid, solid, 8.0, 1.0, [], [])
  }

  /** The material of a first-face id: an id outside the list selects the last entry, the appended default. */
  function MaterialFor(all: seq<ObjMaterial>, id: int): ObjMaterial
    requires |all| > 0
  {
    if id < 0 || id >= |all| then all[|all| - 1] else all[id]
  }

  /** The dissolve value, with a value below 0.001 replaced by 1. */
  function AlphaOf(m: ObjMaterial): (alpha: real)
    ensures alpha >= ALPHA_FLOOR
    ensures alpha == m.dissolve || alpha == 1.0
  {
    if m.dissolve < ALPHA_FLOOR then 1.0 else m.dissolve
  }

  function SurfaceOf(m: ObjMaterial): Material
  {
    Material(m.ambient, m.diffuse, m.specular, m.shininess, AlphaOf(m))
  }

  /** The diffuse descriptor: the folder-stripped, rewritten texture name, or the colour entry with the alpha. */
  function DiffuseSlot(m: ObjMaterial): TextureSlot
  {
    var file := RemoveFoldersFromPaths(CView(m.diffuseTexname));
    if |file| > 0 then Named(Diffuse, ReplaceUnrecognizedInternalTextureFormats(file).name)
    else ColorAlpha(AlphaOf(m))
  }

  /** The height descriptor: the folder-stripped, rewritten bump texture name, or none. */
  function HeightSlot(m: ObjMaterial): TextureSlot
  {
    var file := RemoveFoldersFromPaths(CView(m.bumpTexname));
    if |file| > 0 then Named(Height, ReplaceUnrecognizedInternalTextureFormats(file).name)
    else NoTexture
  }

  function SurfaceFields(m: ObjMaterial): seq<Field>
  {
    MaterialFields(SurfaceOf(m)) + SlotFields(DiffuseSlot(m)) + SlotFields(HeightSlot(m))
  }

  // ---------------------------------------------------------------------------
  // The adapter's state and one shape

  /**
   * The fields of the adapter the export reads or changes: `m_TotalMeshCount`,
   * the model and vertex-chunk counters, `m_Entries`, the flip flag, the
   * node-name counter `m_uUniqueOBJUnknownID`, the function-static mesh-name
   * counter, the solid colour of the default material, and the chunks
   * appended to the `.stu` file.
   */
  datatype ObjState = ObjState(
    totalMeshes: nat,
    models: nat,
    vertexChunks: nat,
    entries: seq<nat>,
    flip: bool,
    nodeIds: nat,
    meshIds: nat,
    solid: Vec3,
    written: seq<Chunk>)

  /** The display name of a shape's node: "OBJ.(<name>-k)" or "OBJ.(UNKNOWN-k)". */
  function NodeName(name: CStr, k: nat): CStr
  {
    DisplayName(NODE_PREFIX, name, k)
  }

  const NODE_PREFIX: CStr := "OBJ."

  function MeshName(nodeName: CStr, name: CStr, k: nat): CStr
  {
    DisplayName(nodeName + ".mesh", name, k)
  }

  /** The start of a shape's Model chunk: no children, the two names, the identity matrix, one mesh with its two names, no animation, the corner count and the Normals tag. */
  function ShapeHead(nodeName: CStr, meshName: CStr, s: ObjShape): seq<Field>
  {
    [U32(0), Text(nodeName), Text(s.name), Matrix(Identity), U32(1),
     Text(meshName), Text(s.name), U32(0), U32(|s.indices|), U32(Normals.Code())]
  }

  /** After the vertex chunk: an empty index list, the triangle tag and two-sided 0. */
  const SHAPE_TAIL: seq<Field> := [U32(0), U32(Triangle.Code()), U32(0)]

  /** The Model chunk payload of a shape: head, tail, and the surface of the first face's material. */
  function ShapeData(st: ObjState, all: seq<ObjMaterial>, s: ObjShape): seq<Field>
    requires |all| > 0 && |s.materialIds| > 0
  {
    var nodeName := NodeName(s.name, st.nodeIds);
    ShapeHead(nodeName, MeshName(nodeName, s.name, st.meshIds), s) + SHAPE_TAIL
    + SurfaceFields(MaterialFor(all, s.materialIds[0]))
  }

  /** The three counters a shape advances before its vertex chunk is written. */
  function Counted(st: ObjState): ObjState
  {
    st.(nodeIds := st.nodeIds + 1, meshIds := st.meshIds + 1, vertexChunks := st.vertexChunks + 1)
  }

  /** The vertex chunk pair of a shape appended under `name`. */
  function Vertexed(st: ObjState, name: CStr, a: ObjAttrib, ixs: seq<ObjIndex>): ObjState
    requires IndicesValid(a, ixs)
  {
    st.(written := st.written + MeshChunks(name, a, ixs, st.flip))
  }

  /** A Model chunk appended under the next number. */
  function Closed(st: ObjState, data: seq<Field>): ObjState
  {
    st.(models := st.models + 1, written := st.written + [Chunk(ModelName(st.models), data)])
  }

  /** A shape with corners: its three counters, its vertex chunk pair, then its Model chunk. */
  function ShapeState(st: ObjState, a: ObjAttrib, all: seq<ObjMaterial>, s: ObjShape): ObjState
    requires |all| > 0 && ShapeValid(a, s) && |s.indices| > 0
  {
    Closed(Vertexed(Counted(st), VxName(st.vertexChunks), a, s.indices), ShapeData(st, all, s))
  }

  /** The state after the shape loop has exported shapes `0..k-1`, all before the first shape without corners. */
  function ShapesState(st: ObjState, a: ObjAttrib, all: seq<ObjMaterial>, shapes: seq<ObjShape>, k: nat): ObjState
    requires |all| > 0 && ShapesValid(a, shapes) && k <= FirstEmpty(shapes)
    decreases k, 0
  {
    if k == 0 then st else AfterShape(st, a, all, shapes, k - 1)
  }

  function AfterShape(st: ObjState, a: ObjAttrib, all: seq<ObjMaterial>, shapes: seq<ObjShape>, i: nat): ObjState
    requires |all| > 0 && ShapesValid(a, shapes) && i < FirstEmpty(shapes)
    decreases i, 1
  {
    ShapeState(ShapesState(st, a, all, shapes, i), a, all, shapes[i])
  }

  /** `st` is the state after the first `k` shapes, all of them with corners, have been exported from `s1`. */
  predicate AtShape(st: ObjState, s1: ObjState, a: ObjAttrib, all: seq<ObjMaterial>, shapes: seq<ObjShape>, k: nat)
    requires |all| > 0 && ShapesValid(a, shapes)
  {
    k <= FirstEmpty(shapes) && st == ShapesState(s1, a, all, shapes, k)
  }

  /** A shape with corners after the first `k` takes the loop to `k + 1`. */
  lemma AtShapeStep(st: ObjState, s1: ObjState, a: ObjAttrib, all: seq<ObjMaterial>, shapes: seq<ObjShape>, k: nat)
    requires |all| > 0 && ShapesValid(a, shapes) && k < |shapes| && |shapes[k].indices| > 0
    requires AtShape(st, s1, a, all, shapes, k)
    ensures AtShape(ShapeState(st, a, all, shapes[k]), s1, a, all, shapes, k + 1)
  {
    NextCornered(shapes, k);
    ShapesStep(s1, a, all, shapes, k);
  }

  lemma NextCornered(shapes: seq<ObjShape>, k: nat)
    requires k < |shapes| && |shapes[k].indices| > 0 && k <= FirstEmpty(shapes)
    ensures k < FirstEmpty(shapes)
  {
  }

  lemma ShapesStep(s1: ObjState, a: ObjAttrib, all: seq<ObjMaterial>, shapes: seq<ObjShape>, k: nat)
    requires |all| > 0 && ShapesValid(a, shapes) && k < FirstEmpty(shapes)
    ensures ShapesState(s1, a, all, shapes, k + 1) == ShapeState(ShapesState(s1, a, all, shapes, k), a, all, shapes[k])
  {
  }

  /** The index of the first shape without corners, or the number of shapes. */
  function FirstEmpty(shapes: seq<ObjShape>): (k: nat)
    ensures k <= |shapes|
    ensures forall j :: 0 <= j < k ==> |shapes[j].indices| > 0
    ensures k < |shapes| ==> |shapes[k].indices| == 0
  {
    if shapes == [] || |shapes[0].indices| == 0 then 0
    else
      var k := FirstEmpty(shapes[1..]);
      assert forall j :: 1 <= j < k + 1 ==> shapes[j] == shapes[1..][j - 1];
      k + 1
  }

  // ---------------------------------------------------------------------------
  // The whole export

  /** The resets `ExportToSTUFormat` performs before loading the file. */
  function Restart(st: ObjState, flip: bool): ObjState
  {
    st.(models := 0, vertexChunks := 0, flip := flip, entries := [], totalMeshes := 0)
  }

  /** `m_Entries.resize(n)` on an empty vector: `n` entries with base vertex 0. */
  function ZeroEntries(n: nat): (r: seq<nat>)
    ensures |r| == n && forall i :: 0 <= i < n ==> r[i] == 0
  {
    seq(n, _ => 0)
  }

  /** The file's materials with the default material appended. */
  function AllMaterials(f: ObjFile, solid: Vec3): (r: seq<ObjMaterial>)
    ensures |r| == |f.materials| + 1
  {
    f.materials + [DefaultMaterial(solid)]
  }

  /** The shape loop: every shape when all have corners, else up to the first without, which ends the program. */
  function RunShapes(st: ObjState, f: ObjFile): (ExportResult, ObjState)
    requires ShapesValid(f.attrib, f.shapes)
  {
    var k := FirstEmpty(f.shapes);
    var s := ShapesState(st, f.attrib, AllMaterials(f, st.solid), f.shapes, k);
    if k == |f.shapes| then (Returned(true), s) else (Terminated, Counted(s))
  }

  /** The loop has passed every shape. */
  lemma RunShapesDone(st: ObjState, s1: ObjState, f: ObjFile)
    requires ShapesValid(f.attrib, f.shapes)
    requires AtShape(st, s1, f.attrib, AllMaterials(f, s1.solid), f.shapes, |f.shapes|)
    ensures RunShapes(s1, f) == (Returned(true), st)
  {
  }

  /** The loop has stopped at shape `k`, which has no corners. */
  lemma RunShapesThrown(st: ObjState, s1: ObjState, f: ObjFile, k: nat)
    requires ShapesValid(f.attrib, f.shapes) && k < |f.shapes| && |f.shapes[k].indices| == 0
    requires AtShape(st, s1, f.attrib, AllMaterials(f, s1.solid), f.shapes, k)
    ensures RunShapes(s1, f) == (Terminated, Counted(st))
  {
    assert FirstEmpty(f.shapes) == k;
  }

  /**
   * `ExportToSTUFormat(path, bFlipUV)`; `file` is `None` when loading fails.
   * The shape loop runs until a shape without corners, whose empty vertex
   * payload makes `Data.at(0)` throw.
   */
  function Export(st: ObjState, file: Option<ObjFile>, flip: bool): (ExportResult, ObjState)
    requires file.Some? ==> ShapesValid(file.value.attrib, file.value.shapes)
  {
    var s0 := Restart(st, flip);
    if file.None? then (Returned(false), s0)
    else RunShapes(s0.(entries := ZeroEntries(|file.value.shapes|)), file.value)
  }
}
