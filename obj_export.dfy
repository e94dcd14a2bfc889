/**
 * The OBJ adapter (`C3DModelOBJ`) as a class over its own fields. Each method
 * performs the source's steps on those fields and is proved to leave them as
 * the matching function of `ObjScene` says.
 */
module ObjExport {
  import opened Wrappers
  import opened CText
  import opened StuText
  import opened ModelData
  import opened SceneExport
  import opened ObjScene

  class ObjAdapter {
    var TotalMeshCount: nat
    var SubModelCount: nat
    var SubModelVertexCount: nat
    var Entries: seq<nat>
    var FlipUVonY: bool
    /** `m_uUniqueOBJUnknownID`, the node-name counter. */
    var UniqueNodeId: nat
    /** The function-static `sUniqueOBJUnknownMeshID`. */
    var UniqueMeshId: nat
    var SolidColor: Vec3
    /** The chunks handed to `AppendChunkToFile` for the `.stu` file, in order. */
    var Written: seq<Chunk>

    function State(): ObjState
      reads this
    {
      ObjState(TotalMeshCount, SubModelCount, SubModelVertexCount, Entries, FlipUVonY,
               UniqueNodeId, UniqueMeshId, SolidColor, Written)
    }

    /** `m_uUniqueOBJUnknownID` is left uninitialised by the constructor: `unknownId` stands for that value. */
    constructor(unknownId: nat)
      ensures State() == ObjState(0, 0, 0, [], false, unknownId, 0, Grey(0.5), [])
    {
      TotalMeshCount := 0;
      SubModelCount := 0;
      SubModelVertexCount := 0;
      Entries := [];
      FlipUVonY := false;
      UniqueNodeId := unknownId;
      UniqueMeshId := 0;
      SolidColor := Grey(0.5);
      Written := [];
    }

    method SetDefaultSolidColor(red: real, green: real, blue: real)
      modifies this
      ensures State() == old(State()).(solid := Vec3(red, green, blue))
    {
      SolidColor := Vec3(red, green, blue);
    }

    /** `ExportToSTUFormat(path)`: the counter resets, then the export with flipped texture coordinates. */
    method ExportWithDefaults(file: Option<ObjFile>) returns (r: ExportResult)
      requires file.Some? ==> ShapesValid(file.value.attrib, file.value.shapes)
      modifies this
      ensures (r, State()) == Export(old(State()), file, true)
    {
      SubModelCount := 0;
      SubModelVertexCount := 0;
      r := ExportToSTUFormat(file, true);
    }

    /** `ExportToSTUFormat(path, bFlipUV)`; `file` is `None` when loading fails. */
    method ExportToSTUFormat(file: Option<ObjFile>, flip: bool) returns (r: ExportResult)
      requires file.Some? ==> ShapesValid(file.value.attrib, file.value.shapes)
      modifies this
      ensures (r, State()) == Export(old(State()), file, flip)
    {
      SubModelCount := 0;
      SubModelVertexCount := 0;
      FlipUVonY := flip;
      Entries := [];
      TotalMeshCount := 0;
      if file.None? {
        return Returned(false);
      }
      var f := file.value;
      Entries := ZeroEntries(|f.shapes|);
      r := ExportShapes(f);
    }

    /** The shape loop of `ExportToSTUFormat`, after the file has loaded. */
    method ExportShapes(f: ObjFile) returns (r: ExportResult)
      requires ShapesValid(f.attrib, f.shapes)
      modifies this
      ensures (r, State()) == RunShapes(old(State()), f)
    {
      var materials := AllMaterials(f, SolidColor);
      ghost var s1 := State();
      var s := 0;
      while s < |f.shapes|
        invariant 0 <= s <= |f.shapes|
        invariant AtShape(State(), s1, f.attrib, materials, f.shapes, s)
      {
        ghost var before := State();
        var threw := ShapesTurn(s1, f.attrib, materials, f.shapes, s);
        if threw {
          RunShapesThrown(before, s1, f, s);
          return Terminated;
        }
        s := s + 1;
      }
      RunShapesDone(State(), s1, f);
      r := Returned(true);
    }

    /** One turn of the shape loop, from the state after `s` shapes. */
    method ShapesTurn(ghost s1: ObjState, a: ObjAttrib, all: seq<ObjMaterial>, shapes: seq<ObjShape>, s: nat) returns (threw: bool)
      requires |all| > 0 && s < |shapes| && ShapesValid(a, shapes)
      requires AtShape(State(), s1, a, all, shapes, s)
      modifies this
      ensures threw == (|shapes[s].indices| == 0)
      ensures threw ==> State() == Counted(old(State()))
      ensures !threw ==> AtShape(State(), s1, a, all, shapes, s + 1)
    {
      ghost var before := State();
      threw := ExportShape(a, all, shapes[s]);
      if !threw {
        AtShapeStep(before, s1, a, all, shapes, s);
      }
    }

    /**
     * One iteration of the shape loop: the names, the vertex chunk pair, and
     * the Model chunk. `threw` is set when the shape has no corners, where
     * `Data.at(0)` throws before anything is written.
     */
    method ExportShape(a: ObjAttrib, all: seq<ObjMaterial>, shape: ObjShape) returns (threw: bool)
      requires |all| > 0 && ShapeValid(a, shape)
      modifies this
      ensures threw == (|shape.indices| == 0)
      ensures State() == if threw then Counted(old(State())) else ShapeState(old(State()), a, all, shape)
    {
      ghost var s0 := State();
      var vxName, head := NameShape(shape);
      threw := WriteVertexChunk(vxName, a, shape.indices, FlipUVonY);
      if threw {
        return;
      }
      CloseShape(all, shape, head);
    }

    /** The node and mesh names of a shape and the start of its payload; the three counters advance. */
    method NameShape(shape: ObjShape) returns (vxName: CStr, head: seq<Field>)
      modifies this
      ensures vxName == VxName(old(SubModelVertexCount))
      ensures var nodeName := NodeName(shape.name, old(UniqueNodeId));
              head == ShapeHead(nodeName, MeshName(nodeName, shape.name, old(UniqueMeshId)), shape)
      ensures State() == Counted(old(State()))
    {
      var nodeName := NodeName(shape.name, UniqueNodeId);
      UniqueNodeId := UniqueNodeId + 1;
      var meshName := MeshName(nodeName, shape.name, UniqueMeshId);
      UniqueMeshId := UniqueMeshId + 1;
      head := ShapeHead(nodeName, meshName, shape);
      vxName := VxName(SubModelVertexCount);
      SubModelVertexCount := SubModelVertexCount + 1;
    }

    /** The rest of a shape's payload and its Model chunk under the next number. */
    method CloseShape(all: seq<ObjMaterial>, shape: ObjShape, head: seq<Field>)
      requires |all| > 0 && |shape.materialIds| > 0
      modifies this
      ensures State() == Closed(old(State()), head + SHAPE_TAIL + SurfaceFields(MaterialFor(all, shape.materialIds[0])))
    {
      var surface := Surface(all, shape.materialIds[0]);
      AppendModel(head + SHAPE_TAIL + surface);
    }

    /** A Model chunk under the next number. */
    method AppendModel(data: seq<Field>)
      modifies this
      ensures State() == Closed(old(State()), data)
    {
      Written := Written + [Chunk(ModelName(SubModelCount), data)];
      SubModelCount := SubModelCount + 1;
    }

    /** The material block and the two texture descriptors of the material a first-face id selects. */
    static method Surface(all: seq<ObjMaterial>, id0: int) returns (data: seq<Field>)
      requires |all| > 0
      ensures data == SurfaceFields(MaterialFor(all, id0))
    {
      var id := id0;
      if id < 0 || id >= |all| {
        id := |all| - 1;
      }
      var m := all[id];
      assert m == MaterialFor(all, id0);
      var alpha := m.dissolve;
      if alpha < ALPHA_FLOOR {
        alpha := 1.0;
      }
      data := MaterialFields(Material(m.ambient, m.diffuse, m.specular, m.shininess, alpha));
      assert data == MaterialFields(SurfaceOf(m));
      var diffuse := DiffuseFields(m, alpha);
      var height := HeightFields(m);
      data := data + diffuse + height;
    }

    /** The diffuse descriptor as written. */
    static method DiffuseFields(m: ObjMaterial, alpha: real) returns (data: seq<Field>)
      requires alpha == AlphaOf(m)
      ensures data == SlotFields(DiffuseSlot(m))
    {
      var file := RemoveFoldersFromPaths(CView(m.diffuseTexname));
      if |file| > 0 {
        data := [U32(Diffuse.Code()), Text(ReplaceUnrecognizedInternalTextureFormats(file).name)];
      } else {
        data := [U32(ColorDiffuse.Code()), F32(alpha)];
      }
    }

    /** The height descriptor as written. */
    static method HeightFields(m: ObjMaterial) returns (data: seq<Field>)
      ensures data == SlotFields(HeightSlot(m))
    {
      var file := RemoveFoldersFromPaths(CView(m.bumpTexname));
      if |file| > 0 {
        data := [U32(Height.Code()), Text(ReplaceUnrecognizedInternalTextureFormats(file).name)];
      } else {
        data := [U32(UnknownTexture.Code())];
      }
    }

    /**
     * `WriteVertexChunk`: one record per corner and the running box, then the
     * vertex chunk and its box chunk. With no corners the payload is empty and
     * `Data.at(0)` throws: `threw` is set and nothing is written.
     */
    method WriteVertexChunk(name: CStr, a: ObjAttrib, ixs: seq<ObjIndex>, flip: bool) returns (threw: bool)
      requires IndicesValid(a, ixs) && flip == FlipUVonY
      modifies this
      ensures threw == (ixs == [])
      ensures State() == if threw then old(State()) else Vertexed(old(State()), name, a, ixs)
    {
      var records, box := ObjVertexRecords(a, ixs, flip);
      if records == [] {
        return true;
      }
      Written := Written + VertexChunks(name, records, box);
      threw := false;
    }

    /** The corner loop: one record per corner, and the box of the corners' positions. */
    static method ObjVertexRecords(a: ObjAttrib, ixs: seq<ObjIndex>, flip: bool) returns (records: seq<Vertex>, box: Box)
      requires IndicesValid(a, ixs)
      ensures records == Records(a, ixs, flip) && box == BoundsOf(Positions(a, ixs))
    {
      records := [];
      box := EmptyBox();
      var f := 0;
      while f < |ixs|
        invariant 0 <= f <= |ixs|
        invariant records == Records(a, ixs[..f], flip)
        invariant box == BoundsOf(Positions(a, ixs[..f]))
      {
        RecordsStep(a, ixs, f, flip);
        box := Grow(box, PositionAt(a, ixs[f]));
        records := records + [RecordAt(a, ixs[f], flip)];
        f := f + 1;
      }
      assert ixs[..f] == ixs;
    }
  }
}
