/**
 * The Assimp adapter (`C3DModelAssimp`) as a class over its own fields. Each
 * method performs the source's loops on those fields and is proved to leave
 * them as the matching function of `AssimpScene` says.
 */
module AssimpExport {
  import opened Wrappers
  import opened CText
  import opened StuText
  import opened ModelData
  import opened SceneExport
  import opened AssimpScene

  class AssimpAdapter {
    var BoneMapping: map<u32, nat>
    var NumBones: nat
    var BoneInfo: seq<Mat4>
    var Bones: seq<Influences>
    var Entries: seq<nat>
    var HasAnimations: bool
    var FlipUVonY: bool
    var TotalMeshCount: nat
    var SubModelCount: nat
    var SubModelVertexCount: nat
    var VertexType: VertexDataType
    /** The function-static counters of `ExportSubTree`. */
    var UnknownNodeId: nat
    var UnknownMeshId: nat
    /** The chunks handed to `AppendChunkToFile` for the current `.stu` file, in order. */
    var Written: seq<Chunk>

    function State(): TreeState
      reads this
    {
      TreeState(BoneMapping, NumBones, BoneInfo, Bones, Entries, HasAnimations, FlipUVonY,
                TotalMeshCount, SubModelCount, SubModelVertexCount, VertexType,
                UnknownNodeId, UnknownMeshId, Written)
    }

    /** `m_VertexDataType` is left uninitialised by the constructor: `layout` stands for that value. */
    constructor(layout: VertexDataType)
      ensures State() == TreeState(map[], 0, [], [], [], false, false, 0, 0, 0, layout, 0, 0, [])
      ensures DenseTable(BoneMapping, NumBones, |BoneInfo|)
    {
      BoneMapping := map[];
      NumBones := 0;
      BoneInfo := [];
      Bones := [];
      Entries := [];
      HasAnimations := false;
      FlipUVonY := false;
      TotalMeshCount := 0;
      SubModelCount := 0;
      SubModelVertexCount := 0;
      VertexType := layout;
      UnknownNodeId := 0;
      UnknownMeshId := 0;
      Written := [];
    }

    /** `ExportToSTUFormat(path, bFlipUV)`; `scene` is `None` when the import fails. */
    method ExportToSTUFormat(scene: Option<AiScene>, flip: bool) returns (ok: bool)
      requires scene.Some? ==> SceneValid(scene.value)
      modifies this
      ensures (ok, State()) == Export(old(State()), scene, flip)
    {
      Restart(flip);
      if scene.None? {
        return false;
      }
      var sc := scene.value;
      if |sc.meshes| == 0 {
        return false;
      }
      var hasBones := Prepare(sc);
      ExportSubTree(sc, sc.root);
      Finish(hasBones);
      ok := true;
    }

    /** The fields `ExportToSTUFormat` resets before looking at the scene. */
    method Restart(flip: bool)
      modifies this
      ensures State() == AssimpScene.Restart(old(State()), flip)
    {
      Written := [];
      FlipUVonY := flip;
      Entries := [];
      Bones := [];
      TotalMeshCount := 0;
    }

    /** `m_Bones.clear()`, then the "Bones" chunk when some mesh has bones. */
    method Finish(hasBones: bool)
      modifies this
      ensures State() == AfterTree(old(State()), hasBones)
    {
      Bones := [];
      if hasBones {
        var c := ExportBones(BoneMapping, BoneInfo);
        Written := Written + [c];
      }
    }

    /** Offsets and influence lists, then the "Animations" and "Textures" chunks and the counter resets. */
    method Prepare(sc: AiScene) returns (hasBones: bool)
      modifies this
      ensures hasBones == AnyBones(sc.meshes)
      ensures State() == BeforeTree(old(State()), sc)
    {
      hasBones := SetUpOffsets(sc.meshes);
      WriteAnimations(sc.animations);
      WriteTextures(sc.textures);
    }

    /** The `m_Entries` loop and the `m_Bones` sizing. */
    method SetUpOffsets(meshes: seq<AiMesh>) returns (hasBones: bool)
      modifies this
      ensures hasBones == AnyBones(meshes)
      ensures State() == WithOffsets(old(State()), meshes)
    {
      var total;
      Entries, total, hasBones := CountVertices(meshes);
      if hasBones {
        Bones := SeededLists(total);
      }
    }

    /** The animation branch of `ExportToSTUFormat`. */
    method WriteAnimations(animations: seq<Animation>)
      modifies this
      ensures State() == WithAnimations(old(State()), animations)
    {
      if |animations| > 0 {
        VertexType := VertexDataType.Bones;
        HasAnimations := true;
        var c := ExportAnimations(animations);
        Written := Written + [c];
      }
    }

    /** "Textures" and the resets of `m_SubModelCount` and `m_SubModelVertexCount`. */
    method WriteTextures(textures: seq<AiTexture>)
      modifies this
      ensures State() == WithTextures(old(State()), textures)
    {
      var t := ExportTextures(textures);
      Written := Written + [t];
      SubModelCount := 0;
      SubModelVertexCount := 0;
    }

    /** The loop that fills `m_Entries` and finds whether any mesh has bones. */
    static method CountVertices(meshes: seq<AiMesh>) returns (entries: seq<nat>, total: nat, hasBones: bool)
      ensures entries == BaseVertices(meshes)
      ensures total == VertexTotal(meshes, |meshes|)
      ensures hasBones == AnyBones(meshes)
    {
      entries := [];
      total := 0;
      hasBones := false;
      var i := 0;
      while i < |meshes|
        invariant 0 <= i <= |meshes|
        invariant total == VertexTotal(meshes, i)
        invariant entries == BaseVertices(meshes)[..i]
        invariant hasBones <==> exists k :: 0 <= k < i && meshes[k].HasBones()
      {
        entries := entries + [total];
        total := total + |meshes[i].positions|;
        if meshes[i].HasBones() {
          hasBones := true;
        }
        i := i + 1;
      }
      assert entries == BaseVertices(meshes);
    }

    /** `ExportTextures`. */
    static method ExportTextures(ts: seq<AiTexture>) returns (c: Chunk)
      ensures c == TexturesChunk(ts)
    {
      var body := [];
      var i := 0;
      while i < |ts|
        invariant 0 <= i <= |ts|
        invariant body == TexturesFields(ts, i)
      {
        body := body + TextureFields(ts[i], i);
        i := i + 1;
      }
      c := Chunk("Textures", [U32(|ts|)] + body);
    }

    /** `ExportSubTree`: the node's Model chunk, then the children in order. */
    method ExportSubTree(scene: AiScene, node: AiNode)
      requires SceneValid(scene) && NodeValid(node, |scene.meshes|)
      modifies this
      ensures State() == SubTree(scene, old(State()), node)
      decreases node, 1
    {
      ExportNode(scene, node);
      ExportChildren(scene, node);
    }

    /** The part of `ExportSubTree` before the child loop. */
    method ExportNode(scene: AiScene, node: AiNode)
      requires SceneValid(scene) && NodeValid(node, |scene.meshes|)
      modifies this
      ensures State() == NodeStep(scene, old(State()), node)
    {
      ghost var s0 := State();
      var name := NodeName(node.name, UnknownNodeId);
      UnknownNodeId := UnknownNodeId + 1;
      assert State() == s0.(nodeIds := s0.nodeIds + 1);
      var data := ExportMeshes(scene, name, node);
      WriteModel(|node.meshes|, NodeHead(node, name) + data);
    }

    /** The counters advanced past the node and its Model chunk written. */
    method WriteModel(meshCount: nat, data: seq<Field>)
      modifies this
      ensures State() == CloseNode(old(State()), data, meshCount)
    {
      TotalMeshCount := TotalMeshCount + meshCount;
      var chunkName := ModelName(SubModelCount);
      SubModelCount := SubModelCount + 1;
      Written := Written + [Chunk(chunkName, data)];
    }

    /** The mesh loop of `ExportSubTree`: the mesh records of the node payload. */
    method ExportMeshes(scene: AiScene, nodeName: CStr, node: AiNode) returns (data: seq<Field>)
      requires SceneValid(scene) && NodeValid(node, |scene.meshes|)
      modifies this
      ensures State() == MeshesState(scene, old(State()), node, |node.meshes|)
      ensures data == MeshesData(scene, old(State()), nodeName, node, |node.meshes|)
    {
      data := [];
      var i := 0;
      while i < |node.meshes|
        invariant 0 <= i <= |node.meshes|
        invariant State() == MeshesState(scene, old(State()), node, i)
        invariant data == MeshesData(scene, old(State()), nodeName, node, i)
      {
        MeshesStep(scene, old(State()), nodeName, node, i);
        var record := ExportMesh(scene, nodeName, node, i);
        data := data + record;
        i := i + 1;
      }
    }

    /** The child loop of `ExportSubTree`. */
    method ExportChildren(scene: AiScene, node: AiNode)
      requires SceneValid(scene) && NodeValid(node, |scene.meshes|)
      modifies this
      ensures State() == Children(scene, old(State()), node, |node.children|)
      decreases node, 0
    {
      var i := 0;
      while i < |node.children|
        invariant 0 <= i <= |node.children|
        invariant State() == Children(scene, old(State()), node, i)
      {
        ChildrenStep(scene, old(State()), node, i);
        ExportSubTree(scene, node.children[i]);
        i := i + 1;
      }
    }

    /** The body of the mesh loop of `ExportSubTree` for mesh `i` of `node`. */
    method ExportMesh(scene: AiScene, nodeName: CStr, node: AiNode, i: nat) returns (record: seq<Field>)
      requires SceneValid(scene) && i < |node.meshes| && node.meshes[i] < |scene.meshes|
      modifies this
      ensures State() == MeshState(scene, old(State()), node, i)
      ensures record == MeshData(scene, old(State()), nodeName, node, i)
    {
      var mesh := scene.meshes[node.meshes[i]];
      assert mesh.Valid() && mesh.material < |scene.materials|;
      var tail := ExportTail(scene, mesh);
      var head, base := BeginMesh(nodeName, mesh, i);
      LoadBones(mesh.bones, base);
      var tag := ExportVertices(mesh, base);
      record := head + tag + tail;
    }

    /** The mesh's head fields and base vertex, and the mesh name counter advanced. */
    method BeginMesh(nodeName: CStr, mesh: AiMesh, i: nat) returns (head: seq<Field>, base: Option<nat>)
      modifies this
      ensures head == MeshHead(nodeName, mesh, old(State()).meshIds, i, old(State()).animated)
      ensures base == BaseVertex(old(State()).entries, old(State()).total + i)
      ensures State() == old(State()).(meshIds := old(State()).meshIds + 1)
    {
      head := MeshHead(nodeName, mesh, UnknownMeshId, i, HasAnimations);
      base := BaseVertex(Entries, TotalMeshCount + i);
      UnknownMeshId := UnknownMeshId + 1;
    }

    /** `LoadBones` for one mesh. */
    method LoadBones(bones: seq<AiBone>, base: Option<nat>)
      modifies this
      ensures State() == InternBones(old(State()), bones, base, |bones|)
    {
      var k := 0;
      while k < |bones|
        invariant 0 <= k <= |bones|
        invariant State() == InternBones(old(State()), bones, base, k)
      {
        LoadBone(bones[k], base);
        k := k + 1;
      }
    }

    /** For a mesh with vertices: the layout decision, its tag for the payload, and the vertex chunk pair. */
    method ExportVertices(mesh: AiMesh, base: Option<nat>) returns (tag: seq<Field>)
      requires mesh.Valid()
      modifies this
      ensures State() == VertexState(old(State()), mesh, base)
      ensures tag == VertexTag(old(VertexType), mesh)
    {
      tag := [];
      if |mesh.positions| > 0 {
        var layout := LayoutFor(VertexType, mesh);
        VertexType := layout;
        tag := [U32(layout.Code())];
        var vxName := VxName(SubModelVertexCount);
        SubModelVertexCount := SubModelVertexCount + 1;
        WriteVertexChunk(vxName, mesh, base);
      }
    }

    /** The index list and, for a known primitive type, the tag and surface block. */
    static method ExportTail(scene: AiScene, mesh: AiMesh) returns (tail: seq<Field>)
      requires mesh.material < |scene.materials|
      ensures tail == MeshTail(scene, mesh)
    {
      var ix := [];
      if mesh.primitiveTypes != AI_POINT {
        ix := CollectIndices(mesh.faces);
      }
      tail := [U32(|ix|)] + IndexFields(ix);
      var tag := PrimitiveTag(mesh.primitiveTypes);
      if tag.Some? {
        tail := tail + [U32(tag.value.Code())] + SurfaceFields(scene.materials[mesh.material]);
      }
    }

    /** One bone of the `LoadBones` loop: interning, then its weights. */
    method LoadBone(bone: AiBone, base: Option<nat>)
      modifies this
      ensures State() == InternBone(old(State()), bone, base)
    {
      var index := RegisterBone(bone);
      if base.Some? {
        AddBoneWeights(base.value, index, bone.weights);
      }
    }

    /** The name lookup of `LoadBones`: a new hash gets the next index and a pushed `BoneInfo`. */
    method RegisterBone(bone: AiBone) returns (index: nat)
      modifies this
      ensures index == BoneIndex(old(BoneMapping), old(NumBones), NameHash(bone.name))
      ensures State() == WithBone(old(State()), bone)
    {
      var h := MakeHashFromName(bone.name);
      if h !in BoneMapping {
        index := NumBones;
        NumBones := NumBones + 1;
        BoneInfo := PushInfo(BoneInfo, index, bone.offset);
        BoneMapping := BoneMapping[h := index];
      } else {
        index := BoneMapping[h];
      }
    }

    /** The weight loop of `LoadBones`: each weight goes into the list of vertex `base + mVertexId`. */
    method AddBoneWeights(base: nat, index: nat, ws: seq<VertexWeight>)
      modifies this
      ensures State() == old(State()).(bones := AddWeights(old(Bones), Some(base), index, ws))
    {
      var j := 0;
      while j < |ws|
        invariant 0 <= j <= |ws|
        invariant State() == old(State()).(bones := AddWeights(old(Bones), Some(base), index, ws[..j]))
      {
        var w := ws[j];
        var v := base + w.vertex;
        ghost var prev := Bones;
        if v < |Bones| {
          Bones := Bones[v := InsertByWeight(Bones[v], BoneWeight(index, w.weight))];
        }
        assert Bones == AddInfluence(prev, v, index, w.weight);
        assert ws[..j + 1][..j] == ws[..j];
        j := j + 1;
      }
      assert ws[..j] == ws;
    }

    /** `WriteVertexChunk`: the records and the running box, then the two chunks. */
    method WriteVertexChunk(name: CStr, mesh: AiMesh, base: Option<nat>)
      requires mesh.Valid() && Readable(VertexType, mesh)
      modifies this
      ensures State() == old(State()).(written := old(Written) +
        VertexChunks(name, Records(old(FlipUVonY), old(Bones), mesh, old(VertexType), base, |mesh.positions|),
                     BoundsOf(mesh.positions)))
    {
      var flip, bones, layout := FlipUVonY, Bones, VertexType;
      var records := [];
      var box := EmptyBox();
      var v := 0;
      while v < |mesh.positions|
        invariant 0 <= v <= |mesh.positions|
        invariant records == Records(flip, bones, mesh, layout, base, v)
        invariant box == BoundsOf(mesh.positions[..v])
        invariant State() == old(State())
      {
        records := records + [RecordOf(flip, bones, mesh, layout, base, v)];
        BoundsStep(mesh.positions, v);
        box := Grow(box, mesh.positions[v]);
        v := v + 1;
      }
      assert mesh.positions[..v] == mesh.positions;
      Written := Written + VertexChunks(name, records, box);
    }

    /** The face loop: every index of every face, in order, truncated to 16 bits. */
    static method CollectIndices(faces: seq<seq<nat>>) returns (ix: seq<u16>)
      ensures ix == Indices(faces)
    {
      ix := [];
      var f := 0;
      while f < |faces|
        invariant 0 <= f <= |faces|
        invariant ix == Indices(faces[..f])
      {
        var face := faces[f];
        ghost var before := ix;
        var k := 0;
        while k < |face|
          invariant 0 <= k <= |face|
          invariant ix == before + FaceIndices(face[..k])
        {
          ix := ix + [Truncate16(face[k])];
          k := k + 1;
        }
        assert face[..k] == face;
        assert faces[..f + 1][..f] == faces[..f];
        f := f + 1;
      }
      assert faces[..f] == faces;
    }
  }
}
