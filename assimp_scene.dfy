/**
 * The Assimp adapter's flattening rules, as functions over an imported scene:
 * the per-mesh layout choice, bone interning, vertex records, index list,
 * primitive tag, material block and texture descriptors, and the pre-order
 * walk that writes one "Model:<n>" chunk per node. `AssimpExport` runs the
 * same rules step by step on the adapter's fields and is proved to agree.
 */
module AssimpScene {
  import opened Wrappers
  import opened CText
  import opened StuText
  import opened ModelData
  import opened SceneExport

  // ---------------------------------------------------------------------------
  // The imported scene

  /** `aiPrimitiveType` flags. */
  const AI_POINT: nat := 1
  const AI_LINE: nat := 2
  const AI_TRIANGLE: nat := 4
  const AI_POLYGON: nat := 8

  datatype VertexWeight = VertexWeight(vertex: nat, weight: real)

  datatype AiBone = AiBone(name: CStr, offset: Mat4, weights: seq<VertexWeight>)

  /** An `aiMesh`; a missing attribute array is `None`. */
  datatype AiMesh = AiMesh(
    name: CStr,
    positions: seq<Vec3>,
    normals: Option<seq<Vec3>>,
    uvs: Option<seq<UV>>,
    colors: Option<seq<Vec3>>,
    bones: seq<AiBone>,
    faces: seq<seq<nat>>,
    primitiveTypes: nat,
    material: nat)
  {
    predicate HasNormals() { normals.Some? && |positions| > 0 }
    predicate HasTextureCoords() { uvs.Some? && |positions| > 0 }
    predicate HasVertexColors() { colors.Some? && |positions| > 0 }
    predicate HasBones() { |bones| > 0 }

    /** Every attribute array present has one entry per vertex. */
    predicate Valid()
    {
      && (normals.Some? ==> |normals.value| == |positions|)
      && (uvs.Some? ==> |uvs.value| == |positions|)
      && (colors.Some? ==> |colors.value| == |positions|)
    }
  }

  /** The material properties the adapter queries; a failed query is `None`. */
  datatype AiMaterial = AiMaterial(
    ambient: Option<Vec3>,
    diffuse: Option<Vec3>,
    specular: Option<Vec3>,
    shininess: Option<real>,
    opacity: Option<real>,
    diffuseTexture: Option<CStr>,
    heightTexture: Option<CStr>)

  datatype TexelFormat = Rgba8888 | Rgba8880 | OtherFormat

  /** An embedded texture: `height == 0` marks a compressed image of `width` bytes. */
  datatype AiTexture = AiTexture(width: nat, height: nat, format: TexelFormat, data: seq<byte>)

  /** An `aiNode`; `transform` is the node matrix already in the engine's convention. */
  datatype AiNode = AiNode(name: CStr, transform: Mat4, meshes: seq<nat>, children: seq<AiNode>)

  datatype AiScene = AiScene(
    meshes: seq<AiMesh>,
    materials: seq<AiMaterial>,
    textures: seq<AiTexture>,
    animations: seq<Animation>,
    root: AiNode)

  /** Every mesh reference of the subtree names a mesh of the scene. */
  predicate NodeValid(node: AiNode, meshCount: nat)
    decreases node
  {
    && (forall i :: 0 <= i < |node.meshes| ==> node.meshes[i] < meshCount)
    && (forall i :: 0 <= i < |node.children| ==> NodeValid(node.children[i], meshCount))
  }

  /** What the importer guarantees: meshes consistent, material and mesh references in range. */
  predicate SceneValid(scene: AiScene)
  {
    && (forall i :: 0 <= i < |scene.meshes| ==> scene.meshes[i].Valid())
    && (forall i :: 0 <= i < |scene.meshes| ==> scene.meshes[i].material < |scene.materials|)
    && NodeValid(scene.root, |scene.meshes|)
  }

  /** The number of nodes of the subtree. */
  function Size(node: AiNode): (n: nat)
    ensures n >= 1
    decreases node, 1
  {
    1 + SizeOfChildren(node, |node.children|)
  }

  function SizeOfChildren(node: AiNode, k: nat): nat
    requires k <= |node.children|
    decreases node, 0, k
  {
    if k == 0 then 0 else SizeOfChildren(node, k - 1) + Size(node.children[k - 1])
  }

  /** The number of mesh references of the subtree. */
  function MeshRefs(node: AiNode): nat
    decreases node, 1
  {
    |node.meshes| + MeshRefsOfChildren(node, |node.children|)
  }

  function MeshRefsOfChildren(node: AiNode, k: nat): nat
    requires k <= |node.children|
    decreases node, 0, k
  {
    if k == 0 then 0 else MeshRefsOfChildren(node, k - 1) + MeshRefs(node.children[k - 1])
  }

  // ---------------------------------------------------------------------------
  // The adapter's state while it walks the tree

  /**
   * The fields of the adapter that the walk reads or changes: the bone table,
   * the per-vertex influence lists `m_Bones`, the mesh base offsets
   * `m_Entries`, the running counters, the layout carried from mesh to mesh,
   * the two static name counters and the chunks appended so far.
   */
  datatype TreeState = TreeState(
    mapping: map<u32, nat>,
    numBones: nat,
    infos: seq<Mat4>,
    bones: seq<Influences>,
    entries: seq<nat>,
    animated: bool,
    flip: bool,
    total: nat,
    models: nat,
    vertexChunks: nat,
    layout: VertexDataType,
    nodeIds: nat,
    meshIds: nat,
    written: seq<Chunk>)

  // ---------------------------------------------------------------------------
  // Bones

  /**
   * `m_Entries[k].uBaseVertex`, read with the running mesh total as `k`
   * (`m_TotalMeshCount + i`). When the nodes reference more meshes than the
   * scene has, for instance one mesh shared by two nodes, `k` passes the end
   * and the read is undefined behaviour in the source; the model gives `None`
   * there, so the mesh gets no bone weights and its vertices the rigid skin.
   */
  function BaseVertex(entries: seq<nat>, k: nat): Option<nat>
  {
    if k < |entries| then Some(entries[k]) else None
  }

  /** The base vertex evidently meant for mesh `i` of a node: the entry of the scene mesh it references. */
  function IntendedBase(entries: seq<nat>, refs: seq<nat>, i: nat): Option<nat>
    requires i < |refs|
  {
    BaseVertex(entries, refs[i])
  }

  /** `m_BoneInfo.push_back(bi)` then `m_BoneInfo[index].BoneOffset = offset`. */
  function PushInfo(infos: seq<Mat4>, index: nat, offset: Mat4): (r: seq<Mat4>)
    ensures |r| == |infos| + 1
  {
    var grown := infos + [Identity];
    if index < |grown| then grown[index := offset] else grown
  }

  /** The weights of one bone, added in order to the influence lists of the mesh's vertices. */
  function AddWeights(bones: seq<Influences>, base: Option<nat>, id: nat, ws: seq<VertexWeight>): (r: seq<Influences>)
    ensures |r| == |bones|
  {
    if ws == [] || base.None? then bones
    else
      var w := ws[|ws| - 1];
      AddInfluence(AddWeights(bones, base, id, ws[..|ws| - 1]), base.value + w.vertex, id, w.weight)
  }

  /** A bone name not yet in the table gets the next index and a `BoneInfo` holding its offset. */
  function WithBone(st: TreeState, bone: AiBone): TreeState
  {
    var h := NameHash(bone.name);
    if h in st.mapping then st
    else st.(mapping := st.mapping[h := st.numBones], numBones := st.numBones + 1,
             infos := PushInfo(st.infos, st.numBones, bone.offset))
  }

  /** Interning of one bone, then its weights added to the influence lists. */
  function InternBone(st: TreeState, bone: AiBone, base: Option<nat>): TreeState
  {
    var st1 := WithBone(st, bone);
    st1.(bones := AddWeights(st1.bones, base, BoneIndex(st.mapping, st.numBones, NameHash(bone.name)), bone.weights))
  }

  /** The first `k` bones of a mesh, interned in order. */
  function InternBones(st: TreeState, bones: seq<AiBone>, base: Option<nat>, k: nat): (r: TreeState)
    requires k <= |bones|
    ensures r == st.(mapping := r.mapping, numBones := r.numBones, infos := r.infos, bones := r.bones)
    decreases k, 0
  {
    if k == 0 then st else InternNext(st, bones, base, k - 1)
  }

  /** Bone `i` interned after the bones before it. */
  function InternNext(st: TreeState, bones: seq<AiBone>, base: Option<nat>, i: nat): (r: TreeState)
    requires i < |bones|
    ensures r == st.(mapping := r.mapping, numBones := r.numBones, infos := r.infos, bones := r.bones)
    decreases i, 1
  {
    InternBone(InternBones(st, bones, base, i), bones[i], base)
  }

  // ---------------------------------------------------------------------------
  // Vertex records

  /**
   * The layout decision for a mesh with vertices. A mesh with normals keeps a
   * current Bones layout; otherwise UVs, then colours, decide.
   */
  function LayoutFor(current: VertexDataType, mesh: AiMesh): (r: VertexDataType)
    ensures Readable(r, mesh)
    ensures r == Bones <==> mesh.HasNormals() && current == Bones
    ensures r == Normals <==> mesh.HasNormals() && current != Bones && mesh.HasTextureCoords()
    ensures r == Textured <==> !mesh.HasNormals() && mesh.HasTextureCoords()
    ensures r == Points <==> !(mesh.HasNormals() && current == Bones) && !mesh.HasTextureCoords() && mesh.HasVertexColors()
  {
    if mesh.HasNormals() then
      if current == Bones then Bones
      else if mesh.HasTextureCoords() then Normals
      else if mesh.HasVertexColors() then Points
      else Simple
    else if mesh.HasTextureCoords() then Textured
    else if mesh.HasVertexColors() then Points
    else Simple
  }

  /** The arrays the records of `layout` read are present. */
  predicate Readable(layout: VertexDataType, mesh: AiMesh)
  {
    && (layout == Points ==> mesh.colors.Some?)
    && (layout == Textured ==> mesh.uvs.Some?)
    && (layout == Normals ==> mesh.normals.Some? && mesh.uvs.Some?)
  }

  /** The record of vertex `v` in `layout`; `skin` is read from the influence lists when the mesh has bones. */
  function RecordOf(flip: bool, bones: seq<Influences>, mesh: AiMesh, layout: VertexDataType, base: Option<nat>, v: nat): Vertex
    requires mesh.Valid() && Readable(layout, mesh) && v < |mesh.positions|
  {
    var p := mesh.positions[v];
    var uv := if mesh.HasTextureCoords() then FlipV(mesh.uvs.value[v], flip) else UV(0.0, 0.0);
    match layout
    case Simple => SimpleVertex(p)
    case Points => PointsVertex(p, Set(mesh.colors.value[v]))
    case Textured => TexturedVertex(p, Set(FlipV(mesh.uvs.value[v], flip)))
    case Normals => NormalsVertex(p, Set(mesh.normals.value[v]), Set(uv))
    case Bones =>
      var n := if mesh.HasNormals() then mesh.normals.value[v] else Vec3(0.0, 0.0, 0.0);
      var skin :=
        if !mesh.HasBones() then RIGID
        else if base.None? then RIGID
        else SkinAt(bones, base.value + v);
      BonesVertex(p, Set(n), Set(uv), skin)
  }

  /** The records of the first `k` vertices. */
  function Records(flip: bool, bones: seq<Influences>, mesh: AiMesh, layout: VertexDataType, base: Option<nat>, k: nat): (r: seq<Vertex>)
    requires mesh.Valid() && Readable(layout, mesh) && k <= |mesh.positions|
    ensures |r| == k
  {
    if k == 0 then [] else Records(flip, bones, mesh, layout, base, k - 1) + [RecordOf(flip, bones, mesh, layout, base, k - 1)]
  }

  // ---------------------------------------------------------------------------
  // Indices, tag, material

  /** `(uint16_t)vertId`. */
  function Truncate16(n: nat): u16
  {
    n % U16_LIMIT
  }

  /** The indices of one face, each truncated to 16 bits. */
  function FaceIndices(face: seq<nat>): seq<u16>
  {
    seq(|face|, k requires 0 <= k < |face| => Truncate16(face[k]))
  }

  /** The index list: the faces' indices in face order. */
  function Indices(faces: seq<seq<nat>>): seq<u16>
  {
    if faces == [] then [] else Indices(faces[..|faces| - 1]) + FaceIndices(faces[|faces| - 1])
  }

  function IndexFields(ix: seq<u16>): seq<Field>
  {
    seq(|ix|, i requires 0 <= i < |ix| => U16(ix[i]))
  }

  /** The primitive tag for `mPrimitiveTypes`; `None` is the `default: continue` branch. */
  function PrimitiveTag(t: nat): Option<PrimitiveType>
  {
    if t == AI_POINT then Some(Point)
    else if t == AI_TRIANGLE then Some(Triangle)
    else if t == AI_LINE then Some(Line)
    else if t == AI_POLYGON then Some(Point)
    else None
  }

  /** The material block, each missing property replaced by its default. */
  function MaterialOf(m: AiMaterial): Material
  {
    Material(m.ambient.GetOr(Grey(0.25)), m.diffuse.GetOr(Grey(0.5)), m.specular.GetOr(Grey(1.0)),
             m.shininess.GetOr(16.0), m.opacity.GetOr(1.0))
  }

  /**
   * The name written for a texture path: the folder-stripped file name, or
   * "InternalTexture(N)" for an embedded reference "*N" (N read by `atoi`
   * and converted to `size_t`); `rewrite` applies the .tif/.psd rewrite.
   */
  function TextureName(path: CStr, rewrite: bool): CStr
  {
    var f := RemoveFoldersFromPaths(CView(path));
    if |f| > 0 && f[0] == '*' then EmbeddedTextureName(Atoi(f[1..]) % U64_LIMIT)
    else if rewrite then ReplaceUnrecognizedInternalTextureFormats(f).name
    else f
  }

  function DiffuseSlot(m: AiMaterial): TextureSlot
  {
    if m.diffuseTexture.Some? then Named(Diffuse, TextureName(m.diffuseTexture.value, true))
    else if m.diffuse.Some? then ColorAlpha(m.opacity.GetOr(0.05))
    else NoTexture
  }

  function HeightSlot(m: AiMaterial): TextureSlot
  {
    if m.heightTexture.Some? then Named(Height, TextureName(m.heightTexture.value, false)) else NoTexture
  }

  /** What follows the primitive tag: two-sided flag 0, the material block, the two descriptors. */
  function SurfaceFields(m: AiMaterial): seq<Field>
  {
    [U32(0)] + MaterialFields(MaterialOf(m)) + SlotFields(DiffuseSlot(m)) + SlotFields(HeightSlot(m))
  }

  // ---------------------------------------------------------------------------
  // One mesh, one node, the tree

  /** `nodeName + ".mesh(<name>-k).id(i)"`, or with UNKNOWN for an empty mesh name. */
  function MeshName(nodeName: CStr, meshName: CStr, k: nat, i: nat): CStr
  {
    DisplayName(nodeName + ".mesh", meshName, k) + ".id(" + DecimalText(i) + ")"
  }

  /** The payload start of a mesh record: its two names, the animation flag and the vertex count. */
  function MeshHead(nodeName: CStr, mesh: AiMesh, k: nat, i: nat, animated: bool): seq<Field>
  {
    [Text(MeshName(nodeName, mesh.name, k, i)), Text(mesh.name), U32(if animated then 1 else 0), U32(|mesh.positions|)]
  }

  /** For a mesh with vertices: the layout decided, the vertex chunk and its box chunk written. */
  function VertexState(st: TreeState, mesh: AiMesh, base: Option<nat>): TreeState
    requires mesh.Valid()
  {
    if |mesh.positions| == 0 then st
    else
      var layout := LayoutFor(st.layout, mesh);
      var chunks := VertexChunks(VxName(st.vertexChunks), Records(st.flip, st.bones, mesh, layout, base, |mesh.positions|), BoundsOf(mesh.positions));
      st.(layout := layout, vertexChunks := st.vertexChunks + 1, written := st.written + chunks)
  }

  /** The layout tag in the node payload: present only for a mesh with vertices. */
  function VertexTag(current: VertexDataType, mesh: AiMesh): seq<Field>
  {
    if |mesh.positions| == 0 then [] else [U32(LayoutFor(current, mesh).Code())]
  }

  /** What follows the vertex chunks in the node payload: the index list, then the tag and surface when the type is known. */
  function MeshTail(scene: AiScene, mesh: AiMesh): seq<Field>
    requires mesh.material < |scene.materials|
  {
    var ix := if mesh.primitiveTypes != AI_POINT then Indices(mesh.faces) else [];
    var d := [U32(|ix|)] + IndexFields(ix);
    match PrimitiveTag(mesh.primitiveTypes)
    case None => d
    case Some(tag) => d + [U32(tag.Code())] + SurfaceFields(scene.materials[mesh.material])
  }

  /** The state after mesh `i` of `node`: the mesh counter advanced, its bones interned, its vertex chunks written. */
  function MeshState(scene: AiScene, st: TreeState, node: AiNode, i: nat): TreeState
    requires SceneValid(scene) && i < |node.meshes| && node.meshes[i] < |scene.meshes|
  {
    var mesh := scene.meshes[node.meshes[i]];
    var base := BaseVertex(st.entries, st.total + i);
    VertexState(InternBones(st.(meshIds := st.meshIds + 1), mesh.bones, base, |mesh.bones|), mesh, base)
  }

  /**
   * The record of mesh `i` in the node payload: names, counts, layout tag,
   * indices, primitive tag and surface. Interning bones leaves the layout as
   * it was, so the tag is decided from the layout before the mesh.
   */
  function MeshData(scene: AiScene, st: TreeState, nodeName: CStr, node: AiNode, i: nat): seq<Field>
    requires SceneValid(scene) && i < |node.meshes| && node.meshes[i] < |scene.meshes|
  {
    var mesh := scene.meshes[node.meshes[i]];
    MeshHead(nodeName, mesh, st.meshIds, i, st.animated) + VertexTag(st.layout, mesh) + MeshTail(scene, mesh)
  }

  /** The state after the first `k` meshes of `node`. */
  function MeshesState(scene: AiScene, st: TreeState, node: AiNode, k: nat): TreeState
    requires SceneValid(scene) && k <= |node.meshes| && NodeValid(node, |scene.meshes|)
    decreases k, 0
  {
    if k == 0 then st else AfterMeshState(scene, st, node, k - 1)
  }

  /** The state after mesh `i`, the meshes before it having been exported. */
  function AfterMeshState(scene: AiScene, st: TreeState, node: AiNode, i: nat): TreeState
    requires SceneValid(scene) && i < |node.meshes| && NodeValid(node, |scene.meshes|)
    decreases i, 1
  {
    MeshState(scene, MeshesState(scene, st, node, i), node, i)
  }

  /** The records of the first `k` meshes of `node`, in order. */
  function MeshesData(scene: AiScene, st: TreeState, nodeName: CStr, node: AiNode, k: nat): seq<Field>
    requires SceneValid(scene) && k <= |node.meshes| && NodeValid(node, |scene.meshes|)
    decreases k, 0
  {
    if k == 0 then [] else AfterMeshData(scene, st, nodeName, node, k - 1)
  }

  /** The records of meshes `0..i`. */
  function AfterMeshData(scene: AiScene, st: TreeState, nodeName: CStr, node: AiNode, i: nat): seq<Field>
    requires SceneValid(scene) && i < |node.meshes| && NodeValid(node, |scene.meshes|)
    decreases i, 1
  {
    MeshesData(scene, st, nodeName, node, i) + MeshData(scene, MeshesState(scene, st, node, i), nodeName, node, i)
  }

  /** One more mesh of the loop. */
  lemma MeshesStep(scene: AiScene, st: TreeState, nodeName: CStr, node: AiNode, k: nat)
    requires SceneValid(scene) && k < |node.meshes| && NodeValid(node, |scene.meshes|)
    ensures MeshesState(scene, st, node, k + 1) == MeshState(scene, MeshesState(scene, st, node, k), node, k)
    ensures MeshesData(scene, st, nodeName, node, k + 1)
         == MeshesData(scene, st, nodeName, node, k) + MeshData(scene, MeshesState(scene, st, node, k), nodeName, node, k)
  {
  }

  /** The display name of a node: "assimp.(<name>-k)" or "assimp.(UNKNOWN-k)". */
  function NodeName(name: CStr, k: nat): CStr
  {
    DisplayName("assimp.", name, k)
  }

  /** The payload start of a node's Model chunk. */
  function NodeHead(node: AiNode, nodeName: CStr): seq<Field>
  {
    [U32(|node.children|), Text(nodeName), Text(node.name), Matrix(node.transform), U32(|node.meshes|)]
  }

  /** `ExportSubTree`: the node's Model chunk, then each child's subtree. */
  function SubTree(scene: AiScene, st: TreeState, node: AiNode): TreeState
    requires SceneValid(scene) && NodeValid(node, |scene.meshes|)
    decreases node, 1
  {
    Children(scene, NodeStep(scene, st, node), node, |node.children|)
  }

  /** The node's own part of `ExportSubTree`: its name, its meshes, then its Model chunk. */
  function NodeStep(scene: AiScene, st: TreeState, node: AiNode): TreeState
    requires SceneValid(scene) && NodeValid(node, |scene.meshes|)
  {
    var name := NodeName(node.name, st.nodeIds);
    var s1 := st.(nodeIds := st.nodeIds + 1);
    CloseNode(MeshesState(scene, s1, node, |node.meshes|), NodeHead(node, name) + MeshesData(scene, s1, name, node, |node.meshes|),
              |node.meshes|)
  }

  /** After the mesh loop: the mesh total advanced and the Model chunk written under the next model number. */
  function CloseNode(st: TreeState, data: seq<Field>, meshCount: nat): TreeState
  {
    st.(total := st.total + meshCount, models := st.models + 1, written := st.written + [Chunk(ModelName(st.models), data)])
  }

  /** The subtrees of the first `k` children, in order. */
  function Children(scene: AiScene, st: TreeState, node: AiNode, k: nat): TreeState
    requires SceneValid(scene) && NodeValid(node, |scene.meshes|) && k <= |node.children|
    decreases node, 0, k
  {
    if k == 0 then st else SubTree(scene, Children(scene, st, node, k - 1), node.children[k - 1])
  }

  /** One more child subtree. */
  lemma ChildrenStep(scene: AiScene, st: TreeState, node: AiNode, k: nat)
    requires SceneValid(scene) && NodeValid(node, |scene.meshes|) && k < |node.children|
    ensures Children(scene, st, node, k + 1) == SubTree(scene, Children(scene, st, node, k), node.children[k])
  {
  }

  // ---------------------------------------------------------------------------
  // Whole-scene chunks

  /** The base vertex of each mesh: the vertex count of all earlier meshes. */
  function VertexTotal(meshes: seq<AiMesh>, k: nat): nat
    requires k <= |meshes|
  {
    if k == 0 then 0 else VertexTotal(meshes, k - 1) + |meshes[k - 1].positions|
  }

  function AnyBones(meshes: seq<AiMesh>): bool
  {
    exists i :: 0 <= i < |meshes| && meshes[i].HasBones()
  }

  function TextureFields(t: AiTexture, i: nat): seq<Field>
  {
    var name := EmbeddedTextureName(i);
    if t.height == 0 then [U32(InternalCompressed.Code()), Text(name), U32(t.width), Raw(t.data)]
    else
      var head := [U32(Internal.Code()), Text(name), U32(t.width), U32(t.height)];
      match t.format
      case Rgba8888 => head + [Raw(t.data)]
      case Rgba8880 => head + [Converted(i)]
      case OtherFormat => head
  }

  function TexturesFields(ts: seq<AiTexture>, k: nat): seq<Field>
    requires k <= |ts|
  {
    if k == 0 then [] else TexturesFields(ts, k - 1) + TextureFields(ts[k - 1], k - 1)
  }

  /** The "Textures" chunk: the count, then per texture its storage kind, name, size and pixels. */
  function TexturesChunk(ts: seq<AiTexture>): Chunk
  {
    Chunk("Textures", [U32(|ts|)] + TexturesFields(ts, |ts|))
  }

  /** `ExportToSTUFormat` from the state after construction or a previous export. */
  function Export(st: TreeState, scene: Option<AiScene>, flip: bool): (bool, TreeState)
    requires scene.Some? ==> SceneValid(scene.value)
  {
    var st0 := Restart(st, flip);
    if scene.None? || |scene.value.meshes| == 0 then (false, st0)
    else
      var sc := scene.value;
      var after := SubTree(sc, BeforeTree(st0, sc), sc.root);
      (true, AfterTree(after, AnyBones(sc.meshes)))
  }

  /** The resets at the top of `ExportToSTUFormat`; the name counters and the bone table survive. */
  function Restart(st: TreeState, flip: bool): TreeState
  {
    st.(written := [], flip := flip, entries := [], bones := [], total := 0)
  }

  /** The state when the tree walk starts: offsets and influence lists set up, "Animations" and "Textures" written. */
  function BeforeTree(st: TreeState, sc: AiScene): TreeState
  {
    WithTextures(WithAnimations(WithOffsets(st, sc.meshes), sc.animations), sc.textures)
  }

  /** `m_Entries` filled and, when some mesh has bones, `m_Bones` sized to the scene's vertex total. */
  function WithOffsets(st: TreeState, meshes: seq<AiMesh>): TreeState
  {
    st.(entries := BaseVertices(meshes),
        bones := if AnyBones(meshes) then SeededLists(VertexTotal(meshes, |meshes|)) else st.bones)
  }

  /** A scene with animations switches to the Bones layout and writes "Animations". */
  function WithAnimations(st: TreeState, animations: seq<Animation>): TreeState
  {
    if |animations| > 0 then st.(layout := Bones, animated := true, written := st.written + [AnimationsChunk(animations)])
    else st
  }

  /** "Textures" written and the sub-model counters reset. */
  function WithTextures(st: TreeState, textures: seq<AiTexture>): TreeState
  {
    st.(written := st.written + [TexturesChunk(textures)], models := 0, vertexChunks := 0)
  }

  /** The influence lists dropped, then "Bones" written when some mesh has bones. */
  function AfterTree(st: TreeState, hasBones: bool): TreeState
  {
    var st1 := st.(bones := []);
    if hasBones then st1.(written := st1.written + [Chunk("Bones", BonesFields(st1.mapping, st1.infos))]) else st1
  }

  /** `m_Entries`: each mesh's base vertex. */
  function BaseVertices(meshes: seq<AiMesh>): (r: seq<nat>)
    ensures |r| == |meshes|
    ensures forall i :: 0 <= i < |meshes| ==> r[i] == VertexTotal(meshes, i)
  {
    seq(|meshes|, i requires 0 <= i < |meshes| => VertexTotal(meshes, i))
  }
}
