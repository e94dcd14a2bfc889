/**
 * The FBX adapter's flattening rules, as functions over an imported FBX
 * scene: animation keys merged per channel, channels and layers pruned, the
 * per-mesh layout choice, the mesh loop of a node, bone interning from skin
 * clusters, the vertex records with their bounding box, the material block
 * and the texture descriptors, and the pre-order walk that writes one
 * "Model:<n>" chunk per node. `FbxExport` runs the same rules step by step on
 * the adapter's fields and is proved to agree.
 */
module FbxScene {
  import opened Wrappers
  import opened CText
  import opened StuText
  import opened ModelData
  import opened SceneExport

  // ---------------------------------------------------------------------------
  // The imported scene

  datatype Quat = Quat(w: real, x: real, y: real, z: real)

  /**
   * The animation curves of one node in one layer; `None` is a curve the SDK
   * does not return. Each curve key already carries the node's local
   * transform evaluated at the key time (translation, normalised rotation or
   * scale) and its time as read back from the time string.
   */
  datatype Curves = Curves(
    tx: Option<seq<VectorKey>>, ty: Option<seq<VectorKey>>, tz: Option<seq<VectorKey>>,
    rx: Option<seq<QuatKey>>, ry: Option<seq<QuatKey>>, rz: Option<seq<QuatKey>>,
    sx: Option<seq<VectorKey>>, sy: Option<seq<VectorKey>>, sz: Option<seq<VectorKey>>)

  /**
   * One polygon vertex: its control point, its UV as stored, the UV after the
   * diffuse texture's UV transform (the transform includes the flip), its
   * normal and its colour already multiplied by its alpha.
   */
  datatype Corner = Corner(controlPoint: nat, uv: UV, mappedUV: UV, normal: Vec3, color: Vec3)

  /** One control point index and weight of a skin cluster. */
  datatype ControlWeight = ControlWeight(vertex: nat, weight: real)

  /** A skin cluster: the linked bone's name, its bind-pose offset and its weights. */
  datatype Cluster = Cluster(boneName: CStr, offset: Mat4, weights: seq<ControlWeight>)

  /**
   * An `FbxMesh`: its polygons as lists of polygon vertices, whether it has a
   * normal, UV and colour layer element, and its skins (each a list of clusters).
   */
  datatype FbxMesh = FbxMesh(
    name: CStr,
    controlPoints: seq<Vec3>,
    polygons: seq<seq<Corner>>,
    hasNormals: bool,
    hasUVs: bool,
    hasColors: bool,
    skins: seq<seq<Cluster>>)

  /** The Phong part of a material: specular colour times factor, and shininess. */
  datatype Phong = Phong(specular: Vec3, shininess: real)

  /**
   * The Lambert part of a material: ambient and diffuse colours times their
   * factors, the undocumented "Opacity" property when present, and the
   * transparency factor.
   */
  datatype Lambert = Lambert(ambient: Vec3, diffuse: Vec3, opacity: Option<real>, transparency: real, phong: Option<Phong>)

  /**
   * The first material of a node. `lambert` is `None` for a material of
   * another class; `diffuseFileTexture` says whether the diffuse property
   * has a file texture (its UV transform then applies); the two paths are
   * what the texture lookup yields (the file name without folders), and
   * `hasDiffuse` whether the diffuse colour property exists.
   */
  datatype FbxMaterial = FbxMaterial(
    lambert: Option<Lambert>,
    diffuseFileTexture: bool,
    diffusePath: Option<CStr>,
    hasDiffuse: bool,
    bumpPath: Option<CStr>)

  datatype Attribute = MeshAttribute(mesh: FbxMesh) | SkeletonAttribute | OtherAttribute

  /**
   * An `FbxNode`: its local transform as a matrix and as rest translation,
   * rotation and scale, its attributes in order, its source material
   * objects (`None` for a null one), its curves per animation layer, and its
   * children.
   */
  datatype FbxNode = FbxNode(
    name: CStr,
    transform: Mat4,
    restT: Vec3,
    restR: Quat,
    restS: Vec3,
    attributes: seq<Attribute>,
    materials: seq<Option<FbxMaterial>>,
    curves: map<nat, Curves>,
    children: seq<FbxNode>)

  /** An animation stack: its name, frame rate and frame count, and its layers. */
  datatype AnimStack = AnimStack(name: CStr, ticksPerSecond: real, duration: real, layers: seq<nat>)

  datatype FbxScene = FbxScene(root: FbxNode, stacks: seq<AnimStack>)

  /** The number of nodes of the subtree. */
  function Size(node: FbxNode): (n: nat)
    ensures n >= 1
    decreases node, 1
  {
    1 + SizeOfChildren(node, |node.children|)
  }

  function SizeOfChildren(node: FbxNode, k: nat): nat
    requires k <= |node.children|
    decreases node, 0, k
  {
    if k == 0 then 0 else SizeOfChildren(node, k - 1) + Size(node.children[k - 1])
  }

  // ---------------------------------------------------------------------------
  // Skeletons

  function SkeletonsIn(attrs: seq<Attribute>): nat
  {
    if attrs == [] then 0
    else SkeletonsIn(attrs[..|attrs| - 1]) + (if attrs[|attrs| - 1].SkeletonAttribute? then 1 else 0)
  }

  /** `ParseSubSkeletons`: the skeleton attributes of the subtree, counted. */
  function SkeletonCount(node: FbxNode): nat
    decreases node, 1
  {
    SkeletonsIn(node.attributes) + SkeletonsOfChildren(node, |node.children|)
  }

  function SkeletonsOfChildren(node: FbxNode, k: nat): nat
    requires k <= |node.children|
    decreases node, 0, k
  {
    if k == 0 then 0 else SkeletonsOfChildren(node, k - 1) + SkeletonCount(node.children[k - 1])
  }

  // ---------------------------------------------------------------------------
  // Animation keys

  /** The tolerance of `glm::epsilonEqual` on key times. */
  const KEY_EPSILON: real := 0.00001

  /** `glm::epsilonEqual(a, b, 0.00001)`: the two times differ by less than the tolerance. */
  predicate Near(a: real, b: real)
  {
    -KEY_EPSILON < a - b < KEY_EPSILON
  }

  /** A key after the first (the rest key at index 0 is never compared) lies near time `t`. */
  predicate Seen<K>(keys: seq<K>, time: K -> real, t: real)
  {
    exists j :: 1 <= j < |keys| && Near(t, time(keys[j]))
  }

  /** The keys after the curve's keys were offered in order: each is appended unless already seen. */
  function MergeKeys<K>(keys: seq<K>, curve: seq<K>, time: K -> real): seq<K>
  {
    if curve == [] then keys
    else
      var before := MergeKeys(keys, curve[..|curve| - 1], time);
      var k := curve[|curve| - 1];
      if Seen(before, time, time(k)) then before else before + [k]
  }

  /** The X, Y and Z curves of one property merged in that order; a missing curve adds nothing. */
  function MergeCurves<K>(keys: seq<K>, curves: seq<Option<seq<K>>>, time: K -> real): seq<K>
  {
    if curves == [] then keys
    else
      var before := MergeCurves(keys, curves[..|curves| - 1], time);
      match curves[|curves| - 1]
      case None => before
      case Some(c) => MergeKeys(before, c, time)
  }

  function VectorTime(k: VectorKey): real { k.time }

  function QuatTime(k: QuatKey): real { k.time }

  /** Some of the nine curves exists. */
  predicate HasCurve(c: Curves)
  {
    c.tx.Some? || c.ty.Some? || c.tz.Some? || c.rx.Some? || c.ry.Some? || c.rz.Some? || c.sx.Some? || c.sy.Some? || c.sz.Some?
  }

  /** The channel of a node with curves: a rest key at time 0 per list, then the curve keys merged. */
  function ChannelOf(node: FbxNode, c: Curves): NodeAnim
  {
    var r := node.restR;
    NodeAnim(
      node.name,
      MergeCurves([VectorKey(0.0, node.restT)], [c.tx, c.ty, c.tz], VectorTime),
      MergeCurves([QuatKey(0.0, r.w, r.x, r.y, r.z)], [c.rx, c.ry, c.rz], QuatTime),
      MergeCurves([VectorKey(0.0, node.restS)], [c.sx, c.sy, c.sz], VectorTime),
      DefaultBehaviour, DefaultBehaviour)
  }

  /** A channel is kept when some list holds more than its rest key. */
  predicate Animated(ch: NodeAnim)
  {
    |ch.positions| > 1 || |ch.rotations| > 1 || |ch.scalings| > 1
  }

  /** The channel the node itself contributes to a layer: none, or one animated channel. */
  function OwnChannel(node: FbxNode, layer: nat): seq<NodeAnim>
  {
    if layer in node.curves && HasCurve(node.curves[layer]) && Animated(ChannelOf(node, node.curves[layer]))
    then [ChannelOf(node, node.curves[layer])]
    else []
  }

  /** `ParseAnimationLayer`: the node's channel, then the channels of each child subtree, in pre-order. */
  function LayerChannels(node: FbxNode, layer: nat): seq<NodeAnim>
    decreases node, 1
  {
    OwnChannel(node, layer) + ChildrenChannels(node, layer, |node.children|)
  }

  function ChildrenChannels(node: FbxNode, layer: nat, k: nat): seq<NodeAnim>
    requires k <= |node.children|
    decreases node, 0, k
  {
    if k == 0 then [] else ChildrenChannels(node, layer, k - 1) + LayerChannels(node.children[k - 1], layer)
  }

  /** The animation name of layer `id` of a stack: "<stack>.Layer<id>" when the stack has several layers. */
  function LayerName(stack: AnimStack, id: nat): CStr
  {
    if |stack.layers| > 1 then stack.name + ".Layer" + DecimalText(id) else stack.name
  }

  /** The animations of the first `k` layers of a stack; a layer without channels is dropped. */
  function StackAnimations(stack: AnimStack, root: FbxNode, k: nat): seq<Animation>
    requires k <= |stack.layers|
  {
    if k == 0 then []
    else
      var channels := LayerChannels(root, stack.layers[k - 1]);
      StackAnimations(stack, root, k - 1)
        + (if channels == [] then [] else [Animation(LayerName(stack, k - 1), stack.ticksPerSecond, stack.duration, channels, [])])
  }

  /** `ParseAnimations`: the kept layers of the first `k` stacks, in order. */
  function ParsedAnimations(stacks: seq<AnimStack>, root: FbxNode, k: nat): seq<Animation>
    requires k <= |stacks|
  {
    if k == 0 then [] else ParsedAnimations(stacks, root, k - 1) + StackAnimations(stacks[k - 1], root, |stacks[k - 1].layers|)
  }

  /** One more stack adds its animations; some are parsed exactly when the earlier stacks or this one yield some. */
  lemma ParsedStep(stacks: seq<AnimStack>, root: FbxNode, i: nat)
    requires i < |stacks|
    ensures var a, b := ParsedAnimations(stacks, root, i), StackAnimations(stacks[i], root, |stacks[i].layers|);
      ParsedAnimations(stacks, root, i + 1) == a + b && (a + b != [] <==> a != [] || b != [])
  {
  }

  // ---------------------------------------------------------------------------
  // The adapter's state while it walks the tree

  /**
   * The fields of the adapter the export reads or changes: the bone table,
   * the influence lists `m_Bones` of the current mesh, the animations kept so
   * far, the animation and flip flags, the skeleton count, the model and
   * vertex-chunk counters, the layout, the two static name counters and the
   * chunks in the exporter's buffer.
   */
  datatype FbxState = FbxState(
    mapping: map<u32, nat>,
    numBones: nat,
    infos: seq<Mat4>,
    bones: seq<Influences>,
    animations: seq<Animation>,
    animated: bool,
    flip: bool,
    skeletons: nat,
    models: nat,
    vertexChunks: nat,
    layout: VertexDataType,
    nodeIds: nat,
    meshIds: nat,
    written: seq<Chunk>)

  // ---------------------------------------------------------------------------
  // Bones

  /** `FLT_EPSILON`, 2^-23. */
  const FLT_EPSILON: real := 0.00000011920928955078125

  /** `glm::epsilonEqual(Weight, 0.0f, FLT_EPSILON)`: a weight too small to record. */
  predicate Negligible(w: real)
  {
    -FLT_EPSILON < w < FLT_EPSILON
  }

  /** The first `k` weights of a cluster added to the influence lists, negligible ones skipped. */
  function ClusterWeights(bones: seq<Influences>, id: nat, ws: seq<ControlWeight>, k: nat): (r: seq<Influences>)
    requires k <= |ws|
    ensures |r| == |bones|
  {
    if k == 0 then bones
    else
      var prev := ClusterWeights(bones, id, ws, k - 1);
      var w := ws[k - 1];
      if Negligible(w.weight) then prev else AddInfluence(prev, w.vertex, id, w.weight)
  }

  /** A cluster's bone interned (a new name hash gets the next index and its offset), then its weights added. */
  function InternCluster(st: FbxState, c: Cluster): (r: FbxState)
    ensures r == st.(mapping := r.mapping, numBones := r.numBones, infos := r.infos, bones := r.bones)
  {
    var h := NameHash(c.boneName);
    var id := BoneIndex(st.mapping, st.numBones, h);
    var st1 :=
      if h in st.mapping then st
      else st.(mapping := st.mapping[h := st.numBones], numBones := st.numBones + 1, infos := st.infos + [c.offset]);
    st1.(bones := ClusterWeights(st1.bones, id, c.weights, |c.weights|))
  }

  function InternClusters(st: FbxState, cs: seq<Cluster>, k: nat): (r: FbxState)
    requires k <= |cs|
    ensures r == st.(mapping := r.mapping, numBones := r.numBones, infos := r.infos, bones := r.bones)
  {
    if k == 0 then st else InternCluster(InternClusters(st, cs, k - 1), cs[k - 1])
  }

  function InternSkins(st: FbxState, skins: seq<seq<Cluster>>, k: nat): (r: FbxState)
    requires k <= |skins|
    ensures r == st.(mapping := r.mapping, numBones := r.numBones, infos := r.infos, bones := r.bones)
  {
    if k == 0 then st else InternClusters(InternSkins(st, skins, k - 1), skins[k - 1], |skins[k - 1]|)
  }

  /**
   * `LoadBones`: the lists cleared, sized to the polygon-vertex count when the
   * mesh has a skin, then every cluster of every skin interned.
   */
  function LoadedBones(st: FbxState, m: FbxMesh): (r: FbxState)
    ensures r == st.(mapping := r.mapping, numBones := r.numBones, infos := r.infos, bones := r.bones)
  {
    var lists := if |m.skins| > 0 then SeededLists(|Corners(m.polygons)|) else [];
    InternSkins(st.(bones := lists), m.skins, |m.skins|)
  }

  // ---------------------------------------------------------------------------
  // Vertex records

  /** The polygon vertices of all polygons, in polygon order. */
  function Corners(polys: seq<seq<Corner>>): seq<Corner>
  {
    if polys == [] then [] else Corners(polys[..|polys| - 1]) + polys[|polys| - 1]
  }

  /** The layout decision, made anew for every mesh. */
  function LayoutOf(m: FbxMesh, skeletons: bool): (r: VertexDataType)
    ensures r == Bones <==> m.hasNormals && skeletons
    ensures r == Normals <==> m.hasNormals && !skeletons && m.hasUVs
    ensures r == Textured <==> !m.hasNormals && m.hasUVs
    ensures r == Points <==> !(m.hasNormals && skeletons) && !m.hasUVs && m.hasColors
    ensures r == Simple <==> !(m.hasNormals && skeletons) && !m.hasUVs && !m.hasColors
  {
    if m.hasNormals then
      if skeletons then Bones
      else if m.hasUVs then Normals
      else if m.hasColors then Points
      else Simple
    else if m.hasUVs then Textured
    else if m.hasColors then Points
    else Simple
  }

  /**
   * The position of a polygon vertex. A control point index past the end is
   * undefined behaviour in the source; the model reads the origin.
   */
  function PositionOf(m: FbxMesh, c: Corner): Vec3
  {
    if c.controlPoint < |m.controlPoints| then m.controlPoints[c.controlPoint] else Vec3(0.0, 0.0, 0.0)
  }

  /** The texture coordinate: transformed by the diffuse texture when it has one, flipped otherwise; kept without a UV element. */
  function TexcoordOf(m: FbxMesh, c: Corner, textured: bool, flip: bool): Slot<UV>
  {
    if !m.hasUVs then Kept else if textured then Set(c.mappedUV) else Set(FlipV(c.uv, flip))
  }

  function NormalOf(m: FbxMesh, c: Corner): Slot<Vec3>
  {
    if m.hasNormals then Set(c.normal) else Kept
  }

  function ColorOf(m: FbxMesh, c: Corner): Slot<Vec3>
  {
    if m.hasColors then Set(c.color) else Kept
  }

  /** The record of one polygon vertex in `layout`; a skinned record reads the list of its control point. */
  function RecordOf(flip: bool, bones: seq<Influences>, textured: bool, m: FbxMesh, layout: VertexDataType, c: Corner): Vertex
  {
    var p := PositionOf(m, c);
    match layout
    case Simple => SimpleVertex(p)
    case Points => PointsVertex(p, ColorOf(m, c))
    case Textured => TexturedVertex(p, TexcoordOf(m, c, textured, flip))
    case Normals => NormalsVertex(p, NormalOf(m, c), TexcoordOf(m, c, textured, flip))
    case Bones => BonesVertex(p, NormalOf(m, c), TexcoordOf(m, c, textured, flip), SkinAt(bones, c.controlPoint))
  }

  /** The records of the polygon vertices `cs`: one per polygon vertex, in order. */
  function Records(flip: bool, bones: seq<Influences>, textured: bool, m: FbxMesh, layout: VertexDataType, cs: seq<Corner>): (r: seq<Vertex>)
    ensures |r| == |cs|
    ensures forall i :: 0 <= i < |cs| ==> r[i] == RecordOf(flip, bones, textured, m, layout, cs[i])
  {
    if cs == [] then []
    else Records(flip, bones, textured, m, layout, cs[..|cs| - 1]) + [RecordOf(flip, bones, textured, m, layout, cs[|cs| - 1])]
  }

  function Positions(m: FbxMesh, cs: seq<Corner>): (r: seq<Vec3>)
    ensures |r| == |cs|
    ensures forall i :: 0 <= i < |cs| ==> r[i] == PositionOf(m, cs[i])
  {
    if cs == [] then [] else Positions(m, cs[..|cs| - 1]) + [PositionOf(m, cs[|cs| - 1])]
  }

  lemma CornersStep(polys: seq<seq<Corner>>, p: nat)
    requires p < |polys|
    ensures Corners(polys[..p + 1]) == Corners(polys[..p]) + polys[p]
  {
    assert polys[..p + 1][..p] == polys[..p];
  }

  /** One more polygon vertex: one more record, and the box grown by its position. */
  lemma RecordsSnoc(flip: bool, bones: seq<Influences>, textured: bool, m: FbxMesh, layout: VertexDataType, cs: seq<Corner>, c: Corner)
    ensures Records(flip, bones, textured, m, layout, cs + [c])
         == Records(flip, bones, textured, m, layout, cs) + [RecordOf(flip, bones, textured, m, layout, c)]
    ensures BoundsOf(Positions(m, cs + [c])) == Grow(BoundsOf(Positions(m, cs)), PositionOf(m, c))
  {
    assert (cs + [c])[..|cs|] == cs;
    var ps := Positions(m, cs + [c]);
    assert ps[..|ps| - 1] == Positions(m, cs);
  }

  /** `records` and `box` are the records and the box of the polygon vertices `cs`. */
  predicate ReadCorners(records: seq<Vertex>, box: Box, flip: bool, bones: seq<Influences>, textured: bool, m: FbxMesh,
                        layout: VertexDataType, cs: seq<Corner>)
  {
    records == Records(flip, bones, textured, m, layout, cs) && box == BoundsOf(Positions(m, cs))
  }

  /** Reading one more polygon vertex extends the records and the box. */
  lemma ReadCornersSnoc(records: seq<Vertex>, box: Box, flip: bool, bones: seq<Influences>, textured: bool, m: FbxMesh,
                        layout: VertexDataType, cs: seq<Corner>, c: Corner)
    requires ReadCorners(records, box, flip, bones, textured, m, layout, cs)
    ensures ReadCorners(records + [RecordOf(flip, bones, textured, m, layout, c)], Grow(box, PositionOf(m, c)),
                        flip, bones, textured, m, layout, cs + [c])
  {
    RecordsSnoc(flip, bones, textured, m, layout, cs, c);
  }

  /** Reading polygon vertex `k` after the vertices `done` and the first `k` of the polygon. */
  lemma ReadPolygonStep(records: seq<Vertex>, box: Box, flip: bool, bones: seq<Influences>, textured: bool, m: FbxMesh,
                        layout: VertexDataType, done: seq<Corner>, polygon: seq<Corner>, k: nat)
    requires k < |polygon| && ReadCorners(records, box, flip, bones, textured, m, layout, done + polygon[..k])
    ensures ReadCorners(records + [RecordOf(flip, bones, textured, m, layout, polygon[k])], Grow(box, PositionOf(m, polygon[k])),
                        flip, bones, textured, m, layout, done + polygon[..k + 1])
  {
    ReadCornersSnoc(records, box, flip, bones, textured, m, layout, done + polygon[..k], polygon[k]);
    PrefixSnoc(polygon, k);
    AppendAssoc(done, polygon[..k], [polygon[k]]);
  }

  // ---------------------------------------------------------------------------
  // Material

  /** The material the mesh loop picks: the first non-null source material of the node. */
  function FirstMaterial(ms: seq<Option<FbxMaterial>>): (r: Option<FbxMaterial>)
    ensures r.None? <==> forall i :: 0 <= i < |ms| ==> ms[i].None?
    ensures r.Some? ==> exists i :: 0 <= i < |ms| && ms[i] == r && forall j :: 0 <= j < i ==> ms[j].None?
  {
    if ms == [] then None
    else if ms[0].Some? then ms[0]
    else
      var r := FirstMaterial(ms[1..]);
      assert forall i :: 1 <= i < |ms| ==> ms[i] == ms[1..][i - 1];
      r
  }

  /** The diffuse file texture's UV transform applies to the mesh's texture coordinates. */
  function UsesUVTransform(mat: Option<FbxMaterial>): bool
  {
    mat.Some? && mat.value.diffuseFileTexture
  }

  /** The material block: defaults, replaced by a Lambert material's colours and alpha and a Phong material's specular and shininess. */
  function MaterialOf(mat: Option<FbxMaterial>): Material
  {
    var defaults := Material(Grey(0.5), Grey(0.75), Grey(1.0), 16.0, 1.0);
    if mat.None? || mat.value.lambert.None? then defaults
    else
      var l := mat.value.lambert.value;
      var alpha := if l.opacity.Some? then l.opacity.value else 1.0 - l.transparency;
      match l.phong
      case None => defaults.(ambient := l.ambient, diffuse := l.diffuse, alpha := alpha)
      case Some(p) => Material(l.ambient, l.diffuse, p.specular, p.shininess, alpha)
  }

  /** The diffuse descriptor: the rewritten texture name, else the colour entry with the material alpha, else none. */
  function DiffuseSlot(mat: Option<FbxMaterial>): TextureSlot
  {
    if mat.Some? && mat.value.diffusePath.Some? then Named(Diffuse, ReplaceUnrecognizedInternalTextureFormats(mat.value.diffusePath.value).name)
    else if mat.Some? && mat.value.hasDiffuse then ColorAlpha(MaterialOf(mat).alpha)
    else NoTexture
  }

  /** The height descriptor: the rewritten bump texture name, else none. */
  function HeightSlot(mat: Option<FbxMaterial>): TextureSlot
  {
    if mat.Some? && mat.value.bumpPath.Some? then Named(Height, ReplaceUnrecognizedInternalTextureFormats(mat.value.bumpPath.value).name)
    else NoTexture
  }

  function SurfaceFields(mat: Option<FbxMaterial>): seq<Field>
  {
    MaterialFields(MaterialOf(mat)) + SlotFields(DiffuseSlot(mat)) + SlotFields(HeightSlot(mat))
  }

  // ---------------------------------------------------------------------------
  // One mesh, one node, the tree

  /** `nodeName + ".mesh(<name>-k)"`, or with UNKNOWN for an empty mesh name. */
  function MeshName(nodeName: CStr, meshName: CStr, k: nat): CStr
  {
    DisplayName(nodeName + ".mesh", meshName, k)
  }

  /** The mesh's vertex chunk pair, or nothing when it has no polygon vertex. */
  function MeshChunks(name: CStr, flip: bool, bones: seq<Influences>, layout: VertexDataType, m: FbxMesh, textured: bool): seq<Chunk>
  {
    var cs := Corners(m.polygons);
    if cs == [] then []
    else VertexChunks(name, Records(flip, bones, textured, m, layout, cs), BoundsOf(Positions(m, cs)))
  }

  /** After `LoadBones`: the layout decided, the vertex counter advanced and the chunk pair written. */
  function VertexState(st: FbxState, m: FbxMesh, textured: bool): FbxState
  {
    st.(layout := LayoutOf(m, st.skeletons > 0), vertexChunks := st.vertexChunks + 1,
        written := st.written + MeshChunks(VxName(st.vertexChunks), st.flip, st.bones, LayoutOf(m, st.skeletons > 0), m, textured))
  }

  /** The state after one mesh with polygons: the mesh counter advanced, its bones loaded, its vertices written. */
  function MeshState(st: FbxState, mat: Option<FbxMaterial>, m: FbxMesh): FbxState
  {
    VertexState(LoadedBones(st.(meshIds := st.meshIds + 1), m), m, UsesUVTransform(mat))
  }

  /**
   * The record of one mesh in the node payload: its two names, the animation
   * flag, the polygon-vertex count, the layout, an empty index list, the
   * triangle tag, two-sided 0 and the surface.
   */
  function MeshData(st: FbxState, nodeName: CStr, mat: Option<FbxMaterial>, m: FbxMesh): seq<Field>
  {
    [Text(MeshName(nodeName, m.name, st.meshIds)), Text(m.name), U32(if st.animated then 1 else 0),
     U32(|Corners(m.polygons)|), U32(LayoutOf(m, st.skeletons > 0).Code()),
     U32(0), U32(Triangle.Code()), U32(0)]
    + SurfaceFields(mat)
  }

  /** The mesh attributes of a node, in attribute order. */
  function MeshesOf(attrs: seq<Attribute>): seq<FbxMesh>
  {
    if attrs == [] then []
    else MeshesOf(attrs[..|attrs| - 1]) + (if attrs[|attrs| - 1].MeshAttribute? then [attrs[|attrs| - 1].mesh] else [])
  }

  /** The number of meshes with polygons among the first `k`. */
  function WithPolygons(ms: seq<FbxMesh>, k: nat): (n: nat)
    requires k <= |ms|
    ensures n <= k
  {
    if k == 0 then 0 else WithPolygons(ms, k - 1) + (if |ms[k - 1].polygons| > 0 then 1 else 0)
  }

  /** The state after the mesh loop has visited indices `0..k-1`; a mesh without polygons is skipped. */
  function MeshesState(st: FbxState, mat: Option<FbxMaterial>, ms: seq<FbxMesh>, k: nat): FbxState
    requires k <= |ms|
    decreases k, 0
  {
    if k == 0 then st else AfterMeshState(st, mat, ms, k - 1)
  }

  function AfterMeshState(st: FbxState, mat: Option<FbxMaterial>, ms: seq<FbxMesh>, i: nat): FbxState
    requires i < |ms|
    decreases i, 1
  {
    var s := MeshesState(st, mat, ms, i);
    if |ms[i].polygons| == 0 then s else MeshState(s, mat, ms[i])
  }

  /** The mesh records written while the loop visits indices `0..k-1`. */
  function MeshesData(st: FbxState, nodeName: CStr, mat: Option<FbxMaterial>, ms: seq<FbxMesh>, k: nat): seq<Field>
    requires k <= |ms|
    decreases k, 0
  {
    if k == 0 then [] else AfterMeshData(st, nodeName, mat, ms, k - 1)
  }

  function AfterMeshData(st: FbxState, nodeName: CStr, mat: Option<FbxMaterial>, ms: seq<FbxMesh>, i: nat): seq<Field>
    requires i < |ms|
    decreases i, 1
  {
    var d := MeshesData(st, nodeName, mat, ms, i);
    if |ms[i].polygons| == 0 then d else d + MeshData(MeshesState(st, mat, ms, i), nodeName, mat, ms[i])
  }

  /** One more index of the mesh loop. */
  lemma MeshesStep(st: FbxState, nodeName: CStr, mat: Option<FbxMaterial>, ms: seq<FbxMesh>, k: nat)
    requires k < |ms|
    ensures MeshesState(st, mat, ms, k + 1)
         == if |ms[k].polygons| == 0 then MeshesState(st, mat, ms, k) else MeshState(MeshesState(st, mat, ms, k), mat, ms[k])
    ensures MeshesData(st, nodeName, mat, ms, k + 1)
         == if |ms[k].polygons| == 0 then MeshesData(st, nodeName, mat, ms, k)
            else MeshesData(st, nodeName, mat, ms, k) + MeshData(MeshesState(st, mat, ms, k), nodeName, mat, ms[k])
  {
  }

  /** The display name of a node: "Fbx.(<name>-k)" or "Fbx.(UNKNOWN-k)". */
  function NodeName(name: CStr, k: nat): CStr
  {
    DisplayName("Fbx.", name, k)
  }

  /** The payload start of a node's Model chunk: child count, names, matrix, mesh count. */
  function NodeHead(node: FbxNode, nodeName: CStr, meshCount: nat): seq<Field>
  {
    [U32(|node.children|), Text(nodeName), Text(node.name), Matrix(node.transform), U32(meshCount)]
  }

  /** The node's own part of `ExportSubTree`: its name, the mesh loop, then its Model chunk. */
  function NodeStep(st: FbxState, node: FbxNode): FbxState
  {
    var name := NodeName(node.name, st.nodeIds);
    var s1 := st.(nodeIds := st.nodeIds + 1);
    var ms := MeshesOf(node.attributes);
    var n := WithPolygons(ms, |ms|);
    var mat := FirstMaterial(node.materials);
    CloseNode(MeshesState(s1, mat, ms, n), NodeHead(node, name, n) + MeshesData(s1, name, mat, ms, n))
  }

  /** The Model chunk written under the next model number. */
  function CloseNode(st: FbxState, data: seq<Field>): FbxState
  {
    st.(models := st.models + 1, written := st.written + [Chunk(ModelName(st.models), data)])
  }

  /** `ExportSubTree`: the node's Model chunk, then each child's subtree. */
  function SubTree(st: FbxState, node: FbxNode): FbxState
    decreases node, 1
  {
    Children(NodeStep(st, node), node, |node.children|)
  }

  function Children(st: FbxState, node: FbxNode, k: nat): FbxState
    requires k <= |node.children|
    decreases node, 0, k
  {
    if k == 0 then st else SubTree(Children(st, node, k - 1), node.children[k - 1])
  }

  // ---------------------------------------------------------------------------
  // The whole export

  /** Skeletons found, flip flag stored, the parsed animations added to those kept from earlier exports. */
  function Prepared(st: FbxState, sc: FbxScene, flip: bool): FbxState
  {
    var skeletons := SkeletonCount(sc.root);
    var parsed := ParsedAnimations(sc.stacks, sc.root, |sc.stacks|);
    st.(flip := flip, skeletons := skeletons, layout := if skeletons > 0 then Bones else st.layout,
        animations := st.animations + parsed, animated := parsed != [])
  }

  /** "Animations" when this export found an animated layer, then the counter resets of `ExportSceneTree`. */
  function BeforeTree(st: FbxState): FbxState
  {
    var st1 := if st.animated then st.(written := st.written + [AnimationsChunk(st.animations)]) else st;
    st1.(models := 0, vertexChunks := 0)
  }

  /** "Bones" when the scene has skeletons. */
  function AfterTree(st: FbxState): FbxState
  {
    if st.skeletons > 0 then st.(written := st.written + [Chunk("Bones", BonesFields(st.mapping, st.infos))]) else st
  }

  /** `std::remove` of the `.stu` file before the scene is loaded: no chunk is left from earlier exports. */
  function Restarted(st: FbxState): FbxState
  {
    st.(written := [])
  }

  /** `ExportToSTUFormat`; `scene` is `None` when loading fails. */
  function Export(st: FbxState, scene: Option<FbxScene>, flip: bool): (bool, FbxState)
  {
    var st0 := Restarted(st);
    if scene.None? then (false, st0)
    else (true, AfterTree(SubTree(BeforeTree(Prepared(st0, scene.value, flip)), scene.value.root)))
  }
}
