/**
 * The FBX adapter (`C3DModelFBX`) as a class over its own fields. Each method
 * performs the source's loops on those fields and is proved to leave them as
 * the matching function of `FbxScene` says. The source is built with
 * `STU_EXPORT_SEQUENTIAL` set: each chunk is appended to the `.stu` file as it
 * is made, and `Written` lists the chunks of that file. An export removes the
 * file before loading the scene, so `Written` restarts empty.
 */
module FbxExport {
  import opened Wrappers
  import opened CText
  import opened StuText
  import opened ModelData
  import opened SceneExport
  import opened FbxScene

  class FbxAdapter {
    var BoneMapping: map<u32, nat>
    var NumBones: nat
    var BoneInfo: seq<Mat4>
    var Bones: seq<Influences>
    var Animations: seq<Animation>
    var HasAnimations: bool
    var FlipUVonY: bool
    /** The size of `m_fbxSkeletons`. */
    var Skeletons: nat
    var SubModelCount: nat
    var SubModelVertexCount: nat
    var VertexType: VertexDataType
    /** The function-static counters of `ExportSubTree`. */
    var UnknownNodeId: nat
    var UnknownMeshId: nat
    /** The chunks handed to `WriteChunk`, in order. */
    var Written: seq<Chunk>

    function State(): FbxState
      reads this
    {
      FbxState(BoneMapping, NumBones, BoneInfo, Bones, Animations, HasAnimations, FlipUVonY, Skeletons,
               SubModelCount, SubModelVertexCount, VertexType, UnknownNodeId, UnknownMeshId, Written)
    }

    /** `m_VertexDataType` is left uninitialised by the constructor: `layout` stands for that value. */
    constructor(layout: VertexDataType)
      ensures State() == FbxState(map[], 0, [], [], [], false, false, 0, 0, 0, layout, 0, 0, [])
    {
      BoneMapping := map[];
      NumBones := 0;
      BoneInfo := [];
      Bones := [];
      Animations := [];
      HasAnimations := false;
      FlipUVonY := false;
      Skeletons := 0;
      SubModelCount := 0;
      SubModelVertexCount := 0;
      VertexType := layout;
      UnknownNodeId := 0;
      UnknownMeshId := 0;
      Written := [];
    }

    /** `ExportToSTUFormat(path, bFlipUV)`; `scene` is `None` when `LoadScene` fails. */
    method ExportToSTUFormat(scene: Option<FbxScene>, flip: bool) returns (ok: bool)
      modifies this
      ensures (ok, State()) == Export(old(State()), scene, flip)
    {
      Restart();
      if scene.None? {
        return false;
      }
      var sc := scene.value;
      Prepare(sc, flip);
      WriteAnimations();
      ExportSubTree(sc.root);
      Finish();
      ok := true;
    }

    /** The `.stu` file is removed: no chunk is left from earlier exports. */
    method Restart()
      modifies this
      ensures State() == Restarted(old(State()))
    {
      Written := [];
    }

    /** The flip flag, the skeleton search and the animation parse. */
    method Prepare(sc: FbxScene, flip: bool)
      modifies this
      ensures State() == Prepared(old(State()), sc, flip)
    {
      FlipUVonY := flip;
      Skeletons := ParseSubSkeletons(sc.root);
      if Skeletons > 0 {
        VertexType := VertexDataType.Bones;
      }
      HasAnimations := ParseAnimations(sc.stacks, sc.root);
    }

    /** The "Animations" chunk when animations were found, then the counter resets of `ExportSceneTree`. */
    method WriteAnimations()
      modifies this
      ensures State() == BeforeTree(old(State()))
    {
      ghost var s0 := State();
      if HasAnimations {
        var c := ExportAnimations(Animations);
        Written := Written + [c];
        assert State() == s0.(written := s0.written + [AnimationsChunk(s0.animations)]);
      }
      ghost var s1 := State();
      SubModelCount := 0;
      SubModelVertexCount := 0;
      assert State() == s1.(models := 0, vertexChunks := 0);
    }

    /** The "Bones" chunk when the scene has skeletons. */
    method Finish()
      modifies this
      ensures State() == AfterTree(old(State()))
    {
      if Skeletons > 0 {
        var c := ExportBones(BoneMapping, BoneInfo);
        Written := Written + [c];
      }
    }

    /** `ParseSubSkeletons`: the skeleton attributes of the subtree, counted. */
    static method ParseSubSkeletons(node: FbxNode) returns (n: nat)
      ensures n == SkeletonCount(node)
      decreases node
    {
      n := 0;
      var i := 0;
      while i < |node.attributes|
        invariant 0 <= i <= |node.attributes|
        invariant n == SkeletonsIn(node.attributes[..i])
      {
        assert node.attributes[..i + 1][..i] == node.attributes[..i];
        if node.attributes[i].SkeletonAttribute? {
          n := n + 1;
        }
        i := i + 1;
      }
      assert node.attributes[..i] == node.attributes;
      var k := 0;
      while k < |node.children|
        invariant 0 <= k <= |node.children|
        invariant n == SkeletonsIn(node.attributes) + SkeletonsOfChildren(node, k)
      {
        var c := ParseSubSkeletons(node.children[k]);
        n := n + c;
        k := k + 1;
      }
    }

    /** `ParseAnimations`: one animation per layer of every stack, kept when the layer has channels. */
    method ParseAnimations(stacks: seq<AnimStack>, root: FbxNode) returns (found: bool)
      modifies this
      ensures found <==> ParsedAnimations(stacks, root, |stacks|) != []
      ensures State() == old(State()).(animations := old(Animations) + ParsedAnimations(stacks, root, |stacks|))
    {
      found := false;
      var i := 0;
      while i < |stacks|
        invariant 0 <= i <= |stacks|
        invariant found <==> ParsedAnimations(stacks, root, i) != []
        invariant Animations == old(Animations) + ParsedAnimations(stacks, root, i)
        invariant State() == old(State()).(animations := Animations)
      {
        var kept := ParseStack(stacks[i], root);
        ParsedStep(stacks, root, i);
        AppendAssoc(old(Animations), ParsedAnimations(stacks, root, i), StackAnimations(stacks[i], root, |stacks[i].layers|));
        found := kept || found;
        i := i + 1;
      }
    }

    /** The layer loop of `ParseAnimations` for one stack. */
    method ParseStack(stack: AnimStack, root: FbxNode) returns (found: bool)
      modifies this
      ensures found <==> StackAnimations(stack, root, |stack.layers|) != []
      ensures State() == old(State()).(animations := old(Animations) + StackAnimations(stack, root, |stack.layers|))
    {
      found := false;
      var j := 0;
      while j < |stack.layers|
        invariant 0 <= j <= |stack.layers|
        invariant found <==> StackAnimations(stack, root, j) != []
        invariant State() == old(State()).(animations := old(Animations) + StackAnimations(stack, root, j))
      {
        var kept, channels := ParseAnimationLayer([], stack.layers[j], root);
        assert channels == LayerChannels(root, stack.layers[j]);
        if kept {
          var a := Animation(LayerName(stack, j), stack.ticksPerSecond, stack.duration, channels, []);
          AppendAssoc(old(Animations), StackAnimations(stack, root, j), [a]);
          Animations := Animations + [a];
          found := true;
        }
        j := j + 1;
      }
    }

    /** `ParseAnimationLayer`: the node's channel, then the children's, appended to `channels`. */
    static method ParseAnimationLayer(channels: seq<NodeAnim>, layer: nat, node: FbxNode) returns (found: bool, out: seq<NodeAnim>)
      ensures found <==> LayerChannels(node, layer) != []
      ensures out == channels + LayerChannels(node, layer)
      decreases node, 1
    {
      var own := ParseChannel(layer, node);
      var childFound;
      childFound, out := ParseChildren(channels + own, layer, node);
      found := childFound || own != [];
      AppendAssoc(channels, own, ChildrenChannels(node, layer, |node.children|));
    }

    /** The child loop of `ParseAnimationLayer`: each child subtree's channels appended in turn. */
    static method ParseChildren(channels: seq<NodeAnim>, layer: nat, node: FbxNode) returns (found: bool, out: seq<NodeAnim>)
      ensures found <==> ChildrenChannels(node, layer, |node.children|) != []
      ensures out == channels + ChildrenChannels(node, layer, |node.children|)
      decreases node, 0
    {
      out := channels;
      found := false;
      var k := 0;
      while k < |node.children|
        invariant 0 <= k <= |node.children|
        invariant out == channels + ChildrenChannels(node, layer, k)
        invariant found <==> ChildrenChannels(node, layer, k) != []
      {
        found, out := ParseChild(channels, layer, node, k, found, out);
        k := k + 1;
      }
    }

    /** Child `k` of the loop in `ParseChildren`. */
    static method ParseChild(channels: seq<NodeAnim>, layer: nat, node: FbxNode, k: nat, found0: bool, out0: seq<NodeAnim>)
      returns (found: bool, out: seq<NodeAnim>)
      requires k < |node.children|
      requires out0 == channels + ChildrenChannels(node, layer, k)
      requires found0 <==> ChildrenChannels(node, layer, k) != []
      ensures out == channels + ChildrenChannels(node, layer, k + 1)
      ensures found <==> ChildrenChannels(node, layer, k + 1) != []
      decreases node, 0, 0
    {
      ghost var before := ChildrenChannels(node, layer, k);
      ghost var sub := LayerChannels(node.children[k], layer);
      assert ChildrenChannels(node, layer, k + 1) == before + sub;
      var childFound;
      childFound, out := ParseAnimationLayer(out0, layer, node.children[k]);
      found := childFound || found0;
      AppendAssoc(channels, before, sub);
      assert |before + sub| == |before| + |sub|;
    }

    /** The channel part of `ParseAnimationLayer` for the node itself. */
    static method ParseChannel(layer: nat, node: FbxNode) returns (own: seq<NodeAnim>)
      ensures own == OwnChannel(node, layer)
    {
      own := [];
      if layer in node.curves && HasCurve(node.curves[layer]) {
        var c := node.curves[layer];
        var r := node.restR;
        var positions := MergeAxes([VectorKey(0.0, node.restT)], [c.tx, c.ty, c.tz], VectorTime);
        var rotations := MergeAxes([QuatKey(0.0, r.w, r.x, r.y, r.z)], [c.rx, c.ry, c.rz], QuatTime);
        var scalings := MergeAxes([VectorKey(0.0, node.restS)], [c.sx, c.sy, c.sz], VectorTime);
        var channel := NodeAnim(node.name, positions, rotations, scalings, DefaultBehaviour, DefaultBehaviour);
        if |positions| > 1 || |rotations| > 1 || |scalings| > 1 {
          own := [channel];
        }
      }
    }

    /** The three `PARSE_*_CURVE` expansions of one property, X then Y then Z. */
    static method MergeAxes<K>(keys: seq<K>, curves: seq<Option<seq<K>>>, time: K -> real) returns (r: seq<K>)
      ensures r == MergeCurves(keys, curves, time)
    {
      r := keys;
      var a := 0;
      while a < |curves|
        invariant 0 <= a <= |curves|
        invariant r == MergeCurves(keys, curves[..a], time)
      {
        assert curves[..a + 1][..a] == curves[..a];
        if curves[a].Some? {
          r := MergeCurve(r, curves[a].value, time);
        }
        a := a + 1;
      }
      assert curves[..a] == curves;
    }

    /** One `PARSE_*_CURVE` expansion: each curve key appended unless a key after the first lies near its time. */
    static method MergeCurve<K>(keys: seq<K>, curve: seq<K>, time: K -> real) returns (r: seq<K>)
      ensures r == MergeKeys(keys, curve, time)
    {
      r := keys;
      var i := 0;
      while i < |curve|
        invariant 0 <= i <= |curve|
        invariant r == MergeKeys(keys, curve[..i], time)
      {
        assert curve[..i + 1][..i] == curve[..i];
        var t := time(curve[i]);
        var found := false;
        var keyId := 1;
        while keyId < |r| && !found
          invariant 1 <= keyId
          invariant found ==> Seen(r, time, t)
          invariant !found ==> forall q :: 1 <= q < keyId && q < |r| ==> !Near(t, time(r[q]))
        {
          found := Near(t, time(r[keyId]));
          keyId := keyId + 1;
        }
        if !found {
          r := r + [curve[i]];
        }
        i := i + 1;
      }
      assert curve[..i] == curve;
    }

    /** `ExportSubTree`: the node's Model chunk, then the children in order. */
    method ExportSubTree(node: FbxNode)
      modifies this
      ensures State() == SubTree(old(State()), node)
      decreases node, 1
    {
      ExportNode(node);
      ExportChildren(node);
    }

    /** The child loop of `ExportSubTree`. */
    method ExportChildren(node: FbxNode)
      modifies this
      ensures State() == Children(old(State()), node, |node.children|)
      decreases node, 0
    {
      var i := 0;
      while i < |node.children|
        invariant 0 <= i <= |node.children|
        invariant State() == Children(old(State()), node, i)
      {
        ExportSubTree(node.children[i]);
        i := i + 1;
      }
    }

    /** The part of `ExportSubTree` before the child loop. */
    method ExportNode(node: FbxNode)
      modifies this
      ensures State() == NodeStep(old(State()), node)
    {
      ghost var s0 := State();
      var name := NodeName(node.name, UnknownNodeId);
      UnknownNodeId := UnknownNodeId + 1;
      assert State() == s0.(nodeIds := s0.nodeIds + 1);
      var meshes := CollectMeshes(node.attributes);
      var meshCount := CountWithPolygons(meshes);
      var mat := FindMaterial(node.materials);
      var data := ExportMeshes(name, mat, meshes, meshCount);
      WriteModel(NodeHead(node, name, meshCount) + data);
    }

    /** The Model chunk under the next model number. */
    method WriteModel(data: seq<Field>)
      modifies this
      ensures State() == CloseNode(old(State()), data)
    {
      var chunkName := ModelName(SubModelCount);
      SubModelCount := SubModelCount + 1;
      Written := Written + [Chunk(chunkName, data)];
    }

    /** The attribute loop: the node's mesh attributes, in order. */
    static method CollectMeshes(attrs: seq<Attribute>) returns (meshes: seq<FbxMesh>)
      ensures meshes == MeshesOf(attrs)
    {
      meshes := [];
      var i := 0;
      while i < |attrs|
        invariant 0 <= i <= |attrs|
        invariant meshes == MeshesOf(attrs[..i])
      {
        assert attrs[..i + 1][..i] == attrs[..i];
        if attrs[i].MeshAttribute? {
          meshes := meshes + [attrs[i].mesh];
        }
        i := i + 1;
      }
      assert attrs[..i] == attrs;
    }

    /** The first mesh loop: the meshes that have polygons, counted. */
    static method CountWithPolygons(meshes: seq<FbxMesh>) returns (n: nat)
      ensures n == WithPolygons(meshes, |meshes|)
    {
      n := 0;
      var i := 0;
      while i < |meshes|
        invariant 0 <= i <= |meshes|
        invariant n == WithPolygons(meshes, i)
      {
        if |meshes[i].polygons| > 0 {
          n := n + 1;
        }
        i := i + 1;
      }
    }

    /** The source-material loop: the first non-null material, or null. */
    static method FindMaterial(materials: seq<Option<FbxMaterial>>) returns (mat: Option<FbxMaterial>)
      ensures mat == FirstMaterial(materials)
    {
      mat := None;
      var i := 0;
      while i < |materials|
        invariant 0 <= i <= |materials|
        invariant mat == None
        invariant FirstMaterial(materials) == FirstMaterial(materials[i..])
      {
        assert materials[i..][1..] == materials[i + 1..];
        mat := materials[i];
        if mat.Some? {
          return;
        }
        i := i + 1;
      }
    }

    /**
     * The second mesh loop of `ExportSubTree`: indices below `meshCount`,
     * a mesh without polygons skipped.
     */
    method ExportMeshes(nodeName: CStr, mat: Option<FbxMaterial>, meshes: seq<FbxMesh>, meshCount: nat) returns (data: seq<Field>)
      requires meshCount <= |meshes|
      modifies this
      ensures State() == MeshesState(old(State()), mat, meshes, meshCount)
      ensures data == MeshesData(old(State()), nodeName, mat, meshes, meshCount)
    {
      data := [];
      var i := 0;
      while i < meshCount
        invariant 0 <= i <= meshCount
        invariant State() == MeshesState(old(State()), mat, meshes, i)
        invariant data == MeshesData(old(State()), nodeName, mat, meshes, i)
      {
        data := MeshesTurn(old(State()), nodeName, mat, meshes, i, data);
        i := i + 1;
      }
    }

    /** Index `i` of the mesh loop, from the state the loop has reached. */
    method MeshesTurn(ghost s0: FbxState, nodeName: CStr, mat: Option<FbxMaterial>, meshes: seq<FbxMesh>, i: nat, data0: seq<Field>)
      returns (data: seq<Field>)
      requires i < |meshes|
      requires State() == MeshesState(s0, mat, meshes, i)
      requires data0 == MeshesData(s0, nodeName, mat, meshes, i)
      modifies this
      ensures State() == MeshesState(s0, mat, meshes, i + 1)
      ensures data == MeshesData(s0, nodeName, mat, meshes, i + 1)
    {
      MeshesStep(s0, nodeName, mat, meshes, i);
      var record := VisitMesh(nodeName, mat, meshes[i]);
      data := data0 + record;
    }

    /** One turn of the mesh loop: a mesh without polygons is passed over. */
    method VisitMesh(nodeName: CStr, mat: Option<FbxMaterial>, mesh: FbxMesh) returns (record: seq<Field>)
      modifies this
      ensures State() == if |mesh.polygons| == 0 then old(State()) else MeshState(old(State()), mat, mesh)
      ensures record == if |mesh.polygons| == 0 then [] else MeshData(old(State()), nodeName, mat, mesh)
    {
      record := [];
      if |mesh.polygons| > 0 {
        record := ExportMesh(nodeName, mat, mesh);
      }
    }

    /** The body of the mesh loop for a mesh with polygons. */
    method ExportMesh(nodeName: CStr, mat: Option<FbxMaterial>, mesh: FbxMesh) returns (record: seq<Field>)
      modifies this
      ensures State() == MeshState(old(State()), mat, mesh)
      ensures record == MeshData(old(State()), nodeName, mat, mesh)
    {
      ghost var s0 := State();
      var meshName := MeshName(nodeName, mesh.name, UnknownMeshId);
      UnknownMeshId := UnknownMeshId + 1;
      ghost var s1 := State();
      assert s1 == s0.(meshIds := s0.meshIds + 1);
      LoadBones(mesh);
      assert HasAnimations == s0.animated && Skeletons == s0.skeletons;
      var animated := if HasAnimations then 1 else 0;
      var cornerCount := CountCorners(mesh.polygons);
      ghost var s2 := State();
      assert s2 == LoadedBones(s1, mesh);
      var layout := ExportVertices(mesh, UsesUVTransform(mat));
      assert State() == VertexState(s2, mesh, UsesUVTransform(mat));
      record := [Text(meshName), Text(mesh.name), U32(animated), U32(cornerCount), U32(layout.Code()),
                 U32(0), U32(Triangle.Code()), U32(0)]
                + SurfaceFields(mat);
    }

    /** The layout decision, the vertex chunk name and `ExportVertices`. */
    method ExportVertices(mesh: FbxMesh, textured: bool) returns (layout: VertexDataType)
      modifies this
      ensures layout == LayoutOf(mesh, old(Skeletons) > 0)
      ensures State() == VertexState(old(State()), mesh, textured)
    {
      layout := LayoutOf(mesh, Skeletons > 0);
      VertexType := layout;
      var vxName := VxName(SubModelVertexCount);
      SubModelVertexCount := SubModelVertexCount + 1;
      WriteVertexChunk(vxName, mesh, textured);
    }

    /** `GetPolygonVertexCount`: the polygon sizes summed. */
    static method CountCorners(polys: seq<seq<Corner>>) returns (n: nat)
      ensures n == |Corners(polys)|
    {
      n := 0;
      var p := 0;
      while p < |polys|
        invariant 0 <= p <= |polys|
        invariant n == |Corners(polys[..p])|
      {
        CornersStep(polys, p);
        n := n + |polys[p]|;
        p := p + 1;
      }
      assert polys[..p] == polys;
    }

    /** `LoadBones`: the lists reset and sized, then every cluster of every skin. */
    method LoadBones(mesh: FbxMesh)
      modifies this
      ensures State() == LoadedBones(old(State()), mesh)
    {
      Bones := [];
      if |mesh.skins| > 0 {
        var n := CountCorners(mesh.polygons);
        Bones := SeededLists(n);
      }
      ghost var s0 := State();
      for k := 0 to |mesh.skins|
        invariant State() == InternSkins(s0, mesh.skins, k)
      {
        LoadSkin(mesh.skins[k]);
      }
    }

    /** One skin of `LoadBones`: its clusters in order. */
    method LoadSkin(clusters: seq<Cluster>)
      modifies this
      ensures State() == InternClusters(old(State()), clusters, |clusters|)
    {
      ghost var s1 := State();
      for c := 0 to |clusters|
        invariant State() == InternClusters(s1, clusters, c)
      {
        LoadCluster(clusters[c]);
      }
    }

    /** One cluster of `LoadBones`: its bone interned, then its weights. */
    method LoadCluster(cluster: Cluster)
      modifies this
      ensures State() == InternCluster(old(State()), cluster)
    {
      var index := RegisterBone(cluster);
      ghost var s1 := State();
      for j := 0 to |cluster.weights|
        invariant State() == s1.(bones := ClusterWeights(s1.bones, index, cluster.weights, j))
      {
        var w := cluster.weights[j];
        if !Negligible(w.weight) {
          if w.vertex < |Bones| {
            Bones := Bones[w.vertex := InsertByWeight(Bones[w.vertex], BoneWeight(index, w.weight))];
          }
        }
      }
    }

    /** The name lookup of `LoadBones`: a new hash gets the next index and a pushed `BoneInfo`. */
    method RegisterBone(cluster: Cluster) returns (index: nat)
      modifies this
      ensures index == BoneIndex(old(BoneMapping), old(NumBones), NameHash(cluster.boneName))
      ensures var h := NameHash(cluster.boneName);
        State() == if h in old(BoneMapping) then old(State())
                   else old(State()).(mapping := old(BoneMapping)[h := old(NumBones)], numBones := old(NumBones) + 1,
                                      infos := old(BoneInfo) + [cluster.offset])
    {
      var h := MakeHashFromName(cluster.boneName);
      if h !in BoneMapping {
        index := NumBones;
        NumBones := NumBones + 1;
        BoneInfo := BoneInfo + [cluster.offset];
        BoneMapping := BoneMapping[h := index];
      } else {
        index := BoneMapping[h];
      }
    }

    /**
     * `ExportVerticesOfType`: the records and the box, then the two chunks
     * unless no record was written.
     */
    method WriteVertexChunk(name: CStr, mesh: FbxMesh, textured: bool)
      modifies this
      ensures State() == old(State()).(written := old(Written) + MeshChunks(name, old(FlipUVonY), old(Bones), old(VertexType), mesh, textured))
    {
      var records, box := VertexRecords(FlipUVonY, Bones, textured, mesh, VertexType);
      if records != [] {
        Written := Written + VertexChunks(name, records, box);
      }
    }

    /** The polygon loop of `ExportVerticesOfType`: a record per polygon vertex and the running box. */
    static method VertexRecords(flip: bool, bones: seq<Influences>, textured: bool, mesh: FbxMesh, layout: VertexDataType)
      returns (records: seq<Vertex>, box: Box)
      ensures records == Records(flip, bones, textured, mesh, layout, Corners(mesh.polygons))
      ensures box == BoundsOf(Positions(mesh, Corners(mesh.polygons)))
    {
      records := [];
      box := EmptyBox();
      var p := 0;
      while p < |mesh.polygons|
        invariant 0 <= p <= |mesh.polygons|
        invariant records == Records(flip, bones, textured, mesh, layout, Corners(mesh.polygons[..p]))
        invariant box == BoundsOf(Positions(mesh, Corners(mesh.polygons[..p])))
      {
        CornersStep(mesh.polygons, p);
        records, box := PolygonRecords(flip, bones, textured, mesh, layout, Corners(mesh.polygons[..p]), mesh.polygons[p], records, box);
        p := p + 1;
      }
      assert mesh.polygons[..p] == mesh.polygons;
    }

    /** The corner loop of `ExportVerticesOfType` for one polygon. */
    static method PolygonRecords(flip: bool, bones: seq<Influences>, textured: bool, mesh: FbxMesh, layout: VertexDataType,
                                 done: seq<Corner>, polygon: seq<Corner>, records0: seq<Vertex>, box0: Box)
      returns (records: seq<Vertex>, box: Box)
      requires records0 == Records(flip, bones, textured, mesh, layout, done)
      requires box0 == BoundsOf(Positions(mesh, done))
      ensures records == Records(flip, bones, textured, mesh, layout, done + polygon)
      ensures box == BoundsOf(Positions(mesh, done + polygon))
    {
      records, box := records0, box0;
      var k := 0;
      assert done + polygon[..0] == done;
      while k < |polygon|
        invariant 0 <= k <= |polygon|
        invariant ReadCorners(records, box, flip, bones, textured, mesh, layout, done + polygon[..k])
      {
        ReadPolygonStep(records, box, flip, bones, textured, mesh, layout, done, polygon, k);
        records := records + [RecordOf(flip, bones, textured, mesh, layout, polygon[k])];
        box := Grow(box, PositionOf(mesh, polygon[k]));
        k := k + 1;
      }
      assert polygon[..k] == polygon;
    }
  }
}
