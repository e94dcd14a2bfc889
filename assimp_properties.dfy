/**
 * What the Assimp walk promises about the chunks it writes: one "Model:<n>"
 * chunk per node, numbered in pre-order from 0 in every export, the mesh
 * total and the static node counter advanced by the subtree, the bone table
 * kept dense, and the whole-file chunk order around the tree.
 */
module AssimpProperties {
  import opened Wrappers
  import opened CText
  import opened StuText
  import opened ModelData
  import opened SceneExport
  import opened AssimpScene

  // ---------------------------------------------------------------------------
  // Advancing the walk

  ghost predicate Dense(st: TreeState)
  {
    DenseTable(st.mapping, st.numBones, |st.infos|)
  }

  /**
   * From `a` to `b` the walk appended chunks only, among them `nodes` Model
   * chunks numbered on from `a.models`; the model and node counters grew by
   * `nodes` and the mesh total by `meshes`.
   */
  ghost predicate Advance(a: TreeState, b: TreeState, nodes: nat, meshes: nat)
  {
    && |a.written| <= |b.written| && b.written[..|a.written|] == a.written
    && NumberedFrom(ModelChunks(b.written[|a.written|..]), a.models, nodes)
    && b.models == a.models + nodes
    && b.nodeIds == a.nodeIds + nodes
    && b.total == a.total + meshes
  }

  lemma AdvanceRefl(st: TreeState)
    ensures Advance(st, st, 0, 0)
  {
    assert st.written[|st.written|..] == [];
  }

  lemma AdvanceTrans(a: TreeState, b: TreeState, c: TreeState, n1: nat, m1: nat, n2: nat, m2: nat)
    requires Advance(a, b, n1, m1) && Advance(b, c, n2, m2)
    ensures Advance(a, c, n1 + n2, m1 + m2)
  {
    PrefixCompose(a.written, b.written, c.written);
    NumberedConcat(b.written[|a.written|..], c.written[|b.written|..], a.models, n1, n2);
  }

  // ---------------------------------------------------------------------------
  // Bones

  /** A bone interned into a dense table leaves it dense: a new hash gets the next index and one more `BoneInfo`. */
  lemma InternBoneDense(st: TreeState, bone: AiBone, base: Option<nat>)
    requires Dense(st)
    ensures Dense(InternBone(st, bone, base))
  {
    var h := NameHash(bone.name);
    if h !in st.mapping {
      InternKeepsDense(st.mapping, st.numBones, |st.infos|, h);
    }
  }

  lemma {:induction false} InternBonesDense(st: TreeState, bones: seq<AiBone>, base: Option<nat>, k: nat)
    requires k <= |bones| && Dense(st)
    ensures Dense(InternBones(st, bones, base, k))
  {
    if k > 0 {
      InternBonesDense(st, bones, base, k - 1);
      InternBoneDense(InternBones(st, bones, base, k - 1), bones[k - 1], base);
    }
  }

  // ---------------------------------------------------------------------------
  // Meshes, nodes, subtrees

  /** The vertex chunks of a mesh are appended after the earlier chunks and are not Model chunks. */
  lemma VertexStateAdvance(st: TreeState, mesh: AiMesh, base: Option<nat>)
    requires mesh.Valid()
    ensures Advance(st, VertexState(st, mesh, base), 0, 0)
  {
    if |mesh.positions| == 0 {
      AdvanceRefl(st);
    } else {
      var vs := Records(st.flip, st.bones, mesh, LayoutFor(st.layout, mesh), base, |mesh.positions|);
      var chunks := VertexChunks(VxName(st.vertexChunks), vs, BoundsOf(mesh.positions));
      var w := VertexState(st, mesh, base).written;
      assert w == st.written + chunks;
      assert w[|st.written|..] == chunks;
      VertexChunksAreNotModels(st.vertexChunks, vs, BoundsOf(mesh.positions));
    }
  }

  /** A mesh writes no Model chunk and leaves the counters of the walk alone. */
  lemma MeshStateAdvance(scene: AiScene, st: TreeState, node: AiNode, i: nat)
    requires SceneValid(scene) && i < |node.meshes| && node.meshes[i] < |scene.meshes|
    ensures Advance(st, MeshState(scene, st, node, i), 0, 0)
  {
    var mesh := scene.meshes[node.meshes[i]];
    assert mesh.Valid();
    var base := BaseVertex(st.entries, st.total + i);
    var s0 := st.(meshIds := st.meshIds + 1);
    var st1 := InternBones(s0, mesh.bones, base, |mesh.bones|);
    AdvanceRefl(st1);
    VertexStateAdvance(st1, mesh, base);
    AdvanceTrans(st, st1, VertexState(st1, mesh, base), 0, 0, 0, 0);
  }

  lemma {:induction false} MeshesAdvance(scene: AiScene, st: TreeState, node: AiNode, k: nat)
    requires SceneValid(scene) && k <= |node.meshes| && NodeValid(node, |scene.meshes|)
    ensures Advance(st, MeshesState(scene, st, node, k), 0, 0)
  {
    if k == 0 {
      AdvanceRefl(st);
    } else {
      var q := MeshesState(scene, st, node, k - 1);
      MeshesAdvance(scene, st, node, k - 1);
      MeshStateAdvance(scene, q, node, k - 1);
      assert MeshesState(scene, st, node, k) == MeshState(scene, q, node, k - 1);
      AdvanceTrans(st, q, MeshesState(scene, st, node, k), 0, 0, 0, 0);
    }
  }

  /** Closing a node after its meshes adds one Model chunk, numbered next, and counts the node and its meshes. */
  lemma CloseNodeAdvance(st: TreeState, q: TreeState, data: seq<Field>, meshCount: nat)
    requires Advance(st.(nodeIds := st.nodeIds + 1), q, 0, 0)
    ensures Advance(st, CloseNode(q, data, meshCount), 1, meshCount)
  {
    var r := CloseNode(q, data, meshCount);
    var model := Chunk(ModelName(st.models), data);
    var x := q.written[|st.written|..];
    assert r.written == st.written + x + [model];
    assert r.written[|st.written|..] == x + [model];
    ModelChunksAppend(x, [model]);
    ModelChunkOfName(st.models, data);
  }

  /** A node writes exactly one Model chunk, numbered next, after its meshes' vertex chunks. */
  lemma NodeStepAdvance(scene: AiScene, st: TreeState, node: AiNode)
    requires SceneValid(scene) && NodeValid(node, |scene.meshes|)
    ensures Advance(st, NodeStep(scene, st, node), 1, |node.meshes|)
  {
    var name := NodeName(node.name, st.nodeIds);
    var s1 := st.(nodeIds := st.nodeIds + 1);
    var q := MeshesState(scene, s1, node, |node.meshes|);
    var data := NodeHead(node, name) + MeshesData(scene, s1, name, node, |node.meshes|);
    MeshesAdvance(scene, s1, node, |node.meshes|);
    CloseNodeAdvance(st, q, data, |node.meshes|);
    assert NodeStep(scene, st, node) == CloseNode(q, data, |node.meshes|);
  }

  /** The subtree of `node` writes `Size(node)` Model chunks numbered on from the current model count. */
  lemma {:induction false} SubTreeAdvance(scene: AiScene, st: TreeState, node: AiNode)
    requires SceneValid(scene) && NodeValid(node, |scene.meshes|)
    ensures Advance(st, SubTree(scene, st, node), Size(node), MeshRefs(node))
    decreases node, 1
  {
    var ns := NodeStep(scene, st, node);
    NodeStepAdvance(scene, st, node);
    ChildrenAdvance(scene, ns, node, |node.children|);
    AdvanceTrans(st, ns, SubTree(scene, st, node), 1, |node.meshes|,
                 SizeOfChildren(node, |node.children|), MeshRefsOfChildren(node, |node.children|));
  }

  lemma {:induction false} ChildrenAdvance(scene: AiScene, st: TreeState, node: AiNode, k: nat)
    requires SceneValid(scene) && NodeValid(node, |scene.meshes|) && k <= |node.children|
    ensures Advance(st, Children(scene, st, node, k), SizeOfChildren(node, k), MeshRefsOfChildren(node, k))
    decreases node, 0, k
  {
    if k == 0 {
      AdvanceRefl(st);
    } else {
      var c := Children(scene, st, node, k - 1);
      var child := node.children[k - 1];
      ChildrenAdvance(scene, st, node, k - 1);
      assert NodeValid(child, |scene.meshes|);
      SubTreeAdvance(scene, c, child);
      AdvanceTrans(st, c, Children(scene, st, node, k), SizeOfChildren(node, k - 1), MeshRefsOfChildren(node, k - 1),
                   Size(child), MeshRefs(child));
    }
  }

  // ---------------------------------------------------------------------------
  // The bone table stays dense along the walk

  lemma MeshStateDense(scene: AiScene, st: TreeState, node: AiNode, i: nat)
    requires SceneValid(scene) && i < |node.meshes| && node.meshes[i] < |scene.meshes|
    requires Dense(st)
    ensures Dense(MeshState(scene, st, node, i))
  {
    var mesh := scene.meshes[node.meshes[i]];
    var base := BaseVertex(st.entries, st.total + i);
    InternBonesDense(st.(meshIds := st.meshIds + 1), mesh.bones, base, |mesh.bones|);
  }

  lemma {:induction false} MeshesDense(scene: AiScene, st: TreeState, node: AiNode, k: nat)
    requires SceneValid(scene) && k <= |node.meshes| && NodeValid(node, |scene.meshes|)
    requires Dense(st)
    ensures Dense(MeshesState(scene, st, node, k))
  {
    if k > 0 {
      var q := MeshesState(scene, st, node, k - 1);
      MeshesDense(scene, st, node, k - 1);
      MeshStateDense(scene, q, node, k - 1);
      assert MeshesState(scene, st, node, k) == MeshState(scene, q, node, k - 1);
    }
  }

  lemma {:induction false} SubTreeDense(scene: AiScene, st: TreeState, node: AiNode)
    requires SceneValid(scene) && NodeValid(node, |scene.meshes|)
    requires Dense(st)
    ensures Dense(SubTree(scene, st, node))
    decreases node, 1
  {
    MeshesDense(scene, st.(nodeIds := st.nodeIds + 1), node, |node.meshes|);
    ChildrenDense(scene, NodeStep(scene, st, node), node, |node.children|);
  }

  lemma {:induction false} ChildrenDense(scene: AiScene, st: TreeState, node: AiNode, k: nat)
    requires SceneValid(scene) && NodeValid(node, |scene.meshes|) && k <= |node.children|
    requires Dense(st)
    ensures Dense(Children(scene, st, node, k))
    decreases node, 0, k
  {
    if k > 0 {
      ChildrenDense(scene, st, node, k - 1);
      assert NodeValid(node.children[k - 1], |scene.meshes|);
      SubTreeDense(scene, Children(scene, st, node, k - 1), node.children[k - 1]);
    }
  }

  // ---------------------------------------------------------------------------
  // Skinning

  /** The influences that `LoadBones` sends to vertex `x` from one bone's weights, in order. */
  function ContribsTo(base: nat, id: nat, ws: seq<VertexWeight>, x: nat): seq<BoneWeight>
  {
    if ws == [] then []
    else
      var w := ws[|ws| - 1];
      ContribsTo(base, id, ws[..|ws| - 1], x) + (if base + w.vertex == x then [BoneWeight(id, w.weight)] else [])
  }

  /**
   * Adding a bone's weights to the influence lists: the list of vertex `x`,
   * built so far from contributions `c`, becomes the list built from `c`
   * followed by the bone's contributions to `x`.
   */
  lemma {:induction false} AddWeightsAccumulates(bones: seq<Influences>, base: nat, id: nat, ws: seq<VertexWeight>, x: nat, c: seq<BoneWeight>)
    requires x < |bones| && bones[x] == Accumulate(c)
    ensures AddWeights(bones, Some(base), id, ws)[x] == Accumulate(c + ContribsTo(base, id, ws, x))
  {
    if ws == [] {
      assert c + [] == c;
    } else {
      AddWeightsAccumulates(bones, base, id, ws[..|ws| - 1], x, c);
      AddWeightsStep(bones, base, id, ws, x, c);
    }
  }

  /** The inductive step of `AddWeightsAccumulates`: the last weight of `ws`. */
  lemma AddWeightsStep(bones: seq<Influences>, base: nat, id: nat, ws: seq<VertexWeight>, x: nat, c: seq<BoneWeight>)
    requires ws != [] && x < |bones|
    requires AddWeights(bones, Some(base), id, ws[..|ws| - 1])[x] == Accumulate(c + ContribsTo(base, id, ws[..|ws| - 1], x))
    ensures AddWeights(bones, Some(base), id, ws)[x] == Accumulate(c + ContribsTo(base, id, ws, x))
  {
    var w := ws[|ws| - 1];
    var prev := ContribsTo(base, id, ws[..|ws| - 1], x);
    var before := AddWeights(bones, Some(base), id, ws[..|ws| - 1]);
    var t := if base + w.vertex == x then [BoneWeight(id, w.weight)] else [];
    InfluenceStep(before, base + w.vertex, id, w.weight, x, c + prev);
    AddWeightsSnoc(bones, base, id, ws);
    assert ContribsTo(base, id, ws, x) == prev + t;
    AppendAssoc(c, prev, t);
    assert c + ContribsTo(base, id, ws, x) == (c + prev) + t;
  }

  lemma AddWeightsSnoc(bones: seq<Influences>, base: nat, id: nat, ws: seq<VertexWeight>)
    requires ws != []
    ensures AddWeights(bones, Some(base), id, ws)
         == AddInfluence(AddWeights(bones, Some(base), id, ws[..|ws| - 1]), base + ws[|ws| - 1].vertex, id, ws[|ws| - 1].weight)
  {
  }

  /** `m_Bones` right after `resize`: every vertex holds the list built from no contributions. */
  lemma SeededListsAreEmptyAccumulations(n: nat, x: nat)
    requires x < n
    ensures SeededLists(n)[x] == Accumulate([])
  {
  }

  /**
   * The skin of a vertex in the Bones layout for a mesh with bones: slots 0..3
   * of its influence list, which was built from contributions `c`.
   */
  lemma BonesRecordSkin(flip: bool, bones: seq<Influences>, mesh: AiMesh, base: Option<nat>, v: nat, c: seq<BoneWeight>)
    requires mesh.Valid() && Readable(Bones, mesh) && v < |mesh.positions|
    requires mesh.HasBones() && base.Some? && base.value + v < |bones| && bones[base.value + v] == Accumulate(c)
    ensures RecordOf(flip, bones, mesh, Bones, base, v).skin == SkinOf(Accumulate(c))
  {
  }

  // ---------------------------------------------------------------------------
  // Base vertices

  /** The vertex slots of the meshes before mesh `a` are no more than those before mesh `b`. */
  lemma {:induction false} VertexTotalMonotone(meshes: seq<AiMesh>, a: nat, b: nat)
    requires a <= b <= |meshes|
    ensures VertexTotal(meshes, a) <= VertexTotal(meshes, b)
  {
    if a < b {
      VertexTotalMonotone(meshes, a, b - 1);
    }
  }

  /**
   * With the base read at the referenced mesh, vertex `v` of that mesh gets a
   * slot of `m_Bones` that no vertex of any other scene mesh gets.
   */
  lemma IntendedBaseOwnSlots(meshes: seq<AiMesh>, refs: seq<nat>, i: nat, other: nat, v: nat, w: nat)
    requires i < |refs| && refs[i] < |meshes| && other < |meshes| && other != refs[i]
    requires v < |meshes[refs[i]].positions| && w < |meshes[other].positions|
    ensures IntendedBase(BaseVertices(meshes), refs, i) == Some(VertexTotal(meshes, refs[i]))
    ensures VertexTotal(meshes, refs[i]) + v < VertexTotal(meshes, |meshes|)
    ensures VertexTotal(meshes, refs[i]) + v != VertexTotal(meshes, other) + w
  {
    var m := refs[i];
    VertexTotalMonotone(meshes, m + 1, |meshes|);
    if other < m {
      VertexTotalMonotone(meshes, other + 1, m);
    } else {
      VertexTotalMonotone(meshes, m + 1, other);
    }
  }

  /**
   * As written the base is read at the running mesh total. With two meshes, a
   * child node that references mesh 1 while no mesh has been counted reads
   * mesh 0's base, so mesh 1's weights land on mesh 0's vertices; a node that
   * shares mesh 1 after two meshes were counted reads past the end.
   */
  lemma RunningBaseCounterexample(meshes: seq<AiMesh>)
    requires |meshes| == 2 && |meshes[0].positions| > 0
    ensures BaseVertex(BaseVertices(meshes), 0 + 0) == Some(0)
    ensures IntendedBase(BaseVertices(meshes), [1], 0) == Some(|meshes[0].positions|)
    ensures BaseVertex(BaseVertices(meshes), 2 + 0) == None
    ensures IntendedBase(BaseVertices(meshes), [1], 0).Some?
  {
    assert VertexTotal(meshes, 1) == |meshes[0].positions|;
  }

  // ---------------------------------------------------------------------------
  // Indices

  /** All face indices, in face order. */
  function Flatten(faces: seq<seq<nat>>): seq<nat>
  {
    if faces == [] then [] else Flatten(faces[..|faces| - 1]) + faces[|faces| - 1]
  }

  /** The index list holds every face index, in face order, each truncated to 16 bits. */
  lemma {:induction false} IndicesAreTruncatedFaces(faces: seq<seq<nat>>)
    ensures |Indices(faces)| == |Flatten(faces)|
    ensures forall k :: 0 <= k < |Flatten(faces)| ==> Indices(faces)[k] == Flatten(faces)[k] % U16_LIMIT
  {
    if faces != [] {
      IndicesAreTruncatedFaces(faces[..|faces| - 1]);
    }
  }

  // ---------------------------------------------------------------------------
  // The whole export

  /** "Animations" when the scene has animations, then "Textures". */
  function Opening(sc: AiScene): seq<Chunk>
  {
    (if |sc.animations| > 0 then [AnimationsChunk(sc.animations)] else []) + [TexturesChunk(sc.textures)]
  }

  /** "Bones" when some mesh has bones, listing the final table. */
  function Closing(sc: AiScene, r: TreeState): seq<Chunk>
  {
    if AnyBones(sc.meshes) then [Chunk("Bones", BonesFields(r.mapping, r.infos))] else []
  }

  /** `ExportToSTUFormat` fails exactly when the import failed or the scene has no meshes, and then writes nothing. */
  lemma ExportOutcome(st: TreeState, scene: Option<AiScene>, flip: bool)
    requires scene.Some? ==> SceneValid(scene.value)
    ensures Export(st, scene, flip).0 <==> scene.Some? && |scene.value.meshes| > 0
    ensures !Export(st, scene, flip).0 ==> Export(st, scene, flip).1.written == []
  {
  }

  /**
   * A successful export writes "Animations" (when there are animations) and
   * "Textures", then the tree's chunks with one Model chunk per node numbered
   * from 0 in pre-order, then "Bones" when a mesh has bones. The node name
   * counter is not reset between exports and the influence lists are dropped.
   */
  lemma ExportChunkOrder(st: TreeState, sc: AiScene, flip: bool)
    requires SceneValid(sc) && |sc.meshes| > 0
    ensures var r := Export(st, Some(sc), flip).1;
      && (exists tree :: r.written == Opening(sc) + tree + Closing(sc, r) && NumberedFrom(ModelChunks(tree), 0, Size(sc.root)))
      && r.models == Size(sc.root)
      && r.nodeIds == st.nodeIds + Size(sc.root)
      && r.bones == []
  {
    var b := BeforeTree(Restart(st, flip), sc);
    BeforeTreeOpens(st, sc, flip);
    var after := SubTree(sc, b, sc.root);
    SubTreeAdvance(sc, b, sc.root);
    var r := Export(st, Some(sc), flip).1;
    assert r == AfterTree(after, AnyBones(sc.meshes));
    AfterTreeCloses(sc, after, r);
    var tree := after.written[|b.written|..];
    assert after.written == b.written + tree;
    assert r.written == Opening(sc) + tree + Closing(sc, r);
  }

  lemma BeforeTreeOpens(st: TreeState, sc: AiScene, flip: bool)
    ensures var b := BeforeTree(Restart(st, flip), sc);
      b.written == Opening(sc) && b.models == 0 && b.nodeIds == st.nodeIds
  {
  }

  lemma AfterTreeCloses(sc: AiScene, after: TreeState, r: TreeState)
    requires r == AfterTree(after, AnyBones(sc.meshes))
    ensures r.written == after.written + Closing(sc, r)
    ensures r.models == after.models && r.nodeIds == after.nodeIds && r.bones == []
  {
  }

  /** A dense bone table stays dense across a whole export. */
  lemma ExportKeepsDense(st: TreeState, sc: AiScene, flip: bool)
    requires SceneValid(sc) && |sc.meshes| > 0 && Dense(st)
    ensures Dense(Export(st, Some(sc), flip).1)
  {
    var b := BeforeTree(Restart(st, flip), sc);
    assert Dense(b);
    SubTreeDense(sc, b, sc.root);
  }
}
