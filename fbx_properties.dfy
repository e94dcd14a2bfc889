/**
 * What the FBX adapter's rules promise: merged key lists that keep the rest
 * key in front, cover every curve key and hold no two keys after the rest key
 * within the tolerance; kept channels and animations that are never empty;
 * one "Model:<n>" chunk per node in pre-order with the mesh counters advanced
 * by the meshes actually written; the bone table kept dense; the influence
 * lists built from a cluster's weights; and the whole-file chunk order.
 */
module FbxProperties {
  import opened Wrappers
  import opened CText
  import opened StuText
  import opened ModelData
  import opened SceneExport
  import opened FbxScene

  // ---------------------------------------------------------------------------
  // Merging curve keys

  /** No two keys after the rest key lie within the tolerance of each other. */
  predicate Spaced<K>(keys: seq<K>, time: K -> real)
  {
    forall i, j :: 1 <= i < j < |keys| ==> !Near(time(keys[i]), time(keys[j]))
  }

  /** Every key of every present curve has a key after the rest key near its time. */
  predicate Covers<K>(keys: seq<K>, curves: seq<Option<seq<K>>>, time: K -> real)
  {
    forall a, i :: 0 <= a < |curves| && curves[a].Some? && 0 <= i < |curves[a].value| ==> Seen(keys, time, time(curves[a].value[i]))
  }

  lemma SeenExtends<K>(a: seq<K>, b: seq<K>, time: K -> real, t: real)
    requires a <= b && Seen(a, time, t)
    ensures Seen(b, time, t)
  {
    var j :| 1 <= j < |a| && Near(t, time(a[j]));
    assert b[j] == a[j];
  }

  /**
   * Merging a curve only appends: the keys given stay in front, and every key
   * after them is a key of the curve, at most one per curve key.
   */
  lemma {:induction false} MergeKeysShape<K>(keys: seq<K>, curve: seq<K>, time: K -> real)
    ensures var r := MergeKeys(keys, curve, time);
      keys <= r && |r| <= |keys| + |curve| && forall i :: |keys| <= i < |r| ==> r[i] in curve
  {
    if curve != [] {
      var init := curve[..|curve| - 1];
      MergeKeysShape(keys, init, time);
      var before := MergeKeys(keys, init, time);
      var r := MergeKeys(keys, curve, time);
      assert before <= r;
      forall i | |keys| <= i < |r|
        ensures r[i] in curve
      {
        if i < |before| {
          var j :| 0 <= j < |init| && init[j] == before[i];
          assert curve[j] == init[j];
        } else {
          assert r[i] == curve[|curve| - 1];
        }
      }
    }
  }

  /** A key is appended only when no key after the rest key lies near it, so the merged keys stay spaced. */
  lemma {:induction false} MergeKeysSpaced<K>(keys: seq<K>, curve: seq<K>, time: K -> real)
    requires Spaced(keys, time)
    ensures Spaced(MergeKeys(keys, curve, time), time)
  {
    if curve != [] {
      var before := MergeKeys(keys, curve[..|curve| - 1], time);
      MergeKeysSpaced(keys, curve[..|curve| - 1], time);
      var k := curve[|curve| - 1];
      if !Seen(before, time, time(k)) {
        var r := before + [k];
        forall i, j | 1 <= i < j < |r|
          ensures !Near(time(r[i]), time(r[j]))
        {
          if j == |before| {
            assert !Near(time(k), time(before[i]));
          } else {
            assert r[i] == before[i] && r[j] == before[j];
          }
        }
      }
    }
  }

  /** After the merge, every curve key's time has a key after the rest key near it (the key itself or one already there). */
  lemma {:induction false} MergeKeysCovers<K>(keys: seq<K>, curve: seq<K>, time: K -> real)
    requires |keys| >= 1
    ensures forall i :: 0 <= i < |curve| ==> Seen(MergeKeys(keys, curve, time), time, time(curve[i]))
  {
    if curve != [] {
      var init := curve[..|curve| - 1];
      var before := MergeKeys(keys, init, time);
      var r := MergeKeys(keys, curve, time);
      MergeKeysCovers(keys, init, time);
      MergeKeysShape(keys, init, time);
      assert before <= r;
      forall i | 0 <= i < |curve|
        ensures Seen(r, time, time(curve[i]))
      {
        if i < |curve| - 1 {
          assert curve[i] == init[i];
          SeenExtends(before, r, time, time(curve[i]));
        } else if Seen(before, time, time(curve[i])) {
          SeenExtends(before, r, time, time(curve[i]));
        } else {
          assert r[|before|] == curve[i];
        }
      }
    }
  }

  /**
   * The first curve key always follows the rest key: the rest key is never
   * compared, so a curve key at time 0 is kept beside the rest key at time 0.
   */
  lemma {:induction false} FirstCurveKeyKept<K>(rest: K, curve: seq<K>, time: K -> real)
    requires curve != []
    ensures |MergeKeys([rest], curve, time)| >= 2 && MergeKeys([rest], curve, time)[1] == curve[0]
  {
    var init := curve[..|curve| - 1];
    var before := MergeKeys([rest], init, time);
    if init == [] {
      assert before == [rest];
      assert !Seen(before, time, time(curve[0]));
    } else {
      FirstCurveKeyKept(rest, init, time);
      assert init[0] == curve[0];
    }
  }

  lemma {:induction false} MergeCurvesShape<K>(keys: seq<K>, curves: seq<Option<seq<K>>>, time: K -> real)
    ensures keys <= MergeCurves(keys, curves, time)
  {
    if curves != [] {
      var before := MergeCurves(keys, curves[..|curves| - 1], time);
      MergeCurvesShape(keys, curves[..|curves| - 1], time);
      if curves[|curves| - 1].Some? {
        MergeKeysShape(before, curves[|curves| - 1].value, time);
      }
    }
  }

  lemma {:induction false} MergeCurvesSpaced<K>(keys: seq<K>, curves: seq<Option<seq<K>>>, time: K -> real)
    requires Spaced(keys, time)
    ensures Spaced(MergeCurves(keys, curves, time), time)
  {
    if curves != [] {
      var before := MergeCurves(keys, curves[..|curves| - 1], time);
      MergeCurvesSpaced(keys, curves[..|curves| - 1], time);
      if curves[|curves| - 1].Some? {
        MergeKeysSpaced(before, curves[|curves| - 1].value, time);
      }
    }
  }

  /** The X, Y and Z curves merged in turn: every key of each present curve is covered. */
  lemma {:induction false} MergeCurvesCovers<K>(keys: seq<K>, curves: seq<Option<seq<K>>>, time: K -> real)
    requires |keys| >= 1
    ensures Covers(MergeCurves(keys, curves, time), curves, time)
  {
    if curves != [] {
      var init := curves[..|curves| - 1];
      var before := MergeCurves(keys, init, time);
      var r := MergeCurves(keys, curves, time);
      MergeCurvesCovers(keys, init, time);
      MergeCurvesShape(keys, init, time);
      var last := curves[|curves| - 1];
      if last.Some? {
        MergeKeysShape(before, last.value, time);
        MergeKeysCovers(before, last.value, time);
      }
      assert before <= r;
      forall a, i | 0 <= a < |curves| && curves[a].Some? && 0 <= i < |curves[a].value|
        ensures Seen(r, time, time(curves[a].value[i]))
      {
        if a < |curves| - 1 {
          assert curves[a] == init[a];
          SeenExtends(before, r, time, time(curves[a].value[i]));
        }
      }
    }
  }

  // ---------------------------------------------------------------------------
  // Channels and animations

  /**
   * The channel of a node with curves: named after the node; each list starts
   * with the node's rest key at time 0; the keys after it are spaced; and they
   * cover every key of the property's present curves.
   */
  lemma ChannelOfProperties(node: FbxNode, c: Curves)
    ensures var ch := ChannelOf(node, c); var q := node.restR;
      && ch.name == node.name
      && [VectorKey(0.0, node.restT)] <= ch.positions
      && [QuatKey(0.0, q.w, q.x, q.y, q.z)] <= ch.rotations
      && [VectorKey(0.0, node.restS)] <= ch.scalings
      && Spaced(ch.positions, VectorTime) && Spaced(ch.rotations, QuatTime) && Spaced(ch.scalings, VectorTime)
      && Covers(ch.positions, [c.tx, c.ty, c.tz], VectorTime)
      && Covers(ch.rotations, [c.rx, c.ry, c.rz], QuatTime)
      && Covers(ch.scalings, [c.sx, c.sy, c.sz], VectorTime)
  {
    var q := node.restR;
    var p0, r0, s0 := [VectorKey(0.0, node.restT)], [QuatKey(0.0, q.w, q.x, q.y, q.z)], [VectorKey(0.0, node.restS)];
    MergeCurvesShape(p0, [c.tx, c.ty, c.tz], VectorTime);
    MergeCurvesShape(r0, [c.rx, c.ry, c.rz], QuatTime);
    MergeCurvesShape(s0, [c.sx, c.sy, c.sz], VectorTime);
    MergeCurvesSpaced(p0, [c.tx, c.ty, c.tz], VectorTime);
    MergeCurvesSpaced(r0, [c.rx, c.ry, c.rz], QuatTime);
    MergeCurvesSpaced(s0, [c.sx, c.sy, c.sz], VectorTime);
    MergeCurvesCovers(p0, [c.tx, c.ty, c.tz], VectorTime);
    MergeCurvesCovers(r0, [c.rx, c.ry, c.rz], QuatTime);
    MergeCurvesCovers(s0, [c.sx, c.sy, c.sz], VectorTime);
  }

  /**
   * A channel as the layer parser keeps it: some list holds more than its
   * rest key, each list starts with a key at time 0, and the keys after it
   * are spaced.
   */
  predicate WellFormedChannel(ch: NodeAnim)
  {
    && Animated(ch)
    && |ch.positions| >= 1 && |ch.rotations| >= 1 && |ch.scalings| >= 1
    && ch.positions[0].time == 0.0 && ch.rotations[0].time == 0.0 && ch.scalings[0].time == 0.0
    && Spaced(ch.positions, VectorTime) && Spaced(ch.rotations, QuatTime) && Spaced(ch.scalings, VectorTime)
  }

  predicate AllWellFormed(chs: seq<NodeAnim>)
  {
    forall i :: 0 <= i < |chs| ==> WellFormedChannel(chs[i])
  }

  lemma AllWellFormedAppend(a: seq<NodeAnim>, b: seq<NodeAnim>)
    requires AllWellFormed(a) && AllWellFormed(b)
    ensures AllWellFormed(a + b)
  {
  }

  lemma OwnChannelWellFormed(node: FbxNode, layer: nat)
    ensures AllWellFormed(OwnChannel(node, layer))
  {
    if layer in node.curves {
      ChannelOfProperties(node, node.curves[layer]);
    }
  }

  /** Every channel a layer yields for a subtree is well formed. */
  lemma {:induction false} LayerChannelsWellFormed(node: FbxNode, layer: nat)
    ensures AllWellFormed(LayerChannels(node, layer))
    decreases node, 1
  {
    OwnChannelWellFormed(node, layer);
    ChildrenChannelsWellFormed(node, layer, |node.children|);
    AllWellFormedAppend(OwnChannel(node, layer), ChildrenChannels(node, layer, |node.children|));
  }

  lemma {:induction false} ChildrenChannelsWellFormed(node: FbxNode, layer: nat, k: nat)
    requires k <= |node.children|
    ensures AllWellFormed(ChildrenChannels(node, layer, k))
    decreases node, 0, k
  {
    if k > 0 {
      ChildrenChannelsWellFormed(node, layer, k - 1);
      LayerChannelsWellFormed(node.children[k - 1], layer);
      AllWellFormedAppend(ChildrenChannels(node, layer, k - 1), LayerChannels(node.children[k - 1], layer));
    }
  }

  /** The child loop finds channels exactly when some child subtree has channels. */
  lemma ChildrenChannelsFound(node: FbxNode, layer: nat, k: nat)
    requires k <= |node.children|
    ensures ChildrenChannels(node, layer, k) != [] <==> exists j :: 0 <= j < k && LayerChannels(node.children[j], layer) != []
  {
    if ChildrenChannels(node, layer, k) != [] {
      ChildrenChannelsWitness(node, layer, k);
    }
    forall j | 0 <= j < k && LayerChannels(node.children[j], layer) != []
      ensures ChildrenChannels(node, layer, k) != []
    {
      ChildChannelsKept(node, layer, k, j);
    }
  }

  lemma {:induction false} ChildrenChannelsWitness(node: FbxNode, layer: nat, k: nat)
    requires k <= |node.children| && ChildrenChannels(node, layer, k) != []
    ensures exists j :: 0 <= j < k && LayerChannels(node.children[j], layer) != []
  {
    var before := ChildrenChannels(node, layer, k - 1);
    var sub := LayerChannels(node.children[k - 1], layer);
    assert ChildrenChannels(node, layer, k) == before + sub;
    if sub == [] {
      assert before + sub == before;
      ChildrenChannelsWitness(node, layer, k - 1);
    }
  }

  lemma {:induction false} ChildChannelsKept(node: FbxNode, layer: nat, k: nat, j: nat)
    requires j < k <= |node.children| && LayerChannels(node.children[j], layer) != []
    ensures ChildrenChannels(node, layer, k) != []
  {
    var before := ChildrenChannels(node, layer, k - 1);
    var sub := LayerChannels(node.children[k - 1], layer);
    assert ChildrenChannels(node, layer, k) == before + sub;
    assert |before + sub| == |before| + |sub|;
    if j < k - 1 {
      ChildChannelsKept(node, layer, k - 1, j);
    }
  }

  /** A layer has channels in a subtree exactly when the node has its own channel or some child subtree has channels. */
  lemma LayerChannelsFound(node: FbxNode, layer: nat)
    ensures LayerChannels(node, layer) != []
        <==> OwnChannel(node, layer) != [] || exists j :: 0 <= j < |node.children| && LayerChannels(node.children[j], layer) != []
  {
    ChildrenChannelsFound(node, layer, |node.children|);
    var own := OwnChannel(node, layer);
    var rest := ChildrenChannels(node, layer, |node.children|);
    assert |own + rest| == |own| + |rest|;
  }

  /** An animation as the parser keeps it: at least one channel, all well formed, and no mesh channels. */
  predicate KeptAnimation(a: Animation)
  {
    a.channels != [] && AllWellFormed(a.channels) && a.meshChannels == []
  }

  predicate AllKept(anims: seq<Animation>)
  {
    forall i :: 0 <= i < |anims| ==> KeptAnimation(anims[i])
  }

  lemma AllKeptAppend(a: seq<Animation>, b: seq<Animation>)
    requires AllKept(a) && AllKept(b)
    ensures AllKept(a + b)
  {
  }

  lemma {:induction false} StackAnimationsKept(stack: AnimStack, root: FbxNode, k: nat)
    requires k <= |stack.layers|
    ensures AllKept(StackAnimations(stack, root, k))
  {
    if k > 0 {
      StackAnimationsKept(stack, root, k - 1);
      LayerChannelsWellFormed(root, stack.layers[k - 1]);
    }
  }

  /** Every animation the parser keeps has channels, all well formed, and no mesh channels. */
  lemma {:induction false} ParsedAnimationsKept(stacks: seq<AnimStack>, root: FbxNode, k: nat)
    requires k <= |stacks|
    ensures AllKept(ParsedAnimations(stacks, root, k))
  {
    if k > 0 {
      ParsedAnimationsKept(stacks, root, k - 1);
      StackAnimationsKept(stacks[k - 1], root, |stacks[k - 1].layers|);
      AllKeptAppend(ParsedAnimations(stacks, root, k - 1), StackAnimations(stacks[k - 1], root, |stacks[k - 1].layers|));
    }
  }

  /** With several layers each layer gets its own animation name; a single layer keeps the stack's name. */
  lemma LayerNames(stack: AnimStack, i: nat, j: nat)
    ensures |stack.layers| <= 1 ==> LayerName(stack, i) == stack.name
    ensures |stack.layers| > 1 && i != j ==> LayerName(stack, i) != LayerName(stack, j)
  {
    if |stack.layers| > 1 && LayerName(stack, i) == LayerName(stack, j) {
      var p := stack.name + ".Layer";
      assert (p + DecimalText(i))[|p|..] == DecimalText(i);
      assert (p + DecimalText(j))[|p|..] == DecimalText(j);
      DecimalTextInjective(i, j);
    }
  }

  // ---------------------------------------------------------------------------
  // Advancing the walk

  /**
   * The meshes the loop of a node writes: the loop runs over the first
   * `meshCount` mesh attributes (the count of meshes with polygons) and
   * passes over the empty ones among them.
   */
  function NodeMeshes(node: FbxNode): nat
  {
    var ms := MeshesOf(node.attributes);
    WithPolygons(ms, WithPolygons(ms, |ms|))
  }

  function MeshTotal(node: FbxNode): nat
    decreases node, 1
  {
    NodeMeshes(node) + MeshTotalOfChildren(node, |node.children|)
  }

  function MeshTotalOfChildren(node: FbxNode, k: nat): nat
    requires k <= |node.children|
    decreases node, 0, k
  {
    if k == 0 then 0 else MeshTotalOfChildren(node, k - 1) + MeshTotal(node.children[k - 1])
  }

  /**
   * From `a` to `b` the walk appended chunks only, among them `nodes` Model
   * chunks numbered on from `a.models`; the model and node counters grew by
   * `nodes`, the mesh and vertex-chunk counters by `meshes`; the animations
   * and the skeleton count are untouched.
   */
  ghost predicate Advance(a: FbxState, b: FbxState, nodes: nat, meshes: nat)
  {
    && AppendsModels(a.written, b.written, a.models, nodes)
    && b.models == a.models + nodes
    && b.nodeIds == a.nodeIds + nodes
    && b.meshIds == a.meshIds + meshes
    && b.vertexChunks == a.vertexChunks + meshes
    && b.animations == a.animations && b.skeletons == a.skeletons
  }

  lemma AdvanceRefl(st: FbxState)
    ensures Advance(st, st, 0, 0)
  {
    AppendsNothing(st.written, st.models);
  }

  lemma AdvanceTrans(a: FbxState, b: FbxState, c: FbxState, n1: nat, m1: nat, n2: nat, m2: nat)
    requires Advance(a, b, n1, m1) && Advance(b, c, n2, m2)
    ensures Advance(a, c, n1 + n2, m1 + m2)
  {
    AppendsCompose(a.written, b.written, c.written, a.models, n1, n2);
  }

  /** A mesh with polygons writes its vertex chunks and no Model chunk, and counts one mesh. */
  lemma MeshStateAdvance(st: FbxState, mat: Option<FbxMaterial>, m: FbxMesh)
    ensures Advance(st, MeshState(st, mat, m), 0, 1)
  {
    var bones := LoadedBones(st.(meshIds := st.meshIds + 1), m).bones;
    MeshStateFrame(st, mat, m);
    MeshChunksAddNoModel(st.written, st.models, st.vertexChunks, st.flip, bones, LayoutOf(m, st.skeletons > 0), m, UsesUVTransform(mat));
  }

  lemma MeshStateFrame(st: FbxState, mat: Option<FbxMaterial>, m: FbxMesh)
    ensures var r := MeshState(st, mat, m); var bones := LoadedBones(st.(meshIds := st.meshIds + 1), m).bones;
      && r.written == st.written + MeshChunks(VxName(st.vertexChunks), st.flip, bones, LayoutOf(m, st.skeletons > 0), m, UsesUVTransform(mat))
      && r.models == st.models && r.nodeIds == st.nodeIds
      && r.meshIds == st.meshIds + 1 && r.vertexChunks == st.vertexChunks + 1
      && r.animations == st.animations && r.skeletons == st.skeletons
    ensures var r := MeshState(st, mat, m); var loaded := LoadedBones(st.(meshIds := st.meshIds + 1), m);
      r.mapping == loaded.mapping && r.numBones == loaded.numBones && r.infos == loaded.infos
  {
  }

  lemma MeshChunksAddNoModel(w: seq<Chunk>, lo: nat, n: nat, flip: bool, bones: seq<Influences>, layout: VertexDataType, m: FbxMesh, textured: bool)
    ensures AppendsModels(w, w + MeshChunks(VxName(n), flip, bones, layout, m, textured), lo, 0)
  {
    var cs := Corners(m.polygons);
    if cs == [] {
      assert w + MeshChunks(VxName(n), flip, bones, layout, m, textured) == w;
      AppendsNothing(w, lo);
    } else {
      AppendsVertexChunks(w, lo, n, Records(flip, bones, textured, m, layout, cs), BoundsOf(Positions(m, cs)));
    }
  }

  lemma {:induction false} MeshesAdvance(st: FbxState, mat: Option<FbxMaterial>, ms: seq<FbxMesh>, k: nat)
    requires k <= |ms|
    ensures Advance(st, MeshesState(st, mat, ms, k), 0, WithPolygons(ms, k))
  {
    if k == 0 {
      AdvanceRefl(st);
    } else {
      var q := MeshesState(st, mat, ms, k - 1);
      MeshesAdvance(st, mat, ms, k - 1);
      if |ms[k - 1].polygons| > 0 {
        MeshStateAdvance(q, mat, ms[k - 1]);
        assert MeshesState(st, mat, ms, k) == MeshState(q, mat, ms[k - 1]);
        AdvanceTrans(st, q, MeshesState(st, mat, ms, k), 0, WithPolygons(ms, k - 1), 0, 1);
      }
    }
  }

  /** Closing a node after its meshes adds one Model chunk, numbered next, and counts the node. */
  lemma CloseNodeAdvance(st: FbxState, q: FbxState, data: seq<Field>, meshes: nat)
    requires Advance(st.(nodeIds := st.nodeIds + 1), q, 0, meshes)
    ensures Advance(st, CloseNode(q, data), 1, meshes)
  {
    AppendsModelChunk(q.written, q.models, data);
    AppendsCompose(st.written, q.written, CloseNode(q, data).written, st.models, 0, 1);
  }

  /** A node writes exactly one Model chunk, numbered next, after its meshes' vertex chunks. */
  lemma NodeStepAdvance(st: FbxState, node: FbxNode)
    ensures Advance(st, NodeStep(st, node), 1, NodeMeshes(node))
  {
    var name := NodeName(node.name, st.nodeIds);
    var s1 := st.(nodeIds := st.nodeIds + 1);
    var ms := MeshesOf(node.attributes);
    var n := WithPolygons(ms, |ms|);
    var mat := FirstMaterial(node.materials);
    MeshesAdvance(s1, mat, ms, n);
    CloseNodeAdvance(st, MeshesState(s1, mat, ms, n), NodeHead(node, name, n) + MeshesData(s1, name, mat, ms, n), NodeMeshes(node));
  }

  /** The subtree of `node` writes `Size(node)` Model chunks numbered on from the current model count. */
  lemma {:induction false} SubTreeAdvance(st: FbxState, node: FbxNode)
    ensures Advance(st, SubTree(st, node), Size(node), MeshTotal(node))
    decreases node, 1
  {
    var ns := NodeStep(st, node);
    NodeStepAdvance(st, node);
    ChildrenAdvance(ns, node, |node.children|);
    AdvanceTrans(st, ns, SubTree(st, node), 1, NodeMeshes(node),
                 SizeOfChildren(node, |node.children|), MeshTotalOfChildren(node, |node.children|));
  }

  lemma {:induction false} ChildrenAdvance(st: FbxState, node: FbxNode, k: nat)
    requires k <= |node.children|
    ensures Advance(st, Children(st, node, k), SizeOfChildren(node, k), MeshTotalOfChildren(node, k))
    decreases node, 0, k
  {
    if k == 0 {
      AdvanceRefl(st);
    } else {
      var c := Children(st, node, k - 1);
      var child := node.children[k - 1];
      ChildrenAdvance(st, node, k - 1);
      SubTreeAdvance(c, child);
      AdvanceTrans(st, c, Children(st, node, k), SizeOfChildren(node, k - 1), MeshTotalOfChildren(node, k - 1),
                   Size(child), MeshTotal(child));
    }
  }

  /**
   * The mesh loop runs over the first `meshCount` mesh attributes, not over
   * the meshes with polygons: an empty mesh ahead of a mesh with polygons
   * makes the node announce one mesh and write no mesh record at all.
   */
  lemma MeshCountSkipsLaterMesh(st: FbxState, nodeName: CStr, mat: Option<FbxMaterial>, empty: FbxMesh, full: FbxMesh)
    requires |empty.polygons| == 0 && |full.polygons| > 0
    ensures WithPolygons([empty, full], 2) == 1
    ensures MeshesData(st, nodeName, mat, [empty, full], 1) == []
    ensures MeshesState(st, mat, [empty, full], 1) == st
  {
  }

  /**
   * The mesh loop evidently intended runs over every mesh attribute: it then
   * exports exactly as many meshes, with one vertex chunk pair each, as the
   * `meshCount` it announces.
   */
  lemma FullMeshLoopMatchesCount(st: FbxState, mat: Option<FbxMaterial>, ms: seq<FbxMesh>)
    ensures MeshesState(st, mat, ms, |ms|).meshIds == st.meshIds + WithPolygons(ms, |ms|)
    ensures MeshesState(st, mat, ms, |ms|).vertexChunks == st.vertexChunks + WithPolygons(ms, |ms|)
  {
    MeshesAdvance(st, mat, ms, |ms|);
  }

  // ---------------------------------------------------------------------------
  // Bones

  ghost predicate Dense(st: FbxState)
  {
    DenseTable(st.mapping, st.numBones, |st.infos|)
  }

  /** A cluster interned into a dense table leaves it dense: a new hash gets the next index and one more offset. */
  lemma InternClusterDense(st: FbxState, c: Cluster)
    requires Dense(st)
    ensures Dense(InternCluster(st, c))
  {
    var h := NameHash(c.boneName);
    if h !in st.mapping {
      InternKeepsDense(st.mapping, st.numBones, |st.infos|, h);
    }
  }

  lemma {:induction false} InternClustersDense(st: FbxState, cs: seq<Cluster>, k: nat)
    requires k <= |cs| && Dense(st)
    ensures Dense(InternClusters(st, cs, k))
  {
    if k > 0 {
      InternClustersDense(st, cs, k - 1);
      InternClusterDense(InternClusters(st, cs, k - 1), cs[k - 1]);
    }
  }

  lemma {:induction false} InternSkinsDense(st: FbxState, skins: seq<seq<Cluster>>, k: nat)
    requires k <= |skins| && Dense(st)
    ensures Dense(InternSkins(st, skins, k))
  {
    if k > 0 {
      InternSkinsDense(st, skins, k - 1);
      InternClustersDense(InternSkins(st, skins, k - 1), skins[k - 1], |skins[k - 1]|);
    }
  }

  lemma MeshStateDense(st: FbxState, mat: Option<FbxMaterial>, m: FbxMesh)
    requires Dense(st)
    ensures Dense(MeshState(st, mat, m))
  {
    var s1 := st.(meshIds := st.meshIds + 1);
    var lists := if |m.skins| > 0 then SeededLists(|Corners(m.polygons)|) else [];
    InternSkinsDense(s1.(bones := lists), m.skins, |m.skins|);
    assert Dense(LoadedBones(s1, m));
    MeshStateFrame(st, mat, m);
  }

  lemma {:induction false} MeshesDense(st: FbxState, mat: Option<FbxMaterial>, ms: seq<FbxMesh>, k: nat)
    requires k <= |ms| && Dense(st)
    ensures Dense(MeshesState(st, mat, ms, k))
  {
    if k > 0 {
      var q := MeshesState(st, mat, ms, k - 1);
      MeshesDense(st, mat, ms, k - 1);
      if |ms[k - 1].polygons| > 0 {
        MeshStateDense(q, mat, ms[k - 1]);
        assert MeshesState(st, mat, ms, k) == MeshState(q, mat, ms[k - 1]);
      }
    }
  }

  lemma {:induction false} SubTreeDense(st: FbxState, node: FbxNode)
    requires Dense(st)
    ensures Dense(SubTree(st, node))
    decreases node, 1
  {
    var ms := MeshesOf(node.attributes);
    MeshesDense(st.(nodeIds := st.nodeIds + 1), FirstMaterial(node.materials), ms, WithPolygons(ms, |ms|));
    ChildrenDense(NodeStep(st, node), node, |node.children|);
  }

  lemma {:induction false} ChildrenDense(st: FbxState, node: FbxNode, k: nat)
    requires k <= |node.children| && Dense(st)
    ensures Dense(Children(st, node, k))
    decreases node, 0, k
  {
    if k > 0 {
      ChildrenDense(st, node, k - 1);
      SubTreeDense(Children(st, node, k - 1), node.children[k - 1]);
    }
  }

  /** A dense bone table stays dense across a whole export. */
  lemma ExportKeepsDense(st: FbxState, sc: FbxScene, flip: bool)
    requires Dense(st)
    ensures Dense(Export(st, Some(sc), flip).1)
  {
    var b := BeforeTree(Prepared(Restarted(st), sc, flip));
    assert Dense(b);
    SubTreeDense(b, sc.root);
  }

  /** The influences a cluster sends to control point `x` from its first `k` weights; a negligible weight sends none. */
  function ClusterContribs(id: nat, ws: seq<ControlWeight>, k: nat, x: nat): seq<BoneWeight>
    requires k <= |ws|
  {
    if k == 0 then []
    else
      var w := ws[k - 1];
      ClusterContribs(id, ws, k - 1, x) + (if !Negligible(w.weight) && w.vertex == x then [BoneWeight(id, w.weight)] else [])
  }

  /**
   * Adding a cluster's weights: the list of control point `x`, built so far
   * from contributions `c`, becomes the list built from `c` followed by the
   * cluster's non-negligible weights on `x`, in order.
   */
  lemma {:induction false} ClusterWeightsAccumulate(bones: seq<Influences>, id: nat, ws: seq<ControlWeight>, k: nat, x: nat, c: seq<BoneWeight>)
    requires k <= |ws| && x < |bones| && bones[x] == Accumulate(c)
    ensures ClusterWeights(bones, id, ws, k)[x] == Accumulate(c + ClusterContribs(id, ws, k, x))
  {
    if k == 0 {
      assert c + [] == c;
    } else {
      ClusterWeightsAccumulate(bones, id, ws, k - 1, x, c);
      var prev := ClusterContribs(id, ws, k - 1, x);
      var before := ClusterWeights(bones, id, ws, k - 1);
      var w := ws[k - 1];
      if Negligible(w.weight) {
        assert ClusterContribs(id, ws, k, x) == prev + [];
        assert prev + [] == prev;
      } else {
        var t := if w.vertex == x then [BoneWeight(id, w.weight)] else [];
        InfluenceStep(before, w.vertex, id, w.weight, x, c + prev);
        assert ClusterContribs(id, ws, k, x) == prev + t;
        AppendAssoc(c, prev, t);
      }
    }
  }

  /** The skin of a Bones record: slots 0..3 of its control point's list, or the rigid skin past the end of the lists. */
  lemma BonesRecordSkin(flip: bool, bones: seq<Influences>, textured: bool, m: FbxMesh, c: Corner, contribs: seq<BoneWeight>)
    ensures c.controlPoint >= |bones| ==> RecordOf(flip, bones, textured, m, Bones, c).skin == RIGID
    ensures c.controlPoint < |bones| && bones[c.controlPoint] == Accumulate(contribs)
        ==> RecordOf(flip, bones, textured, m, Bones, c).skin == SkinOf(Accumulate(contribs))
  {
  }

  // ---------------------------------------------------------------------------
  // Vertex chunks and materials

  /**
   * A mesh's vertex chunks: none when it has no polygon vertex; otherwise the
   * chunk `name` with one record per polygon vertex, in order, each in the
   * layout and at its control point's position, followed by the "<name>BB"
   * chunk of a box that contains every one of those positions.
   */
  lemma MeshChunksShape(name: CStr, flip: bool, bones: seq<Influences>, layout: VertexDataType, m: FbxMesh, textured: bool)
    ensures var cs := Corners(m.polygons); var w := MeshChunks(name, flip, bones, layout, m, textured);
      && (w == [] <==> cs == [])
      && (cs != [] ==>
            && |w| == 2 && w[0].name == name && w[1].name == BBName(name)
            && |w[0].data| == |cs|
            && (forall i :: 0 <= i < |cs| ==>
                  w[0].data[i].Record? && w[0].data[i].v.Layout() == layout && w[0].data[i].v.position == PositionOf(m, cs[i]))
            && w[1].data == BoxFields(BoundsOf(Positions(m, cs)))
            && (forall i :: 0 <= i < |cs| ==> Inside(BoundsOf(Positions(m, cs)), PositionOf(m, cs[i]))))
  {
    var cs := Corners(m.polygons);
    if cs != [] {
      var vs := Records(flip, bones, textured, m, layout, cs);
      var ps := Positions(m, cs);
      BoundsContain(ps);
      forall i | 0 <= i < |cs|
        ensures Inside(BoundsOf(ps), PositionOf(m, cs[i]))
      {
        assert ps[i] == PositionOf(m, cs[i]);
      }
      forall i | 0 <= i < |cs|
        ensures vs[i].Layout() == layout && vs[i].position == PositionOf(m, cs[i])
      {
        RecordOfShape(flip, bones, textured, m, layout, cs[i]);
      }
    }
  }

  lemma RecordOfShape(flip: bool, bones: seq<Influences>, textured: bool, m: FbxMesh, layout: VertexDataType, c: Corner)
    ensures RecordOf(flip, bones, textured, m, layout, c).Layout() == layout
    ensures RecordOf(flip, bones, textured, m, layout, c).position == PositionOf(m, c)
  {
  }

  /**
   * The material block: the defaults for a missing or non-Lambert material;
   * otherwise the Lambert colours and an alpha that is the "Opacity" property
   * when present and one minus the transparency otherwise, with Phong's
   * specular colour and shininess replacing the defaults. A diffuse colour
   * without a texture is written with that alpha.
   */
  lemma MaterialChoice(mat: Option<FbxMaterial>)
    ensures mat.None? || mat.value.lambert.None? ==> MaterialOf(mat) == Material(Grey(0.5), Grey(0.75), Grey(1.0), 16.0, 1.0)
    ensures mat.Some? && mat.value.lambert.Some? ==>
      var l := mat.value.lambert.value; var r := MaterialOf(mat);
      && r.ambient == l.ambient && r.diffuse == l.diffuse
      && r.alpha == (if l.opacity.Some? then l.opacity.value else 1.0 - l.transparency)
      && (l.phong.None? ==> r.specular == Grey(1.0) && r.shininess == 16.0)
      && (l.phong.Some? ==> r.specular == l.phong.value.specular && r.shininess == l.phong.value.shininess)
    ensures DiffuseSlot(mat).ColorAlpha? ==> DiffuseSlot(mat).alpha == MaterialOf(mat).alpha
  {
  }

  // ---------------------------------------------------------------------------
  // The whole export

  /** "Animations" when this export parsed an animated layer, listing the earlier exports' animations too. */
  function Opening(st: FbxState, sc: FbxScene): seq<Chunk>
  {
    var parsed := ParsedAnimations(sc.stacks, sc.root, |sc.stacks|);
    if parsed != [] then [AnimationsChunk(st.animations + parsed)] else []
  }

  /** "Bones" when the scene has skeletons, listing the final table. */
  function Closing(sc: FbxScene, r: FbxState): seq<Chunk>
  {
    if SkeletonCount(sc.root) > 0 then [Chunk("Bones", BonesFields(r.mapping, r.infos))] else []
  }

  /**
   * `ExportToSTUFormat` fails exactly when the scene does not load. The `.stu`
   * file is already removed then, and nothing else about the adapter changes.
   */
  lemma ExportOutcome(st: FbxState, scene: Option<FbxScene>, flip: bool)
    ensures Export(st, scene, flip).0 <==> scene.Some?
    ensures scene.None? ==> Export(st, scene, flip).1.written == []
    ensures scene.None? ==> Export(st, scene, flip).1 == st.(written := [])
  {
  }

  lemma BeforeTreeOpens(st: FbxState, sc: FbxScene, flip: bool)
    ensures var b := BeforeTree(Prepared(st, sc, flip));
      && b.written == st.written + Opening(st, sc)
      && b.models == 0 && b.vertexChunks == 0 && b.nodeIds == st.nodeIds && b.meshIds == st.meshIds
      && b.animations == st.animations + ParsedAnimations(sc.stacks, sc.root, |sc.stacks|)
      && b.skeletons == SkeletonCount(sc.root)
  {
  }

  lemma AfterTreeCloses(sc: FbxScene, after: FbxState, r: FbxState)
    requires r == AfterTree(after) && after.skeletons == SkeletonCount(sc.root)
    ensures r.written == after.written + Closing(sc, r)
    ensures r == after.(written := r.written)
  {
  }

  /**
   * A successful export leaves in the `.stu` file only its own chunks:
   * "Animations" (when this scene has an animated layer), then the tree's
   * chunks with one Model chunk per node numbered from 0 in pre-order, then
   * "Bones" when the scene has skeletons. The node and mesh name counters are
   * not reset between exports, and the parsed animations are added to the
   * earlier ones.
   */
  lemma ExportChunkOrder(st: FbxState, sc: FbxScene, flip: bool)
    ensures var r := Export(st, Some(sc), flip).1;
      && (exists tree :: r.written == Opening(st, sc) + tree + Closing(sc, r) && NumberedFrom(ModelChunks(tree), 0, Size(sc.root)))
      && r.models == Size(sc.root)
      && r.vertexChunks == MeshTotal(sc.root)
      && r.nodeIds == st.nodeIds + Size(sc.root)
      && r.meshIds == st.meshIds + MeshTotal(sc.root)
      && r.animations == st.animations + ParsedAnimations(sc.stacks, sc.root, |sc.stacks|)
  {
    var st0 := Restarted(st);
    var b := BeforeTree(Prepared(st0, sc, flip));
    BeforeTreeOpens(st0, sc, flip);
    assert b.written == Opening(st, sc) by {
      assert Opening(st0, sc) == Opening(st, sc);
      assert [] + Opening(st, sc) == Opening(st, sc);
    }
    var after := SubTree(b, sc.root);
    SubTreeAdvance(b, sc.root);
    var r := Export(st, Some(sc), flip).1;
    assert r == AfterTree(after);
    AfterTreeCloses(sc, after, r);
    AppendsFramed(Opening(st, sc), after.written, Closing(sc, r), r.written, Size(sc.root));
  }

  /** Chunks appended after an opening run and followed by a closing run sit between the two. */
  lemma AppendsFramed(o: seq<Chunk>, aw: seq<Chunk>, cl: seq<Chunk>, rw: seq<Chunk>, n: nat)
    requires AppendsModels(o, aw, 0, n) && rw == aw + cl
    ensures exists tree :: rw == o + tree + cl && NumberedFrom(ModelChunks(tree), 0, n)
  {
    var tree := aw[|o|..];
    assert aw == o + tree;
  }

  /**
   * The adapter keeps its animations between calls, though the second export
   * removes the first export's file: the second file starts with an
   * "Animations" chunk that lists the first export's animations again before
   * its own.
   */
  lemma SecondExportRepeatsAnimations(st: FbxState, sc1: FbxScene, sc2: FbxScene, flip1: bool, flip2: bool)
    requires ParsedAnimations(sc2.stacks, sc2.root, |sc2.stacks|) != []
    ensures var r1 := Export(st, Some(sc1), flip1).1; var r2 := Export(r1, Some(sc2), flip2).1;
      && |r2.written| > 0
      && r2.written[0] == AnimationsChunk(st.animations + ParsedAnimations(sc1.stacks, sc1.root, |sc1.stacks|)
                                                       + ParsedAnimations(sc2.stacks, sc2.root, |sc2.stacks|))
  {
    var r1 := Export(st, Some(sc1), flip1).1;
    var r2 := Export(r1, Some(sc2), flip2).1;
    ExportChunkOrder(st, sc1, flip1);
    ExportChunkOrder(r1, sc2, flip2);
    var tree :| r2.written == Opening(r1, sc2) + tree + Closing(sc2, r2);
    var o, cl := Opening(r1, sc2), Closing(sc2, r2);
    var c := AnimationsChunk(r1.animations + ParsedAnimations(sc2.stacks, sc2.root, |sc2.stacks|));
    assert o == [c];
    AppendAssoc(o, tree, cl);
    AppendedAt([], c, tree + cl, r2.written);
  }

  lemma AppendedAt<T>(w1: seq<T>, c: T, rest: seq<T>, w2: seq<T>)
    requires w2 == w1 + ([c] + rest)
    ensures w1 < w2 && w2[|w1|] == c
  {
  }
}
