/**
 * What the four scene adapters (Assimp, FBX, OBJ, XML) have in common: the
 * values they write into chunk payloads, the chunk names they use, the
 * bounding-box accumulator, the bone table with its "Bones" chunk, the packed
 * bone ids, the texture descriptors and the material block.
 *
 * A chunk payload is a sequence of `Field`s, one per `WRITE_VALUE`,
 * `WRITE_VALUES` or `CopyString` of the source; the byte encoding of floats,
 * vectors and matrices is not modelled (a `Text` field stands for the bytes
 * `StuText.CopiedText` gives).
 */
module SceneExport {
  import opened Wrappers
  import opened CText
  import opened StuText
  import opened ModelData

  // ---------------------------------------------------------------------------
  // Payload values

  datatype Vec3 = Vec3(x: real, y: real, z: real)

  /** A texture coordinate pair as stored in `texcoord.x`, `texcoord.y`. */
  datatype UV = UV(u: real, v: real)

  /** `texcoord.y = 1 - v` when the flip flag is set. */
  function FlipV(uv: UV, flip: bool): UV
  {
    if flip then UV(uv.u, 1.0 - uv.v) else uv
  }

  /** A 4x4 matrix; the element order conversions of the adapters are not modelled. */
  datatype Mat4 = Identity | Given(entries: seq<real>)

  /**
   * What one member of a vertex struct holds after a loop iteration: the value
   * written in this iteration, or `Kept` when the iteration did not write it,
   * so that it still holds what the previous record (or the uninitialised
   * struct) held.
   */
  datatype Slot<T> = Set(value: T) | Kept

  /** Bone weights `bones.xyzw` and the packed ids in `texcoord.w` and `normal.w`. */
  datatype Skin = Skin(w0: real, w1: real, w2: real, w3: real, ids01: real, ids23: real)

  /** One vertex record, by layout (`VertexDataSimple` ... `VertexDataWithBones`). */
  datatype Vertex =
    | SimpleVertex(position: Vec3)
    | PointsVertex(position: Vec3, color: Slot<Vec3>)
    | TexturedVertex(position: Vec3, texcoord: Slot<UV>)
    | NormalsVertex(position: Vec3, normal: Slot<Vec3>, texcoord: Slot<UV>)
    | BonesVertex(position: Vec3, normal: Slot<Vec3>, texcoord: Slot<UV>, skin: Skin)
  {
    /** The layout a record of this shape belongs to. */
    function Layout(): VertexDataType
    {
      match this
      case SimpleVertex(_) => Simple
      case PointsVertex(_, _) => Points
      case TexturedVertex(_, _) => Textured
      case NormalsVertex(_, _, _) => Normals
      case BonesVertex(_, _, _, _) => Bones
    }
  }

  /** An animation key: time and translation or scale. */
  datatype VectorKey = VectorKey(time: real, value: Vec3)

  /** An animation key: time and rotation quaternion (w, x, y, z). */
  datatype QuatKey = QuatKey(time: real, w: real, x: real, y: real, z: real)

  /** One value written into a chunk payload. */
  datatype Field =
    | U32(n: nat)
    | U16(h: u16)
    | F32(x: real)
    | F64(x: real)
    | Text(s: CStr)
    | Color(c: Vec3)
    | Matrix(m: Mat4)
    | Record(v: Vertex)
    | VKey(vk: VectorKey)
    | QKey(qk: QuatKey)
    | MKey(mk: MeshKey)
    | Raw(b: seq<byte>)
    | Converted(texture: nat)
    | Info(offset: Mat4)

  /** A chunk handed to `AppendChunkToFile`: its name and its payload. */
  datatype Chunk = Chunk(name: CStr, data: seq<Field>)

  /**
   * How an `ExportToSTUFormat` call ends: it returns its flag, or an
   * `std::out_of_range` thrown by `Data.at(0)` on an empty payload escapes and
   * ends the program.
   */
  datatype ExportResult = Returned(ok: bool) | Terminated

  // ---------------------------------------------------------------------------
  // Animations

  /** The keys of one animated node (`NodeAnim`); its name hash is never written and is not modelled. */
  datatype NodeAnim = NodeAnim(
    name: CStr,
    positions: seq<VectorKey>,
    rotations: seq<QuatKey>,
    scalings: seq<VectorKey>,
    preState: AnimBehaviour,
    postState: AnimBehaviour)

  datatype MeshKey = MeshKey(time: real, value: nat)

  datatype MeshAnim = MeshAnim(name: CStr, keys: seq<MeshKey>)

  datatype Animation = Animation(
    name: CStr,
    ticksPerSecond: real,
    duration: real,
    channels: seq<NodeAnim>,
    meshChannels: seq<MeshAnim>)

  function VectorKeyFields(ks: seq<VectorKey>): (r: seq<Field>)
    ensures |r| == |ks|
    ensures forall i :: 0 <= i < |ks| ==> r[i] == VKey(ks[i])
  {
    if ks == [] then [] else VectorKeyFields(ks[..|ks| - 1]) + [VKey(ks[|ks| - 1])]
  }

  function QuatKeyFields(ks: seq<QuatKey>): (r: seq<Field>)
    ensures |r| == |ks|
    ensures forall i :: 0 <= i < |ks| ==> r[i] == QKey(ks[i])
  {
    if ks == [] then [] else QuatKeyFields(ks[..|ks| - 1]) + [QKey(ks[|ks| - 1])]
  }

  function MeshKeyFields(ks: seq<MeshKey>): (r: seq<Field>)
    ensures |r| == |ks|
    ensures forall i :: 0 <= i < |ks| ==> r[i] == MKey(ks[i])
  {
    if ks == [] then [] else MeshKeyFields(ks[..|ks| - 1]) + [MKey(ks[|ks| - 1])]
  }

  /** One channel: its name, the three key counts, post- then pre-state, then the keys of each list. */
  function ChannelFields(c: NodeAnim): seq<Field>
  {
    [Text(c.name), U32(|c.positions|), U32(|c.rotations|), U32(|c.scalings|),
     U32(c.postState.Code()), U32(c.preState.Code())]
    + VectorKeyFields(c.positions) + QuatKeyFields(c.rotations) + VectorKeyFields(c.scalings)
  }

  function ChannelsFields(cs: seq<NodeAnim>): seq<Field>
  {
    if cs == [] then [] else ChannelsFields(cs[..|cs| - 1]) + ChannelFields(cs[|cs| - 1])
  }

  function MeshAnimFields(m: MeshAnim): seq<Field>
  {
    [Text(m.name), U32(|m.keys|)] + MeshKeyFields(m.keys)
  }

  function MeshAnimsFields(ms: seq<MeshAnim>): seq<Field>
  {
    if ms == [] then [] else MeshAnimsFields(ms[..|ms| - 1]) + MeshAnimFields(ms[|ms| - 1])
  }

  /** One animation: name, ticks per second, duration, the channels, then the mesh channels. */
  function AnimationFields(a: Animation): seq<Field>
  {
    [Text(a.name), F64(a.ticksPerSecond), F64(a.duration), U32(|a.channels|)]
    + ChannelsFields(a.channels) + [U32(|a.meshChannels|)] + MeshAnimsFields(a.meshChannels)
  }

  function AnimationsFields(anims: seq<Animation>): seq<Field>
  {
    if anims == [] then [] else AnimationsFields(anims[..|anims| - 1]) + AnimationFields(anims[|anims| - 1])
  }

  /** The "Animations" chunk: the animation count, then each animation in order. */
  function AnimationsChunk(anims: seq<Animation>): Chunk
  {
    Chunk("Animations", [U32(|anims|)] + AnimationsFields(anims))
  }

  /** `ExportAnimations`: one pass over the animations, their channels and their mesh channels. */
  method ExportAnimations(anims: seq<Animation>) returns (c: Chunk)
    ensures c == AnimationsChunk(anims)
  {
    var body := [];
    var i := 0;
    while i < |anims|
      invariant 0 <= i <= |anims|
      invariant body == AnimationsFields(anims[..i])
    {
      var more := WriteAnimation(anims[i]);
      AnimationsFieldsStep(anims, i);
      body := body + more;
      i := i + 1;
    }
    assert anims[..i] == anims;
    c := Chunk("Animations", [U32(|anims|)] + body);
  }

  lemma AnimationsFieldsStep(anims: seq<Animation>, i: nat)
    requires i < |anims|
    ensures AnimationsFields(anims[..i + 1]) == AnimationsFields(anims[..i]) + AnimationFields(anims[i])
  {
    assert anims[..i + 1][..i] == anims[..i];
  }

  method WriteAnimation(a: Animation) returns (data: seq<Field>)
    ensures data == AnimationFields(a)
  {
    var channels := [];
    var j := 0;
    while j < |a.channels|
      invariant 0 <= j <= |a.channels|
      invariant channels == ChannelsFields(a.channels[..j])
    {
      assert a.channels[..j + 1][..j] == a.channels[..j];
      channels := channels + ChannelFields(a.channels[j]);
      j := j + 1;
    }
    assert a.channels[..j] == a.channels;
    var meshChannels := [];
    j := 0;
    while j < |a.meshChannels|
      invariant 0 <= j <= |a.meshChannels|
      invariant meshChannels == MeshAnimsFields(a.meshChannels[..j])
    {
      assert a.meshChannels[..j + 1][..j] == a.meshChannels[..j];
      meshChannels := meshChannels + MeshAnimFields(a.meshChannels[j]);
      j := j + 1;
    }
    assert a.meshChannels[..j] == a.meshChannels;
    data := [Text(a.name), F64(a.ticksPerSecond), F64(a.duration), U32(|a.channels|)]
      + channels + [U32(|a.meshChannels|)] + meshChannels;
  }

  // ---------------------------------------------------------------------------
  // Chunk names

  const VX_PREFIX: CStr := "Vx:"
  const MODEL_PREFIX: CStr := "Model:"
  const BB_SUFFIX: CStr := "BB"

  /** `std::string("Vx:") + std::to_string(n)`. */
  function VxName(n: nat): (r: CStr)
    ensures |r| > 3 && r[..3] == VX_PREFIX
  {
    VX_PREFIX + DecimalText(n)
  }

  /** `std::string("Model:") + std::to_string(n)`. */
  function ModelName(n: nat): (r: CStr)
    ensures |r| > 6 && r[..6] == MODEL_PREFIX
  {
    MODEL_PREFIX + DecimalText(n)
  }

  /** The name of the bounding-box chunk that follows vertex chunk `s`. */
  function BBName(s: CStr): (r: CStr)
    ensures |r| == |s| + 2 && r[..|s|] == s && r[|s|..] == BB_SUFFIX
  {
    s + BB_SUFFIX
  }

  lemma VxNameInjective(m: nat, n: nat)
    ensures VxName(m) == VxName(n) <==> m == n
  {
    if VxName(m) == VxName(n) {
      assert VxName(m)[3..] == DecimalText(m);
      assert VxName(n)[3..] == DecimalText(n);
      DecimalTextInjective(m, n);
    }
  }

  lemma ModelNameInjective(m: nat, n: nat)
    ensures ModelName(m) == ModelName(n) <==> m == n
  {
    if ModelName(m) == ModelName(n) {
      assert ModelName(m)[6..] == DecimalText(m);
      assert ModelName(n)[6..] == DecimalText(n);
      DecimalTextInjective(m, n);
    }
  }

  /** The three kinds of name never collide: a model, a vertex and a box chunk name differ. */
  lemma ChunkNamesDistinct(m: nat, n: nat, k: nat)
    ensures ModelName(m) != VxName(n)
    ensures ModelName(m) != BBName(VxName(k))
    ensures VxName(n) != BBName(VxName(k))
  {
    assert ModelName(m)[0] == 'M' && VxName(n)[0] == 'V' && BBName(VxName(k))[0] == 'V';
    var v := VxName(n);
    var b := BBName(VxName(k));
    assert v[|v| - 1] == DecimalText(n)[|DecimalText(n)| - 1];
    assert b[|b| - 1] == 'B';
  }

  // ---------------------------------------------------------------------------
  // Display names built from static counters

  /**
   * `prefix + "(" + name + "-" + std::to_string(k) + ")"`, or with `UNKNOWN`
   * in place of an empty name; the name is read as a C string.
   */
  function DisplayName(prefix: CStr, name: CStr, k: nat): CStr
  {
    if |CView(name)| > 0 then prefix + "(" + CView(name) + "-" + DecimalText(k) + ")"
    else prefix + "(UNKNOWN-" + DecimalText(k) + ")"
  }

  /** The text between the last '-' and the closing parenthesis is the counter. */
  lemma DisplayNameEnds(prefix: CStr, name: CStr, k: nat)
    ensures exists a: CStr :: DisplayName(prefix, name, k) == a + "-" + DecimalText(k) + ")"
  {
    if |CView(name)| > 0 {
      var a := prefix + "(" + CView(name);
      assert DisplayName(prefix, name, k) == a + "-" + DecimalText(k) + ")";
    } else {
      var a := prefix + "(UNKNOWN";
      assert DisplayName(prefix, name, k) == a + "-" + DecimalText(k) + ")";
    }
  }

  /** In `a + "-" + d` with no '-' in `d`, the last '-' is at index `|a|`. */
  lemma LastDash(s: CStr, a: CStr, d: CStr)
    requires s == a + "-" + d && '-' !in d
    ensures s[|a|] == '-'
    ensures forall j :: |a| < j < |s| ==> s[j] != '-'
  {
    forall j | |a| < j < |s|
      ensures s[j] != '-'
    {
      assert s[j] == d[j - |a| - 1];
    }
  }

  lemma TailAfterDash(a: CStr, d1: CStr, b: CStr, d2: CStr)
    requires '-' !in d1 && '-' !in d2
    requires a + "-" + d1 == b + "-" + d2
    ensures d1 == d2
  {
    var s := a + "-" + d1;
    LastDash(s, a, d1);
    LastDash(s, b, d2);
    assert |a| == |b|;
    assert d1 == s[|a| + 1..];
    assert d2 == s[|b| + 1..];
  }

  /** Names made with different counter values differ, whatever the node names. */
  lemma DisplayNameCounterDistinct(prefix: CStr, n1: CStr, k1: nat, n2: CStr, k2: nat)
    requires k1 != k2
    ensures DisplayName(prefix, n1, k1) != DisplayName(prefix, n2, k2)
  {
    if DisplayName(prefix, n1, k1) == DisplayName(prefix, n2, k2) {
      DisplayNameEnds(prefix, n1, k1);
      DisplayNameEnds(prefix, n2, k2);
      var a1: CStr :| DisplayName(prefix, n1, k1) == a1 + "-" + DecimalText(k1) + ")";
      var a2: CStr :| DisplayName(prefix, n2, k2) == a2 + "-" + DecimalText(k2) + ")";
      var s := DisplayName(prefix, n1, k1);
      assert s[..|s| - 1] == a1 + "-" + DecimalText(k1);
      assert s[..|s| - 1] == a2 + "-" + DecimalText(k2);
      NoDashInDigits(k1);
      NoDashInDigits(k2);
      TailAfterDash(a1, DecimalText(k1), a2, DecimalText(k2));
      DecimalTextInjective(k1, k2);
    }
  }

  lemma NoDashInDigits(k: nat)
    ensures '-' !in DecimalText(k)
  {
    var d := DecimalText(k);
    forall i | 0 <= i < |d| ensures d[i] != '-' { }
  }

  // ---------------------------------------------------------------------------
  // Bounding box

  /** `std::numeric_limits<float>::max()`. */
  const FLT_MAX: real := 340282346638528859811704183484516925440.0

  datatype Box = Box(lo: Vec3, hi: Vec3)

  /** The box before any vertex: minima at `FLT_MAX`, maxima at `-FLT_MAX`. */
  function EmptyBox(): Box
  {
    Box(Vec3(FLT_MAX, FLT_MAX, FLT_MAX), Vec3(-FLT_MAX, -FLT_MAX, -FLT_MAX))
  }

  /** `std::min(a, b)`: `b` when `b < a`, otherwise `a`. */
  function StdMin(a: real, b: real): real { if b < a then b else a }

  /** `std::max(a, b)`: `b` when `a < b`, otherwise `a`. */
  function StdMax(a: real, b: real): real { if a < b then b else a }

  /** One step of the accumulator: `bmin[k] = std::min(p[k], bmin[k])`, `bmax[k] = std::max(p[k], bmax[k])`. */
  function Grow(b: Box, p: Vec3): Box
  {
    Box(Vec3(StdMin(p.x, b.lo.x), StdMin(p.y, b.lo.y), StdMin(p.z, b.lo.z)),
        Vec3(StdMax(p.x, b.hi.x), StdMax(p.y, b.hi.y), StdMax(p.z, b.hi.z)))
  }

  /** The box after the positions `ps`, in order. */
  function BoundsOf(ps: seq<Vec3>): Box
  {
    if ps == [] then EmptyBox() else Grow(BoundsOf(ps[..|ps| - 1]), ps[|ps| - 1])
  }

  /** One more position grows the box of the prefix. */
  lemma BoundsStep(ps: seq<Vec3>, v: nat)
    requires v < |ps|
    ensures BoundsOf(ps[..v + 1]) == Grow(BoundsOf(ps[..v]), ps[v])
  {
    assert ps[..v + 1][..v] == ps[..v];
  }

  function Coord(v: Vec3, k: nat): real
    requires k < 3
  {
    if k == 0 then v.x else if k == 1 then v.y else v.z
  }

  predicate Inside(b: Box, p: Vec3)
  {
    && b.lo.x <= p.x <= b.hi.x
    && b.lo.y <= p.y <= b.hi.y
    && b.lo.z <= p.z <= b.hi.z
  }

  /** The box holds every position, componentwise. */
  lemma {:induction false} BoundsContain(ps: seq<Vec3>)
    ensures forall i :: 0 <= i < |ps| ==> Inside(BoundsOf(ps), ps[i])
  {
    if ps != [] {
      var init := ps[..|ps| - 1];
      BoundsContain(init);
      forall i | 0 <= i < |ps|
        ensures Inside(BoundsOf(ps), ps[i])
      {
        if i < |ps| - 1 {
          assert ps[i] == init[i];
        }
      }
    }
  }

  /**
   * Each bound is attained: a minimum is `FLT_MAX` or the coordinate of some
   * position, and a maximum is `-FLT_MAX` or the coordinate of some position.
   * With `BoundsContain` this makes the box the exact componentwise range.
   */
  lemma {:induction false} BoundsAttained(ps: seq<Vec3>, k: nat)
    requires k < 3
    ensures Coord(BoundsOf(ps).lo, k) == FLT_MAX || exists i :: 0 <= i < |ps| && Coord(BoundsOf(ps).lo, k) == Coord(ps[i], k)
    ensures Coord(BoundsOf(ps).hi, k) == -FLT_MAX || exists i :: 0 <= i < |ps| && Coord(BoundsOf(ps).hi, k) == Coord(ps[i], k)
  {
    if ps != [] {
      var init := ps[..|ps| - 1];
      BoundsAttained(init, k);
      var last := |ps| - 1;
      if Coord(BoundsOf(ps).lo, k) != Coord(ps[last], k) {
        assert Coord(BoundsOf(ps).lo, k) == Coord(BoundsOf(init).lo, k);
        if Coord(BoundsOf(init).lo, k) != FLT_MAX {
          var i :| 0 <= i < |init| && Coord(BoundsOf(init).lo, k) == Coord(init[i], k);
          assert init[i] == ps[i];
        }
      }
      if Coord(BoundsOf(ps).hi, k) != Coord(ps[last], k) {
        assert Coord(BoundsOf(ps).hi, k) == Coord(BoundsOf(init).hi, k);
        if Coord(BoundsOf(init).hi, k) != -FLT_MAX {
          var i :| 0 <= i < |init| && Coord(BoundsOf(init).hi, k) == Coord(init[i], k);
          assert init[i] == ps[i];
        }
      }
    }
  }

  /** The payload of a "<name>BB" chunk: min x, y, z then max x, y, z. */
  function BoxFields(b: Box): seq<Field>
  {
    [F32(b.lo.x), F32(b.lo.y), F32(b.lo.z), F32(b.hi.x), F32(b.hi.y), F32(b.hi.z)]
  }

  function RecordFields(vs: seq<Vertex>): seq<Field>
  {
    seq(|vs|, i requires 0 <= i < |vs| => Record(vs[i]))
  }

  /** The vertex chunk `name` followed by its bounding-box chunk. */
  function VertexChunks(name: CStr, vs: seq<Vertex>, b: Box): seq<Chunk>
  {
    [Chunk(name, RecordFields(vs)), Chunk(BBName(name), BoxFields(b))]
  }

  // ---------------------------------------------------------------------------
  // Bone table

  /**
   * The bone table an adapter keeps (`m_BoneMapping`, `m_uNumBones`,
   * `m_BoneInfo`): every name hash has an index below the count, indices are
   * distinct and every index below the count belongs to some hash, and there
   * is one `BoneInfo` per bone.
   */
  ghost predicate DenseTable(m: map<u32, nat>, n: nat, infos: nat)
  {
    && infos == n
    && |m| == n
    && (forall h :: h in m ==> m[h] < n)
    && (forall h1, h2 :: h1 in m && h2 in m && m[h1] == m[h2] ==> h1 == h2)
    && (forall i :: 0 <= i < n ==> HasIndex(m, i))
  }

  /** Some hash of the table is mapped to index `i`. */
  ghost predicate HasIndex(m: map<u32, nat>, i: nat)
  {
    exists h :: h in m && m[h] == i
  }

  /** The index a bone hash gets: its existing index, or the next free one. */
  function BoneIndex(m: map<u32, nat>, n: nat, h: u32): nat
  {
    if h in m then m[h] else n
  }

  /** Interning a new hash at index `n` keeps the table dense. */
  lemma InternKeepsDense(m: map<u32, nat>, n: nat, infos: nat, h: u32)
    requires DenseTable(m, n, infos) && h !in m
    ensures DenseTable(m[h := n], n + 1, infos + 1)
  {
    var m' := m[h := n];
    assert m'.Keys == m.Keys + {h};
    forall i | 0 <= i < n + 1
      ensures HasIndex(m', i)
    {
      if i == n {
        assert h in m' && m'[h] == i;
      } else {
        assert HasIndex(m, i);
        var g :| g in m && m[g] == i;
        assert g in m' && m'[g] == i;
      }
    }
  }

  lemma EmptyTableDense()
    ensures DenseTable(map[], 0, 0)
  {
  }

  /** The map keys from `lo` upwards, ascending: the order a `std::map` iterates in. */
  function KeysFrom(m: map<u32, nat>, lo: nat): (r: seq<u32>)
    requires lo <= U32_LIMIT
    decreases U32_LIMIT - lo
  {
    if lo == U32_LIMIT then []
    else if lo in m then [lo] + KeysFrom(m, lo + 1)
    else KeysFrom(m, lo + 1)
  }

  /** The iteration visits exactly the keys, each once, in strictly ascending order. */
  lemma {:induction false} KeysFromSorted(m: map<u32, nat>, lo: nat)
    requires lo <= U32_LIMIT
    ensures forall i :: 0 <= i < |KeysFrom(m, lo)| ==> lo <= KeysFrom(m, lo)[i]
    ensures forall i, j :: 0 <= i < j < |KeysFrom(m, lo)| ==> KeysFrom(m, lo)[i] < KeysFrom(m, lo)[j]
    ensures forall h :: h in KeysFrom(m, lo) <==> h in m && lo <= h
    decreases U32_LIMIT - lo
  {
    if lo < U32_LIMIT {
      KeysFromSorted(m, lo + 1);
    }
  }

  /** The `(hash, index)` pairs of the table in the given key order. */
  function PairFields(m: map<u32, nat>, keys: seq<u32>): (r: seq<Field>)
    requires forall h :: h in keys ==> h in m
    ensures |r| == 2 * |keys|
  {
    if keys == [] then []
    else PairFields(m, keys[..|keys| - 1]) + [U32(keys[|keys| - 1]), U32(m[keys[|keys| - 1]])]
  }

  function InfoFields(offsets: seq<Mat4>): (r: seq<Field>)
    ensures |r| == |offsets|
    ensures forall i :: 0 <= i < |offsets| ==> r[i] == Info(offsets[i])
  {
    if offsets == [] then [] else InfoFields(offsets[..|offsets| - 1]) + [Info(offsets[|offsets| - 1])]
  }

  /** The "Bones" payload: the pair count, the pairs by ascending hash, the `BoneInfo` count and records. */
  function BonesFields(m: map<u32, nat>, offsets: seq<Mat4>): seq<Field>
  {
    KeysFromSorted(m, 0);
    [U32(|m|)] + PairFields(m, KeysFrom(m, 0)) + [U32(|offsets|)] + InfoFields(offsets)
  }

  /** `ExportBones`: walks the map in key order writing each pair. */
  method ExportBones(m: map<u32, nat>, offsets: seq<Mat4>) returns (c: Chunk)
    ensures c == Chunk("Bones", BonesFields(m, offsets))
  {
    KeysFromSorted(m, 0);
    var keys := KeysFrom(m, 0);
    var pairs := [];
    var it := 0;
    while it < |keys|
      invariant 0 <= it <= |keys|
      invariant pairs == PairFields(m, keys[..it])
    {
      assert keys[..it + 1][..it] == keys[..it];
      pairs := pairs + [U32(keys[it]), U32(m[keys[it]])];
      it := it + 1;
    }
    assert keys[..it] == keys;
    c := Chunk("Bones", [U32(|m|)] + pairs + [U32(|offsets|)] + InfoFields(offsets));
  }

  // ---------------------------------------------------------------------------
  // Skinning values

  /** `float(a) + float(b) / 256.0f`: two bone ids in one float. */
  function PackIds(a: nat, b: nat): real
  {
    a as real + b as real / 256.0
  }

  /** Both ids come back from the packed value while the second is below 256. */
  lemma PackIdsRecover(a: nat, b: nat)
    requires b < 256
    ensures PackIds(a, b).Floor == a
    ensures (PackIds(a, b) - (a as real)) * 256.0 == b as real
  {
    var p := PackIds(a, b);
    assert 0.0 <= b as real / 256.0 < 1.0;
    assert a as real <= p < a as real + 1.0;
  }

  /** The skin of a vertex without bone data: weight 1 on slot 0, packed ids 0. */
  const RIGID: Skin := Skin(1.0, 0.0, 0.0, 0.0, 0.0, 0.0)

  /** The skin read from slots 0..3 of a vertex's sorted influence list. */
  function SkinOf(sorted: seq<BoneWeight>): (r: Skin)
    requires |sorted| >= NUM_BONES_PER_VERTEX
    ensures r.w0 == sorted[0].Weight && r.w1 == sorted[1].Weight
    ensures r.w2 == sorted[2].Weight && r.w3 == sorted[3].Weight
  {
    Skin(sorted[0].Weight, sorted[1].Weight, sorted[2].Weight, sorted[3].Weight,
         PackIds(sorted[0].ID, sorted[1].ID), PackIds(sorted[2].ID, sorted[3].ID))
  }

  /** A skinned vertex that received no influence reads back weights 0,0,0,0 and ids 0, not the rigid skin. */
  lemma SkinOfUntouched()
    ensures SkinOf(Seeded()) == Skin(0.0, 0.0, 0.0, 0.0, 0.0, 0.0)
    ensures SkinOf(Seeded()) != RIGID
  {
  }

  /**
   * With positive weights only, the skin slots hold the heaviest influences
   * received: slot 0 carries the largest weight of all contributions.
   */
  lemma SkinCarriesHeaviest(contribs: seq<BoneWeight>, i: nat)
    requires forall j :: 0 <= j < |contribs| ==> contribs[j].Weight > 0.0
    requires i < |contribs|
    ensures SkinOf(Accumulate(contribs)).w0 >= contribs[i].Weight
  {
    PositiveWeightsLead(contribs);
    AccumulateSorted(contribs);
    AccumulatePermutation(contribs);
    var r := Accumulate(contribs);
    assert contribs[i] in multiset(contribs);
    assert contribs[i] in multiset(r);
    var j :| 0 <= j < |r| && r[j] == contribs[i];
    assert r[0].Weight >= r[j].Weight;
  }

  /** A vertex's influence list (`VertexBoneData::SortedData`): never shorter than the four seeds. */
  type Influences = s: seq<BoneWeight> | |s| >= NUM_BONES_PER_VERTEX
    witness [BoneWeight(0, 0.0), BoneWeight(0, 0.0), BoneWeight(0, 0.0), BoneWeight(0, 0.0)]

  /** `m_Bones.resize(n)` on an empty vector: `n` reset influence lists. */
  function SeededLists(n: nat): (r: seq<Influences>)
    ensures |r| == n
    ensures forall k :: 0 <= k < n ==> r[k] == Seeded()
  {
    seq(n, _ => Seeded())
  }

  /**
   * `m_Bones[vertex].AddBoneData(id, w)`. An index past the end of `m_Bones`
   * is undefined behaviour in the source; the model leaves the table unchanged.
   */
  function AddInfluence(bones: seq<Influences>, vertex: nat, id: nat, w: real): (r: seq<Influences>)
    ensures |r| == |bones|
    ensures vertex < |bones| ==> r[vertex] == InsertByWeight(bones[vertex], BoneWeight(id, w))
    ensures forall k :: 0 <= k < |bones| && k != vertex ==> r[k] == bones[k]
  {
    if vertex < |bones| then bones[vertex := InsertByWeight(bones[vertex], BoneWeight(id, w))] else bones
  }

  /** One `AddBoneData` call extends vertex `x`'s list by its contribution to `x`, if any. */
  lemma InfluenceStep(before: seq<Influences>, v: nat, id: nat, w: real, x: nat, acc: seq<BoneWeight>)
    requires x < |before| && before[x] == Accumulate(acc)
    ensures AddInfluence(before, v, id, w)[x] == Accumulate(acc + if v == x then [BoneWeight(id, w)] else [])
  {
    if v == x {
      AccumulateSnoc(acc, BoneWeight(id, w));
    } else {
      assert acc + [] == acc;
    }
  }

  /**
   * The skin written for a vertex of a skinned mesh: slots 0..3 of its list.
   * A vertex past the end of `m_Bones` is undefined behaviour in the source
   * (the Assimp adapter reaches it through a base vertex read for the wrong
   * mesh); the model writes the rigid skin there.
   */
  function SkinAt(bones: seq<Influences>, vertex: nat): Skin
  {
    if vertex < |bones| then SkinOf(bones[vertex]) else RIGID
  }

  // ---------------------------------------------------------------------------
  // The sequence of Model chunks

  predicate IsModelChunk(c: Chunk)
  {
    |c.name| >= 6 && c.name[..6] == MODEL_PREFIX
  }

  /** The "Model:<n>" chunks among `w`, in the order written. */
  function ModelChunks(w: seq<Chunk>): (r: seq<Chunk>)
    ensures |r| <= |w|
    ensures forall i :: 0 <= i < |r| ==> IsModelChunk(r[i])
  {
    if w == [] then []
    else ModelChunks(w[..|w| - 1]) + (if IsModelChunk(w[|w| - 1]) then [w[|w| - 1]] else [])
  }

  lemma {:induction false} ModelChunksAppend(a: seq<Chunk>, b: seq<Chunk>)
    ensures ModelChunks(a + b) == ModelChunks(a) + ModelChunks(b)
    decreases |b|
  {
    if b == [] {
      assert a + b == a;
    } else {
      var b', last := b[..|b| - 1], b[|b| - 1];
      var t := if IsModelChunk(last) then [last] else [];
      ModelChunksAppend(a, b');
      assert (a + b)[..|a + b| - 1] == a + b' && (a + b)[|a + b| - 1] == last;
      assert ModelChunks(a + b) == ModelChunks(a + b') + t;
      assert ModelChunks(b) == ModelChunks(b') + t;
      AppendAssoc(ModelChunks(a), ModelChunks(b'), t);
    }
  }

  /** `cs` are `n` Model chunks named "Model:<lo>", "Model:<lo+1>", ... */
  predicate NumberedFrom(cs: seq<Chunk>, lo: nat, n: nat)
  {
    |cs| == n && forall j :: 0 <= j < n ==> cs[j].name == ModelName(lo + j)
  }

  /** Extending a prefix twice: the second extension's new part is both new parts. */
  lemma PrefixCompose<T>(a: seq<T>, b: seq<T>, c: seq<T>)
    requires |a| <= |b| && b[..|a|] == a && |b| <= |c| && c[..|b|] == b
    ensures |a| <= |c| && c[..|a|] == a && c[|a|..] == b[|a|..] + c[|b|..]
  {
    assert c[..|a|] == c[..|b|][..|a|];
  }

  /** Model chunks numbered on from `lo` followed by ones numbered on from `lo + n1`. */
  lemma NumberedConcat(x: seq<Chunk>, y: seq<Chunk>, lo: nat, n1: nat, n2: nat)
    requires NumberedFrom(ModelChunks(x), lo, n1) && NumberedFrom(ModelChunks(y), lo + n1, n2)
    ensures NumberedFrom(ModelChunks(x + y), lo, n1 + n2)
  {
    ModelChunksAppend(x, y);
    NumberedAppend(ModelChunks(x), ModelChunks(y), lo, n1, n2);
  }

  lemma NumberedAppend(p: seq<Chunk>, q: seq<Chunk>, lo: nat, n1: nat, n2: nat)
    requires NumberedFrom(p, lo, n1) && NumberedFrom(q, lo + n1, n2)
    ensures NumberedFrom(p + q, lo, n1 + n2)
  {
    forall j | 0 <= j < n1 + n2
      ensures (p + q)[j].name == ModelName(lo + j)
    {
      if j >= n1 {
        var k := j - n1;
        assert (p + q)[j] == q[k];
        assert lo + n1 + k == lo + j;
      }
    }
  }

  /**
   * From `w0` to `w1` chunks were only appended, and the new ones hold `n`
   * Model chunks named "Model:<lo>", "Model:<lo+1>", ... in that order.
   */
  ghost predicate AppendsModels(w0: seq<Chunk>, w1: seq<Chunk>, lo: nat, n: nat)
  {
    |w0| <= |w1| && w1[..|w0|] == w0 && NumberedFrom(ModelChunks(w1[|w0|..]), lo, n)
  }

  lemma AppendsNothing(w: seq<Chunk>, lo: nat)
    ensures AppendsModels(w, w, lo, 0)
  {
    assert w[|w|..] == [];
  }

  lemma AppendsCompose(w0: seq<Chunk>, w1: seq<Chunk>, w2: seq<Chunk>, lo: nat, n1: nat, n2: nat)
    requires AppendsModels(w0, w1, lo, n1) && AppendsModels(w1, w2, lo + n1, n2)
    ensures AppendsModels(w0, w2, lo, n1 + n2)
  {
    PrefixCompose(w0, w1, w2);
    NumberedConcat(w1[|w0|..], w2[|w1|..], lo, n1, n2);
  }

  /** Appending one Model chunk under the next number. */
  lemma AppendsModelChunk(w: seq<Chunk>, lo: nat, data: seq<Field>)
    ensures AppendsModels(w, w + [Chunk(ModelName(lo), data)], lo, 1)
  {
    var w1 := w + [Chunk(ModelName(lo), data)];
    assert w1[..|w|] == w;
    assert w1[|w|..] == [Chunk(ModelName(lo), data)];
    ModelChunkOfName(lo, data);
  }

  /** Appending a vertex chunk and its box chunk adds no Model chunk. */
  lemma AppendsVertexChunks(w: seq<Chunk>, lo: nat, n: nat, vs: seq<Vertex>, b: Box)
    ensures AppendsModels(w, w + VertexChunks(VxName(n), vs, b), lo, 0)
  {
    var w1 := w + VertexChunks(VxName(n), vs, b);
    assert w1[..|w|] == w;
    assert w1[|w|..] == VertexChunks(VxName(n), vs, b);
    VertexChunksAreNotModels(n, vs, b);
  }

  /** A vertex chunk and its box chunk are not Model chunks. */
  lemma VertexChunksAreNotModels(n: nat, vs: seq<Vertex>, b: Box)
    ensures ModelChunks(VertexChunks(VxName(n), vs, b)) == []
  {
    var w := VertexChunks(VxName(n), vs, b);
    assert w[..1][..0] == [];
    assert w[..|w| - 1] == w[..1];
    assert !IsModelChunk(w[0]) by { assert w[0].name[0] == 'V'; }
    assert !IsModelChunk(w[1]) by { assert w[1].name[0] == 'V'; }
  }

  lemma ModelChunkOfName(n: nat, data: seq<Field>)
    ensures ModelChunks([Chunk(ModelName(n), data)]) == [Chunk(ModelName(n), data)]
  {
    var w := [Chunk(ModelName(n), data)];
    assert w[..0] == [];
  }

  // ---------------------------------------------------------------------------
  // Materials and texture descriptors

  /** The fixed material block: ambient, diffuse, specular colours, shininess, alpha. */
  datatype Material = Material(ambient: Vec3, diffuse: Vec3, specular: Vec3, shininess: real, alpha: real)

  function Grey(v: real): Vec3 { Vec3(v, v, v) }

  function MaterialFields(m: Material): seq<Field>
  {
    [Color(m.ambient), Color(m.diffuse), Color(m.specular), F32(m.shininess), F32(m.alpha)]
  }

  /** A texture descriptor: a named texture of a kind, a colour-with-alpha entry, or none. */
  datatype TextureSlot = Named(kind: TextureType, name: CStr) | ColorAlpha(alpha: real) | NoTexture

  /** The descriptor as written: the type code, then the name or the alpha. */
  function SlotFields(t: TextureSlot): seq<Field>
  {
    match t
    case Named(kind, name) => [U32(kind.Code()), Text(name)]
    case ColorAlpha(a) => [U32(ColorDiffuse.Code()), F32(a)]
    case NoTexture => [U32(UnknownTexture.Code())]
  }

  /** The name of embedded texture `n`: `"InternalTexture(" + std::to_string(n) + ")"`. */
  function EmbeddedTextureName(n: nat): (r: CStr)
    ensures |r| > 17 && r[..16] == "InternalTexture("
    ensures r[|r| - 1] == ')'
  {
    "InternalTexture(" + DecimalText(n) + ")"
  }

  /** The texture number reads back from its name, so distinct textures get distinct names. */
  lemma EmbeddedTextureNameRoundTrip(n: nat)
    ensures var r := EmbeddedTextureName(n); Atoi(r[16..|r| - 1]) == n
  {
    var r := EmbeddedTextureName(n);
    assert r[16..|r| - 1] == DecimalText(n);
    AtoiOfDecimalText(n);
  }
}
