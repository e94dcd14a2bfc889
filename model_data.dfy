// The shared vocabulary of the scene adapters: the on-disk enum codes,
// the per-vertex bone-influence list, and the texture file-name rewrite.

module ModelData {
  import opened Wrappers
  import opened CText

  const MAX_BONES: nat := 100
  const NUM_BONES_PER_VERTEX: nat := 4

  /** The vertex record layout a mesh is stored with. */
  datatype VertexDataType = Simple | Points | Textured | Normals | Bones
  {
    /** The value written to the file for this layout. */
    function Code(): nat
    {
      match this
      case Simple => 0
      case Points => 1
      case Textured => 2
      case Normals => 3
      case Bones => 4
    }

    /** The size in bytes of one vertex record of this layout (3, 6, 5, 11 and 15 floats). */
    function RecordSize(): nat
    {
      match this
      case Simple => 12
      case Points => 24
      case Textured => 20
      case Normals => 44
      case Bones => 60
    }
  }

  datatype PrimitiveType = Point | Line | Triangle | Polygon
  {
    function Code(): nat
    {
      match this
      case Point => 1
      case Line => 2
      case Triangle => 4
      case Polygon => 8
    }
  }

  datatype TextureStorageType = Internal | InternalCompressed | FileStorage
  {
    function Code(): nat
    {
      match this
      case Internal => 0
      case InternalCompressed => 1
      case FileStorage => 2
    }
  }

  datatype TextureType =
    | Diffuse | ColorDiffuse | Specular | ColorSpecular | Ambient | ColorAmbient
    | Emissive | ColorEmissive | Height | NormalMap | Shininess | Opacity
    | Displacement | Lightmap | Reflection | UnknownTexture
  {
    function Code(): nat
    {
      match this
      case Diffuse => 0
      case ColorDiffuse => 1
      case Specular => 2
      case ColorSpecular => 3
      case Ambient => 4
      case ColorAmbient => 5
      case Emissive => 6
      case ColorEmissive => 7
      case Height => 8
      case NormalMap => 9
      case Shininess => 10
      case Opacity => 11
      case Displacement => 12
      case Lightmap => 13
      case Reflection => 14
      case UnknownTexture => 15
    }
  }

  datatype AnimBehaviour = DefaultBehaviour | ConstantBehaviour | LinearBehaviour | RepeatBehaviour
  {
    function Code(): nat
    {
      match this
      case DefaultBehaviour => 0
      case ConstantBehaviour => 1
      case LinearBehaviour => 2
      case RepeatBehaviour => 3
    }
  }

  /** Distinct layouts are written with distinct codes, so a reader can tell them apart. */
  lemma VertexDataTypeCodeInjective(a: VertexDataType, b: VertexDataType)
    ensures a.Code() == b.Code() <==> a == b
  {
  }

  lemma TextureTypeCodeInjective(a: TextureType, b: TextureType)
    ensures a.Code() == b.Code() <==> a == b
  {
  }

  // ---------------------------------------------------------------------
  // Bone influences of one vertex

  /** One (bone index, weight) influence. */
  datatype BoneWeight = BoneWeight(ID: nat, Weight: real)

  /** The list a fresh or reset `VertexBoneData` holds: four zero influences on bone 0. */
  function Seeded(): (r: seq<BoneWeight>)
    ensures |r| == NUM_BONES_PER_VERTEX
    ensures forall i :: 0 <= i < |r| ==> r[i] == BoneWeight(0, 0.0)
  {
    [BoneWeight(0, 0.0), BoneWeight(0, 0.0), BoneWeight(0, 0.0), BoneWeight(0, 0.0)]
  }

  predicate NonIncreasing(s: seq<BoneWeight>)
  {
    forall i, j :: 0 <= i < j < |s| ==> s[i].Weight >= s[j].Weight
  }

  /** The position before which an influence of weight `w` is inserted:
    * the first entry strictly lighter than `w`, or the end. */
  function InsertionPoint(s: seq<BoneWeight>, w: real): (k: nat)
    ensures k <= |s|
    ensures forall j :: 0 <= j < k ==> s[j].Weight >= w
    ensures k < |s| ==> w > s[k].Weight
  {
    if s == [] then 0
    else if w > s[0].Weight then 0
    else 1 + InsertionPoint(s[1..], w)
  }

  /** The list after `AddBoneData`: the new influence goes in at its insertion point. */
  function InsertByWeight(s: seq<BoneWeight>, d: BoneWeight): seq<BoneWeight>
  {
    var k := InsertionPoint(s, d.Weight);
    s[..k] + [d] + s[k..]
  }

  /** Inserting adds exactly the one influence and keeps every other entry, in order. */
  lemma InsertAddsOne(s: seq<BoneWeight>, d: BoneWeight)
    ensures var r := InsertByWeight(s, d);
      var k := InsertionPoint(s, d.Weight);
      |r| == |s| + 1 && r[k] == d && r[..k] + r[k + 1..] == s
      && multiset(r) == multiset(s) + multiset{d}
  {
    InsertAt(s, InsertionPoint(s, d.Weight), d);
  }

  lemma InsertAt<T>(s: seq<T>, k: nat, d: T)
    requires k <= |s|
    ensures var r := s[..k] + [d] + s[k..];
      |r| == |s| + 1 && r[k] == d && r[..k] + r[k + 1..] == s
      && multiset(r) == multiset(s) + multiset{d}
  {
    var r := s[..k] + [d] + s[k..];
    assert r[..k] == s[..k];
    assert r[k + 1..] == s[k..];
    assert s == s[..k] + s[k..];
  }

  lemma MultisetSnoc<T>(s: seq<T>)
    requires s != []
    ensures multiset(s) == multiset(s[..|s| - 1]) + multiset{s[|s| - 1]}
  {
    assert s == s[..|s| - 1] + [s[|s| - 1]];
  }

  /** A list ordered heaviest first stays ordered heaviest first. */
  lemma InsertKeepsOrder(s: seq<BoneWeight>, d: BoneWeight)
    requires NonIncreasing(s)
    ensures NonIncreasing(InsertByWeight(s, d))
  {
    var k := InsertionPoint(s, d.Weight);
    var r := InsertByWeight(s, d);
    forall j | k <= j < |s|
      ensures d.Weight > s[j].Weight
    {
      assert s[k].Weight >= s[j].Weight;
    }
    forall i, j | 0 <= i < j < |r|
      ensures r[i].Weight >= r[j].Weight
    {
      if j < k {
      } else if j == k {
        assert r[i] == s[i];
      } else if i < k {
        assert r[i] == s[i] && r[j] == s[j - 1];
      } else if i == k {
        assert r[j] == s[j - 1];
      } else {
        assert r[i] == s[i - 1] && r[j] == s[j - 1];
      }
    }
  }

  /** Among equal weights the newcomer goes after the influences already present. */
  lemma InsertAfterEqualWeights(s: seq<BoneWeight>, d: BoneWeight, j: nat)
    requires NonIncreasing(s)
    requires j < |s| && s[j].Weight == d.Weight
    ensures j < InsertionPoint(s, d.Weight)
  {
  }

  /** The list after each influence of `contribs` has been added, in order, to a reset list. */
  function Accumulate(contribs: seq<BoneWeight>): (r: seq<BoneWeight>)
    ensures |r| == |contribs| + NUM_BONES_PER_VERTEX
  {
    if contribs == [] then Seeded()
    else InsertByWeight(Accumulate(contribs[..|contribs| - 1]), contribs[|contribs| - 1])
  }

  /** One more contribution is one more ordered insertion. */
  lemma AccumulateSnoc(contribs: seq<BoneWeight>, d: BoneWeight)
    ensures Accumulate(contribs + [d]) == InsertByWeight(Accumulate(contribs), d)
  {
    assert (contribs + [d])[..|contribs|] == contribs;
  }

  /** The accumulated list is always ordered heaviest first and holds exactly the
    * four seed entries and the contributions. */
  lemma {:induction false} AccumulateSorted(contribs: seq<BoneWeight>)
    ensures NonIncreasing(Accumulate(contribs))
  {
    if contribs != [] {
      var init := contribs[..|contribs| - 1];
      AccumulateSorted(init);
      InsertKeepsOrder(Accumulate(init), contribs[|contribs| - 1]);
    }
  }

  lemma {:induction false} AccumulatePermutation(contribs: seq<BoneWeight>)
    ensures multiset(Accumulate(contribs)) == multiset(Seeded()) + multiset(contribs)
  {
    if contribs != [] {
      var init := contribs[..|contribs| - 1];
      var d := contribs[|contribs| - 1];
      AccumulatePermutation(init);
      InsertAddsOne(Accumulate(init), d);
      MultisetSnoc(contribs);
    }
  }

  /** With positive weights the four seed entries stay at the tail. */
  lemma {:induction false} PositiveWeightsKeepSeedsLast(contribs: seq<BoneWeight>)
    requires forall i :: 0 <= i < |contribs| ==> contribs[i].Weight > 0.0
    ensures Accumulate(contribs)[|contribs|..] == Seeded()
  {
    if contribs != [] {
      var init := contribs[..|contribs| - 1];
      var d := contribs[|contribs| - 1];
      var a := Accumulate(init);
      PositiveWeightsKeepSeedsLast(init);
      var n := |init|;
      assert a[n] == BoneWeight(0, 0.0);
      var k := InsertionPoint(a, d.Weight);
      assert k <= n;
      assert Accumulate(contribs)[n + 1..] == a[n..];
    }
  }

  /** So with positive weights the leading `|contribs|` entries are exactly the
    * contributions, heaviest first. */
  lemma PositiveWeightsLead(contribs: seq<BoneWeight>)
    requires forall i :: 0 <= i < |contribs| ==> contribs[i].Weight > 0.0
    ensures NonIncreasing(Accumulate(contribs)[..|contribs|])
    ensures multiset(Accumulate(contribs)[..|contribs|]) == multiset(contribs)
  {
    PositiveWeightsKeepSeedsLast(contribs);
    AccumulatePermutation(contribs);
    AccumulateSorted(contribs);
    SortedPrefix(Accumulate(contribs), contribs);
  }

  lemma SortedPrefix(a: seq<BoneWeight>, contribs: seq<BoneWeight>)
    requires |a| == |contribs| + NUM_BONES_PER_VERTEX && a[|contribs|..] == Seeded()
    requires NonIncreasing(a) && multiset(a) == multiset(Seeded()) + multiset(contribs)
    ensures NonIncreasing(a[..|contribs|]) && multiset(a[..|contribs|]) == multiset(contribs)
  {
    var n := |contribs|;
    assert a == a[..n] + a[n..];
    assert multiset(a) == multiset(a[..n]) + multiset(a[n..]);
    assert multiset(a[n..]) == multiset(Seeded());
    forall x
      ensures multiset(a[..n])[x] == multiset(contribs)[x]
    {
      assert multiset(a)[x] == multiset(a[..n])[x] + multiset(Seeded())[x];
    }
    forall i, j | 0 <= i < j < n
      ensures a[..n][i].Weight >= a[..n][j].Weight
    {
      assert a[..n][i] == a[i] && a[..n][j] == a[j];
    }
  }

  /** One vertex's bone influences, kept ordered heaviest first. The list is
    * never truncated: entries past the fourth stay in it. */
  class VertexBoneData {
    var SortedData: seq<BoneWeight>

    constructor()
      ensures SortedData == Seeded()
    {
      SortedData := Seeded();
    }

    method Reset()
      modifies this
      ensures SortedData == Seeded()
    {
      SortedData := Seeded();
    }

    /** Inserts before the first strictly lighter entry, or appends when there is none. */
    method AddBoneData(BoneID: nat, Weight: real)
      modifies this
      ensures SortedData == InsertByWeight(old(SortedData), BoneWeight(BoneID, Weight))
    {
      var newData := BoneWeight(BoneID, Weight);
      var it := 0;
      var inserted := false;
      while it < |SortedData|
        invariant 0 <= it <= |SortedData|
        invariant SortedData == old(SortedData)
        invariant forall j :: 0 <= j < it ==> !(Weight > SortedData[j].Weight)
      {
        if Weight > SortedData[it].Weight {
          inserted := true;
          break;
        }
        it := it + 1;
      }
      assert it == InsertionPoint(SortedData, Weight);
      SortedData := SortedData[..it] + [newData] + SortedData[it..];
    }
  }

  // ---------------------------------------------------------------------
  // Texture file-name rewrite

  const TIF: CStr := ".tif"
  const PSD: CStr := ".psd"
  const PNG: CStr := ".png"

  /** Where the rewrite splices in ".png": the first ".tif" of the lower-cased name,
    * or failing that its first ".psd". */
  function ExtensionPosition(sFilename: CStr): (r: Option<nat>)
    ensures r.Some? ==> r.value + 4 <= |sFilename|
    ensures r.Some? ==> OccursAt(Lower(sFilename), TIF, r.value) || OccursAt(Lower(sFilename), PSD, r.value)
    ensures r.None? <==> Find(Lower(sFilename), TIF).None? && Find(Lower(sFilename), PSD).None?
    ensures Find(Lower(sFilename), TIF).Some? ==> r == Find(Lower(sFilename), TIF)
    ensures Find(Lower(sFilename), TIF).None? ==> r == Find(Lower(sFilename), PSD)
  {
    var sTest := Lower(sFilename);
    var t := Find(sTest, TIF);
    if t.Some? then t else Find(sTest, PSD)
  }

  datatype Rewrite = Rewrite(changed: bool, name: CStr)

  /** `CImagePreProcess::ReplaceUnrecognizedInternalTextureFormats`: replaces four
    * characters of the name, matched without regard to case, by ".png". */
  function ReplaceUnrecognizedInternalTextureFormats(sFilename: CStr): (r: Rewrite)
    ensures |r.name| == |sFilename|
    ensures r.changed <==> ExtensionPosition(sFilename).Some?
    ensures !r.changed ==> r.name == sFilename
  {
    match ExtensionPosition(sFilename)
    case Some(p) => Rewrite(true, sFilename[..p] + PNG + sFilename[p + 4..])
    case None => Rewrite(false, sFilename)
  }

  /** A rewrite changes exactly one four-character window, which held ".tif" or
    * ".psd" in some mix of cases, into ".png", and keeps the rest of the name. */
  lemma RewriteSplicesPng(sFilename: CStr)
    requires ReplaceUnrecognizedInternalTextureFormats(sFilename).changed
    ensures var r := ReplaceUnrecognizedInternalTextureFormats(sFilename);
      var p := ExtensionPosition(sFilename).value;
      r.name[..p] == sFilename[..p] && r.name[p..p + 4] == PNG && r.name[p + 4..] == sFilename[p + 4..]
      && Lower(sFilename[p..p + 4]) in {TIF, PSD}
  {
    var p := ExtensionPosition(sFilename).value;
    var name := ReplaceUnrecognizedInternalTextureFormats(sFilename).name;
    assert name == sFilename[..p] + PNG + sFilename[p + 4..];
    assert name[..p] == sFilename[..p] && name[p..p + 4] == PNG && name[p + 4..] == sFilename[p + 4..];
    LowerSlice(sFilename, p, p + 4);
  }

  /** `Find` reports `p` when the pattern occurs there and nowhere before. */
  lemma FoundAt(s: CStr, pat: CStr, p: nat)
    requires OccursAt(s, pat, p)
    requires forall j :: 0 <= j < p ==> !OccursAt(s, pat, j)
    ensures Find(s, pat) == Some(p)
  {
  }

  lemma LowerKeepsDot(c: char8)
    ensures LowerChar(c) == '.' <==> c == '.'
  {
  }

  /** The rewrite at the first ".tif" of the lower-cased name. */
  lemma RewriteAtFirstTif(s: CStr, p: nat)
    requires p + 4 <= |s| && Lower(s[p..p + 4]) == TIF
    requires forall j :: 0 <= j < p ==> !OccursAt(Lower(s), TIF, j)
    ensures ReplaceUnrecognizedInternalTextureFormats(s) == Rewrite(true, s[..p] + PNG + s[p + 4..])
  {
    FirstTifPosition(s, p);
  }

  lemma FirstTifPosition(s: CStr, p: nat)
    requires p + 4 <= |s| && Lower(s[p..p + 4]) == TIF
    requires forall j :: 0 <= j < p ==> !OccursAt(Lower(s), TIF, j)
    ensures ExtensionPosition(s) == Some(p)
  {
    LowerSlice(s, p, p + 4);
    FoundAt(Lower(s), TIF, p);
  }

  lemma LowerSlice(s: CStr, i: nat, j: nat)
    requires i <= j <= |s|
    ensures Lower(s)[i..j] == Lower(s[i..j])
  {
    forall k | 0 <= k < j - i
      ensures Lower(s)[i..j][k] == Lower(s[i..j])[k]
    {
      assert s[i..j][k] == s[i + k];
    }
  }

  /** Replacing the four-element window of `stem + ext + rest` that starts at `|stem|`. */
  lemma Splice<T>(s: seq<T>, p: nat, stem: seq<T>, ext: seq<T>, rest: seq<T>, mid: seq<T>)
    requires s == stem + ext + rest && p == |stem| && |ext| == 4
    ensures s[..p] + mid + s[p + 4..] == stem + mid + rest
  {
    assert s[..p] == stem;
    assert s[p + 4..] == rest;
  }

  /** No ".tif" starts before `p` when no dot does. */
  lemma NoTifBeforeDot(s: CStr, p: nat)
    requires p <= |s|
    requires forall j :: 0 <= j < p ==> s[j] != '.'
    ensures forall j :: 0 <= j < p ==> !OccursAt(Lower(s), TIF, j)
  {
    forall j | 0 <= j < p
      ensures !OccursAt(Lower(s), TIF, j)
    {
      LowerKeepsDot(s[j]);
    }
  }

  /** The pieces of `stem + ext + rest` seen from index `|stem|`. */
  lemma PlainStemWindow(s: CStr, stem: CStr, ext: CStr, rest: CStr)
    requires s == stem + ext + rest && '.' !in stem && |ext| == 4
    ensures s[|stem|..|stem| + 4] == ext
    ensures forall j :: 0 <= j < |stem| ==> s[j] != '.'
  {
    assert forall j :: 0 <= j < |stem| ==> s[j] == stem[j];
  }

  lemma RewriteAfterDotFreeStem(s: CStr, p: nat)
    requires p + 4 <= |s| && Lower(s[p..p + 4]) == TIF
    requires forall j :: 0 <= j < p ==> s[j] != '.'
    ensures ReplaceUnrecognizedInternalTextureFormats(s) == Rewrite(true, s[..p] + PNG + s[p + 4..])
  {
    NoTifBeforeDot(s, p);
    FirstTifPosition(s, p);
  }

  /** The first ".tif", in any mix of cases, is replaced and the case of the rest
    * of the name is kept: "photo.TIFF" becomes "photo.pngF". */
  lemma TifReplacedCaseKept(stem: CStr, ext: CStr, rest: CStr)
    requires '.' !in stem && |ext| == 4 && Lower(ext) == TIF
    ensures ReplaceUnrecognizedInternalTextureFormats(stem + ext + rest)
      == Rewrite(true, stem + PNG + rest)
  {
    var s := stem + ext + rest;
    PlainStemWindow(s, stem, ext, rest);
    RewriteAfterDotFreeStem(s, |stem|);
    Splice(s, |stem|, stem, ext, rest, PNG);
  }
}
