/**
 * The `.stu` container: a 10-byte file header (magic "STU", version "0.1",
 * big-endian payload size) followed by chunks, each a 32-byte chunk header
 * (leader "$$", a 19-byte zero-padded name, a zero byte, the big-endian data
 * size, two padding bytes, the 32-bit name hash in host order) and the data.
 *
 * The byte images here are the specification; the classes further down model
 * `STU_HEADER`, `STU_FILE_HEADER`, `STU_CHUNK` and `CFileExportSTUFormat`, whose
 * methods are proved to produce exactly these images.
 */
module StuFormat {
  import opened Wrappers
  import opened CText
  import opened StuText

  /** `sizeof(STU_HEADER)`: 2 + 19 + 1 + 4 bytes, 2 bytes of padding, a 4-byte hash. */
  const CHUNK_HEADER_SIZE: nat := 32
  /** `sizeof(STU_FILE_HEADER)`. */
  const FILE_HEADER_SIZE: nat := 10
  /** Length of `STU_HEADER::Name`. */
  const NAME_FIELD_SIZE: nat := 19

  const LEADER: seq<byte> := [36, 36]
  const MAGIC: seq<byte> := [83, 84, 85]
  const VERSION: seq<byte> := [48, 46, 49]

  function Zeros(n: nat): (r: seq<byte>)
    ensures |r| == n && forall i :: 0 <= i < n ==> r[i] == 0
  {
    seq(n, _ => 0)
  }

  function NulChars(n: nat): (r: CStr)
    ensures |r| == n && forall i :: 0 <= i < n ==> r[i] == NUL
  {
    seq(n, _ => NUL)
  }

  // ---------------------------------------------------------------------------
  // Size fields

  /** The four big-endian bytes of a 32-bit value. */
  function BigEndian32(v: u32): (b: seq<byte>)
    ensures |b| == 4
  {
    [v / 0x100_0000, (v / 0x1_0000) % 256, (v / 0x100) % 256, v % 256]
  }

  /** The reader's `(b0 << 24) | (b1 << 16) | (b2 << 8) | b3`; the shifted bytes do not overlap, so `|` is `+`. */
  function FromBigEndian32(b: seq<byte>): u32
    requires |b| == 4
  {
    b[0] as int * 0x100_0000 + b[1] as int * 0x1_0000 + b[2] as int * 0x100 + b[3]
  }

  lemma BigEndianRoundTrip(v: u32)
    ensures FromBigEndian32(BigEndian32(v)) == v
  {
    var b := BigEndian32(v);
    assert v == (v / 0x100) * 0x100 + v % 0x100;
    assert v / 0x100 == (v / 0x1_0000) * 0x100 + (v / 0x100) % 0x100;
    assert v / 0x1_0000 == (v / 0x100_0000) * 0x100 + (v / 0x1_0000) % 0x100;
  }

  lemma BigEndianDecodeRoundTrip(b: seq<byte>)
    requires |b| == 4
    ensures BigEndian32(FromBigEndian32(b)) == b
  {
    var v := FromBigEndian32(b);
    ModUnique(v, 0x100, b[0] as int * 0x1_0000 + b[1] as int * 0x100 + b[2], b[3]);
    ModUnique(v / 0x100, 0x100, b[0] as int * 0x100 + b[1], b[2]);
    ModUnique(v / 0x1_0000, 0x100, b[0], b[1]);
    assert v / 0x1_0000 == (v / 0x100) / 0x100;
    assert v / 0x100_0000 == (v / 0x1_0000) / 0x100;
  }

  /** `NameHash` as it sits in memory on a little-endian host. */
  function LittleEndian32(v: u32): (b: seq<byte>)
    ensures |b| == 4
  {
    [v % 256, (v / 0x100) % 256, (v / 0x1_0000) % 256, v / 0x100_0000]
  }

  /** Subtracting a multiple of `k` and wrapping to 32 bits leaves the value modulo `k` alone. */
  lemma LowPartSurvives(r: int, b: int, k: int)
    requires k == 0x100 || k == 0x1_0000
    ensures ((r - b * k) % U32_LIMIT) % k == r % k
  {
    ModOfMod(r - b * k, k, U32_LIMIT / k);
    ModAddMultiple(r, -b, k);
  }

  /** Byte 1 of a 16-bit window: `(x >> 8) & 0xff` depends only on `x mod 2^16`. */
  lemma SecondByte(x: int)
    requires x >= 0
    ensures (x / 0x100) % 0x100 == (x % 0x1_0000) / 0x100
  {
    var q, r := x / 0x1_0000, x % 0x1_0000;
    ModUnique(x, 0x100, q * 0x100 + r / 0x100, r % 0x100);
    ModUnique(x / 0x100, 0x100, q, r / 0x100);
  }

  lemma TopRemainder(u: u32)
    ensures (u - (u / 0x100_0000) * 0x100_0000) % U32_LIMIT == u % 0x100_0000
    ensures ((u % 0x100_0000) / 0x1_0000) % 0x100 == (u / 0x1_0000) % 0x100
  {
    var q, r := u / 0x1_0000, u % 0x1_0000;
    ModUnique(u, 0x100_0000, u / 0x100_0000, u % 0x100_0000);
    ModUnique(u % 0x100_0000, 0x1_0000, (u / 0x1_0000) % 0x100, r);
  }

  /**
   * The size bytes as the exporter stores them: the remainder arithmetic keeps
   * subtracting the top byte (shifted by 24, 16 and 8), and each store truncates
   * to `unsigned char`; the bytes that land are the big-endian bytes.
   */
  method StoreSizeInfo(info: array<byte>, uUsed: u32)
    requires info.Length == 4
    modifies info
    ensures info[..] == BigEndian32(uUsed)
  {
    var top: byte := uUsed / 0x100_0000;
    var uRemainder := (uUsed - top * 0x100_0000) % U32_LIMIT;
    TopRemainder(uUsed);
    var second: byte := (uRemainder / 0x1_0000) % 256;
    ghost var r1 := uRemainder;
    uRemainder := (uRemainder - top * 0x1_0000) % U32_LIMIT;
    LowPartSurvives(r1, top, 0x1_0000);
    ModOfMod(uUsed, 0x1_0000, 0x100);
    SecondByte(uRemainder);
    SecondByte(uUsed);
    var third: byte := (uRemainder / 0x100) % 256;
    ghost var r2 := uRemainder;
    uRemainder := (uRemainder - top * 0x100) % U32_LIMIT;
    LowPartSurvives(r2, top, 0x100);
    ModOfMod(r2, 0x100, 0x100);
    ModOfMod(uUsed, 0x100, 0x100);
    var fourth: byte := uRemainder % 256;
    info[0], info[1], info[2], info[3] := top, second, third, fourth;
  }

  // ---------------------------------------------------------------------------
  // Byte images

  /** What `strncpy(Name, sName.c_str(), 19)` leaves in the name field. */
  function NameField(s: CStr): (r: CStr)
    ensures |r| == NAME_FIELD_SIZE
  {
    var t := CView(s);
    var k := Min(|t|, NAME_FIELD_SIZE);
    t[..k] + NulChars(NAME_FIELD_SIZE - k)
  }

  /** The chunk name as a reader sees it: at most 19 characters of the C string. */
  function TruncatedName(s: CStr): CStr
  {
    CView(s)[..Min(|CView(s)|, NAME_FIELD_SIZE)]
  }

  /**
   * Read as a C string, the name field followed by the `Zero` byte is the
   * truncated name: the `Zero` byte terminates a name that fills all 19 bytes.
   */
  lemma NameFieldTerminated(s: CStr)
    ensures CView(NameField(s) + [NUL]) == TruncatedName(s)
    ensures |CView(s)| <= NAME_FIELD_SIZE ==> TruncatedName(s) == CView(s)
  {
    var t := CView(s);
    var k := Min(|t|, NAME_FIELD_SIZE);
    var f := NameField(s) + [NUL];
    assert f[..k] == t[..k];
    assert NUL !in f[..k];
    CViewOfPrefix(f, k);
  }

  /** The 32 bytes of a chunk header for a chunk `name` holding `size` data bytes. */
  function ChunkHeaderImage(name: CStr, size: u32): (b: seq<byte>)
    ensures |b| == CHUNK_HEADER_SIZE
  {
    LEADER + Bytes(NameField(name)) + [0] + BigEndian32(size) + [0, 0]
    + LittleEndian32(HashText(TruncatedName(name)))
  }

  /** Header then data: the bytes one chunk occupies in the file. */
  function ChunkImage(name: CStr, data: seq<byte>): (b: seq<byte>)
    requires |data| < U32_LIMIT
    ensures |b| == CHUNK_HEADER_SIZE + |data|
  {
    ChunkHeaderImage(name, |data|) + data
  }

  function FileHeaderImage(size: u32): (b: seq<byte>)
    ensures |b| == FILE_HEADER_SIZE
  {
    MAGIC + VERSION + BigEndian32(size)
  }

  /**
   * A chunk header reads back field by field: leader "$$", the zero-padded
   * name, the zero byte, the size, two zero padding bytes and the hash of the
   * truncated name.
   */
  lemma ChunkHeaderFields(name: CStr, size: u32)
    ensures var b := ChunkHeaderImage(name, size);
      && b[..2] == LEADER
      && b[2..21] == Bytes(NameField(name))
      && b[21] == 0
      && FromBigEndian32(b[22..26]) == size
      && b[26..28] == [0, 0]
      && b[28..] == LittleEndian32(NameHash(TruncatedName(name)))
  {
    var b := ChunkHeaderImage(name, size);
    assert b[22..26] == BigEndian32(size);
    BigEndianRoundTrip(size);
    assert NUL !in TruncatedName(name);
    CViewOfPlainText(TruncatedName(name));
  }

  // ---------------------------------------------------------------------------
  // Incremental mode: AppendChunkToFile

  /** Writing `b` at offset `off` of a file: bytes before and after stay, the file grows if needed. */
  function Overwrite(f: seq<byte>, off: nat, b: seq<byte>): seq<byte>
    requires off <= |f|
  {
    f[..off] + b + (if off + |b| < |f| then f[off + |b|..] else [])
  }

  lemma ModAtMost(x: nat, m: nat)
    requires m > 0
    ensures x % m <= x
  {
  }

  lemma OverwriteFront(f: seq<byte>, h: seq<byte>)
    requires |h| <= |f|
    ensures Overwrite(f, 0, h) == h + f[|h|..]
  {
    if |h| == |f| {
      assert f[|h|..] == [];
    }
  }

  lemma OverwriteAtEnd(f: seq<byte>, c: seq<byte>)
    ensures Overwrite(f, |f|, c) == f + c
  {
    assert f[..|f|] == f;
  }

  /** The stored payload size of a file of at least 10 bytes. */
  function StoredSize(f: seq<byte>): u32
    requires |f| >= FILE_HEADER_SIZE
  {
    FromBigEndian32(f[6..10])
  }

  /**
   * The checks an existing file must pass before a chunk is appended: a full
   * 10-byte header, the magic, the version, and a stored size equal to the
   * length `ftell` reports (truncated to 32 bits) minus the header.
   */
  predicate AcceptsExisting(f: seq<byte>)
  {
    && |f| >= FILE_HEADER_SIZE
    && f[..3] == MAGIC
    && f[3..6] == VERSION
    && |f| % U32_LIMIT >= FILE_HEADER_SIZE
    && StoredSize(f) == |f| % U32_LIMIT - FILE_HEADER_SIZE
  }

  /**
   * The file after a chunk image (header and data) is appended: the file header
   * is rewritten with the grown size at offset 0, and the chunk is written at the
   * offset `ftell` reported, which is 10 for a missing file.
   */
  function AppendImage(existing: Option<seq<byte>>, chunk: seq<byte>): (r: Option<seq<byte>>)
    ensures r.None? <==> existing.Some? && !AcceptsExisting(existing.value)
  {
    match existing
    case None =>
      var header := FileHeaderImage((0 + |chunk|) % U32_LIMIT);
      Some(Overwrite(Overwrite([], 0, header), FILE_HEADER_SIZE, chunk))
    case Some(f) =>
      if !AcceptsExisting(f) then None
      else
        var header := FileHeaderImage((StoredSize(f) + |chunk|) % U32_LIMIT);
        Some(Overwrite(Overwrite(f, 0, header), |f| % U32_LIMIT, chunk))
  }

  /**
   * The file after `AppendChunkToFile(path, name, data, |data|)`, or `None` when
   * the call returns false before writing: empty data, or an existing file that
   * fails the checks.
   */
  function AppendedFile(existing: Option<seq<byte>>, name: CStr, data: seq<byte>): (r: Option<seq<byte>>)
    requires |data| < U32_LIMIT
    ensures r.None? <==> |data| == 0 || (existing.Some? && !AcceptsExisting(existing.value))
  {
    if |data| == 0 then None else AppendImage(existing, ChunkImage(name, data))
  }

  /** The two writes `AppendChunkToFile` makes, from the values its checks read. */
  lemma AppendWrites(existing: Option<seq<byte>>, stored: u32, nRealSize: u32, header: seq<byte>, chunk: seq<byte>)
    requires existing.None? ==> stored == 0 && nRealSize == FILE_HEADER_SIZE
    requires existing.Some? ==>
      AcceptsExisting(existing.value) && stored == StoredSize(existing.value)
      && nRealSize == |existing.value| % U32_LIMIT
    requires header == FileHeaderImage((stored + |chunk|) % U32_LIMIT)
    ensures nRealSize <= |Overwrite(existing.GetOr([]), 0, header)|
    ensures AppendImage(existing, chunk)
         == Some(Overwrite(Overwrite(existing.GetOr([]), 0, header), nRealSize, chunk))
  {
    if existing.Some? {
      OverwriteFront(existing.value, header);
      ModAtMost(|existing.value|, U32_LIMIT);
    }
  }

  /** A container whose stored size is its length minus the file header. */
  predicate WellFormed(f: seq<byte>)
  {
    |f| < U32_LIMIT && AcceptsExisting(f)
  }

  /** Appending to a missing file gives the file header and the one chunk. */
  lemma AppendToMissing(chunk: seq<byte>)
    requires |chunk| < U32_LIMIT - FILE_HEADER_SIZE
    ensures AppendImage(None, chunk) == Some(FileHeaderImage(|chunk|) + chunk)
    ensures WellFormed(AppendImage(None, chunk).value)
  {
    var h := FileHeaderImage(|chunk|);
    var f := h + chunk;
    assert (0 + |chunk|) % U32_LIMIT == |chunk|;
    OverwriteAtEnd([], h);
    assert [] + h == h;
    OverwriteAtEnd(h, chunk);
    assert f[..3] == MAGIC && f[3..6] == VERSION;
    assert f[6..10] == BigEndian32(|chunk|);
    BigEndianRoundTrip(|chunk|);
  }

  lemma AppendExistingEquation(f: seq<byte>, chunk: seq<byte>)
    requires WellFormed(f)
    ensures AppendImage(Some(f), chunk)
         == Some(FileHeaderImage((StoredSize(f) + |chunk|) % U32_LIMIT) + f[FILE_HEADER_SIZE..] + chunk)
  {
    var h := FileHeaderImage((StoredSize(f) + |chunk|) % U32_LIMIT);
    OverwriteFront(f, h);
    OverwriteAtEnd(h + f[FILE_HEADER_SIZE..], chunk);
  }

  /**
   * Appending to a file shorter than 4 GiB that passes the checks: the header
   * size grows by the chunk length (32 plus the data length, modulo 2^32), the
   * old chunk bytes are untouched, and the new chunk sits at the old end of
   * file, so the stored size still equals the length minus 10 (modulo 2^32).
   */
  lemma AppendToExisting(f: seq<byte>, chunk: seq<byte>)
    requires WellFormed(f)
    ensures var g := AppendImage(Some(f), chunk);
      && g.Some?
      && g.value == FileHeaderImage((StoredSize(f) + |chunk|) % U32_LIMIT) + f[FILE_HEADER_SIZE..] + chunk
      && |g.value| == |f| + |chunk|
      && g.value[..6] == f[..6]
      && g.value[FILE_HEADER_SIZE..|f|] == f[FILE_HEADER_SIZE..]
      && g.value[|f|..] == chunk
      && StoredSize(g.value) == (|g.value| - FILE_HEADER_SIZE) % U32_LIMIT
  {
    var size := (StoredSize(f) + |chunk|) % U32_LIMIT;
    AppendExistingEquation(f, chunk);
    var g := FileHeaderImage(size) + f[FILE_HEADER_SIZE..] + chunk;
    assert g[6..10] == BigEndian32(size);
    BigEndianRoundTrip(size);
    assert |g| - FILE_HEADER_SIZE == StoredSize(f) + |chunk|;
  }

  /** A well-formed container stays well-formed while it fits in 32 bits. */
  lemma AppendKeepsWellFormed(f: seq<byte>, chunk: seq<byte>)
    requires WellFormed(f) && |f| + |chunk| < U32_LIMIT
    ensures AppendImage(Some(f), chunk).Some?
    ensures WellFormed(AppendImage(Some(f), chunk).value)
  {
    var size := (StoredSize(f) + |chunk|) % U32_LIMIT;
    AppendExistingEquation(f, chunk);
    var tail := f[FILE_HEADER_SIZE..] + chunk;
    AppendAssoc(FileHeaderImage(size), f[FILE_HEADER_SIZE..], chunk);
    assert size == |tail|;
    HeaderOverTail(tail);
  }

  /** The file header followed by `tail`, whose length it stores, is well-formed. */
  lemma HeaderOverTail(tail: seq<byte>)
    requires |tail| + FILE_HEADER_SIZE < U32_LIMIT
    ensures WellFormed(FileHeaderImage(|tail|) + tail)
    ensures StoredSize(FileHeaderImage(|tail|) + tail) == |tail|
  {
    var f := FileHeaderImage(|tail|) + tail;
    assert f[..3] == MAGIC && f[3..6] == VERSION && f[6..10] == BigEndian32(|tail|);
    BigEndianRoundTrip(|tail|);
  }

  // ---------------------------------------------------------------------------
  // Bulk mode image, and its agreement with repeated appends

  function Concat(images: seq<seq<byte>>): (r: seq<byte>)
  {
    if images == [] then [] else Concat(images[..|images| - 1]) + images[|images| - 1]
  }

  /** What `ExportFile` writes: the file header with the summed size, then every chunk in order. */
  function BulkImage(images: seq<seq<byte>>): seq<byte>
  {
    FileHeaderImage(|Concat(images)| % U32_LIMIT) + Concat(images)
  }

  /** Appending chunk images one after another; a refused append leaves the file as it was. */
  function AppendAll(existing: Option<seq<byte>>, images: seq<seq<byte>>): Option<seq<byte>>
  {
    if images == [] then existing
    else
      var before := AppendAll(existing, images[..|images| - 1]);
      match AppendImage(before, images[|images| - 1])
      case Some(g) => Some(g)
      case None => before
  }

  lemma BulkWellFormed(images: seq<seq<byte>>)
    requires |Concat(images)| + FILE_HEADER_SIZE < U32_LIMIT
    ensures WellFormed(BulkImage(images))
    ensures StoredSize(BulkImage(images)) == |Concat(images)|
  {
    var c := Concat(images);
    assert |c| % U32_LIMIT == |c|;
    assert BulkImage(images) == FileHeaderImage(|c|) + c;
    HeaderOverTail(c);
  }

  /**
   * Both write modes give the same file: appending chunk images one by one to a
   * missing file yields exactly what the bulk export of the same chunks writes,
   * as long as the container stays below 4 GiB.
   */
  lemma {:induction false} AppendsMatchBulk(images: seq<seq<byte>>)
    requires |Concat(images)| + FILE_HEADER_SIZE < U32_LIMIT
    ensures AppendAll(None, images) == if images == [] then None else Some(BulkImage(images))
  {
    if images != [] {
      var prefix, last := images[..|images| - 1], images[|images| - 1];
      assert images == prefix + [last];
      ConcatSnoc(prefix, last);
      AppendsMatchBulk(prefix);
      if prefix == [] {
        AppendToMissing(last);
        assert Concat(images) == last;
      } else {
        BulkPlusOne(prefix, last);
      }
    }
  }

  lemma ConcatSnoc(prefix: seq<seq<byte>>, last: seq<byte>)
    ensures Concat(prefix + [last]) == Concat(prefix) + last
  {
    assert (prefix + [last])[..|prefix|] == prefix;
  }

  lemma BulkPlusOne(prefix: seq<seq<byte>>, last: seq<byte>)
    requires |Concat(prefix)| + |last| + FILE_HEADER_SIZE < U32_LIMIT
    ensures AppendImage(Some(BulkImage(prefix)), last) == Some(BulkImage(prefix + [last]))
  {
    var c := Concat(prefix);
    var b := BulkImage(prefix);
    BulkWellFormed(prefix);
    BulkSplit(prefix);
    DropPrefix(FileHeaderImage(|c|), c);
    AppendExistingSmall(b, last);
    ConcatSnoc(prefix, last);
    BulkSplit(prefix + [last]);
    AppendAssoc(FileHeaderImage(|c| + |last|), c, last);
  }

  /** Below 4 GiB the stored size of a bulk image is the plain total length. */
  lemma BulkSplit(images: seq<seq<byte>>)
    requires |Concat(images)| < U32_LIMIT
    ensures BulkImage(images) == FileHeaderImage(|Concat(images)|) + Concat(images)
  {
    var n := |Concat(images)|;
    assert n % U32_LIMIT == n;
  }

  lemma AppendExistingSmall(f: seq<byte>, chunk: seq<byte>)
    requires WellFormed(f) && StoredSize(f) + |chunk| < U32_LIMIT
    ensures AppendImage(Some(f), chunk) == Some(FileHeaderImage(StoredSize(f) + |chunk|) + f[FILE_HEADER_SIZE..] + chunk)
  {
    AppendExistingEquation(f, chunk);
    var n := StoredSize(f) + |chunk|;
    assert n % U32_LIMIT == n;
  }

  lemma DropPrefix<T>(a: seq<T>, b: seq<T>)
    ensures (a + b)[|a|..] == b
  {
  }

  // ---------------------------------------------------------------------------
  // The structs and the exporter

  /** The files the exporter reads and writes; paths in `unwritable` cannot be opened for writing. */
  class FileSystem {
    var files: map<CStr, seq<byte>>
    const unwritable: set<CStr>

    constructor (files0: map<CStr, seq<byte>>, unwritable0: set<CStr>)
      ensures files == files0 && unwritable == unwritable0
    {
      files := files0;
      unwritable := unwritable0;
    }
  }

  /** `STU_FILE_HEADER`. */
  class FileHeader {
    const Magic: array<byte>
    const Version: array<byte>
    const FileSizeInfo: array<byte>

    ghost predicate Valid()
      reads this
    {
      && Magic.Length == 3 && Version.Length == 3 && FileSizeInfo.Length == 4
      && Magic != Version && Magic != FileSizeInfo && Version != FileSizeInfo
    }

    /** The 10 bytes `fwrite` emits for the struct. */
    function Image(): (b: seq<byte>)
      reads this, Magic, Version, FileSizeInfo
      requires Valid()
      ensures |b| == FILE_HEADER_SIZE
    {
      Magic[..] + Version[..] + FileSizeInfo[..]
    }

    /** The constructor sets magic and version; the size bytes are left for the caller. */
    constructor ()
      ensures Valid() && fresh(Magic) && fresh(Version) && fresh(FileSizeInfo)
      ensures Magic[..] == MAGIC && Version[..] == VERSION
    {
      Magic := new byte[3] [83, 84, 85];
      Version := new byte[3] [48, 46, 49];
      FileSizeInfo := new byte[4];
    }

    /** `fread` of the struct from the start of a file. */
    method Load(f: seq<byte>)
      requires Valid() && |f| >= FILE_HEADER_SIZE
      modifies Magic, Version, FileSizeInfo
      ensures Image() == f[..FILE_HEADER_SIZE]
    {
      Magic[0], Magic[1], Magic[2] := f[0], f[1], f[2];
      Version[0], Version[1], Version[2] := f[3], f[4], f[5];
      FileSizeInfo[0], FileSizeInfo[1], FileSizeInfo[2], FileSizeInfo[3] := f[6], f[7], f[8], f[9];
    }
  }

  /** `STU_HEADER`. */
  class ChunkHeader {
    const Leader: array<byte>
    const Name: array<char8>
    var Zero: char8
    const ChunkSizeInfo: array<byte>
    var NameHash: u32

    ghost predicate Valid()
      reads this
    {
      Leader.Length == 2 && Name.Length == NAME_FIELD_SIZE && ChunkSizeInfo.Length == 4
      && Leader != ChunkSizeInfo
    }

    /**
     * The 32 bytes `fwrite` emits for the struct: the two padding bytes before
     * `NameHash` keep the zero of the constructor's `memset`, and `NameHash` is
     * stored little-endian.
     */
    function Image(): (b: seq<byte>)
      reads this, Leader, Name, ChunkSizeInfo
      requires Valid()
      ensures |b| == CHUNK_HEADER_SIZE
    {
      Leader[..] + Bytes(Name[..]) + [ByteOf(Zero)] + ChunkSizeInfo[..] + [0, 0] + LittleEndian32(NameHash)
    }

    /** A fresh header is all zero bytes except the "$$" leader. */
    constructor ()
      ensures Valid() && fresh(Leader) && fresh(Name) && fresh(ChunkSizeInfo)
      ensures Image() == LEADER + Zeros(CHUNK_HEADER_SIZE - 2)
      ensures Zero == NUL
    {
      Leader := new byte[2] [36, 36];
      Name := new char8[NAME_FIELD_SIZE] (_ => NUL);
      Zero := NUL;
      ChunkSizeInfo := new byte[4] [0, 0, 0, 0];
      NameHash := 0;
      new;
      assert Bytes(Name[..]) == Zeros(NAME_FIELD_SIZE);
      assert LittleEndian32(0) == [0, 0, 0, 0];
      assert Image() == LEADER + Zeros(NAME_FIELD_SIZE) + [0] + [0, 0, 0, 0] + [0, 0] + [0, 0, 0, 0];
    }

    /** `strncpy(Name, s.c_str(), 19)`: copy up to the NUL or 19 characters, pad with NULs. */
    method CopyName(s: CStr)
      requires Valid()
      modifies Name
      ensures Name[..] == NameField(s)
    {
      var i := 0;
      while i < NAME_FIELD_SIZE && i < |s| && s[i] != NUL
        invariant 0 <= i <= NAME_FIELD_SIZE && i <= |s|
        invariant NUL !in s[..i]
        invariant Name[..i] == s[..i]
      {
        Name[i] := s[i];
        i := i + 1;
      }
      ghost var copied := i;
      while i < NAME_FIELD_SIZE
        invariant copied <= i <= NAME_FIELD_SIZE
        invariant Name[..copied] == s[..copied]
        invariant forall j :: copied <= j < i ==> Name[j] == NUL
      {
        Name[i] := NUL;
        i := i + 1;
      }
      var t := CView(s);
      if copied < NAME_FIELD_SIZE {
        CViewOfPrefix(s, copied);
      } else {
        CViewPrefixAgrees(s, copied);
      }
      assert Name[..] == t[..Min(|t|, NAME_FIELD_SIZE)] + NulChars(NAME_FIELD_SIZE - Min(|t|, NAME_FIELD_SIZE));
    }

    /**
     * Name, hash and size as `AppendChunkToFile` and `WriteChunk` fill them in:
     * the hash is taken of the name field read as a C string (the `Zero` byte
     * ends a 19-character name).
     */
    method Fill(sName: CStr, uLength: u32)
      requires Valid() && Zero == NUL
      requires Leader[..] == LEADER
      modifies this`NameHash, Name, ChunkSizeInfo
      ensures Image() == ChunkHeaderImage(sName, uLength)
    {
      CopyName(sName);
      var h := MakeHashFromName(Name[..] + [Zero]);
      NameHash := h;
      StoreSizeInfo(ChunkSizeInfo, uLength);
      NameFieldTerminated(sName);
      assert NUL !in TruncatedName(sName);
      CViewOfPlainText(TruncatedName(sName));
    }
  }

  /** `STU_CHUNK`: a header and the data bytes; `m_uAllocation` is what `GetDataSize` reports. */
  class StuChunk {
    const Header: ChunkHeader
    var Data: seq<byte>
    var Allocation: u32

    ghost predicate Valid()
      reads this, Header
    {
      Header.Valid()
    }

    /** The objects a chunk owns. */
    ghost function Footprint(): set<object>
    {
      {this, Header, Header.Leader, Header.Name, Header.ChunkSizeInfo}
    }

    /** A buffered chunk: a well-formed header and an allocation equal to the data size. */
    ghost predicate Sound()
      reads Footprint()
    {
      Valid() && Allocation == |Data|
    }

    /** The bytes the chunk writes: the header struct, then `GetDataSize()` data bytes. */
    ghost function Written(): seq<byte>
      reads Footprint()
      requires Sound()
    {
      Header.Image() + Data
    }

    /** A new chunk: a fresh header and no data (`m_uAllocation` is not set by the constructor). */
    constructor ()
      ensures Valid() && fresh(Header) && fresh(Header.Leader) && fresh(Header.Name) && fresh(Header.ChunkSizeInfo)
      ensures Header.Leader[..] == LEADER && Header.Zero == NUL
      ensures Data == []
    {
      Header := new ChunkHeader();
      Data := [];
      new;
      assert Header.Leader[..] == Header.Image()[..2];
    }

    /** `std::vector::resize`: keeps a prefix, pads with value-initialised (zero) bytes. */
    static function Resized(d: seq<byte>, n: nat): (r: seq<byte>)
      ensures |r| == n
      ensures forall i :: 0 <= i < n ==> r[i] == if i < |d| then d[i] else 0
    {
      if n <= |d| then d[..n] else d + Zeros(n - |d|)
    }

    /**
     * `AllocateForData(n)`: the data is resized to `n` bytes and the allocation
     * records `n`; a `resize` either yields `n` bytes or throws, so the
     * function's `false` branch is never taken.
     */
    method AllocateForData(nSize: u32) returns (ok: bool)
      modifies this`Data, this`Allocation
      ensures Data == Resized(old(Data), nSize)
      ensures ok && |Data| == nSize && Allocation == nSize
    {
      Data := Resized(Data, nSize);
      Allocation := nSize;
      ok := true;
    }

    /** `SetData(p, n)`: the data becomes the `n` input bytes and `GetDataSize()` reports `n`. */
    method SetData(pData: seq<byte>, uLen: u32)
      requires uLen <= |pData|
      modifies this`Data, this`Allocation
      ensures Data == pData[..uLen]
      ensures GetDataSize() == uLen
    {
      Data := Resized(Data, uLen);
      Allocation := uLen;
      Data := pData[..uLen];
    }

    function GetDataSize(): u32
      reads this
    {
      Allocation
    }
  }

  /** `CFileExportSTUFormat`: the buffered chunks of bulk mode, and both write modes. */
  class StuExporter {
    var Buffer: seq<StuChunk>
    /** The bytes each buffered chunk writes, in buffer order. */
    ghost var Images: seq<seq<byte>>
    ghost var Repr: set<object>

    ghost predicate Valid()
      reads this, Repr
    {
      && this in Repr
      && |Images| == |Buffer|
      && (forall i :: 0 <= i < |Buffer| ==>
            && Buffer[i].Footprint() <= Repr
            && Buffer[i].Sound()
            && Images[i] == Buffer[i].Written())
    }

    constructor ()
      ensures Valid() && fresh(Repr) && Buffer == [] && Images == []
    {
      Buffer := [];
      Images := [];
      Repr := {this};
    }

    /**
     * The chunk `WriteChunk` builds: header filled from the name and length, data
     * allocated and copied.
     */
    static method NewChunk(sName: CStr, pData: seq<byte>, uLength: u32) returns (chunk: StuChunk)
      requires uLength <= |pData|
      ensures fresh(chunk.Footprint()) && chunk.Sound()
      ensures chunk.Written() == ChunkImage(sName, pData[..uLength])
    {
      chunk := new StuChunk();
      chunk.Header.Fill(sName, uLength);
      var _ := chunk.AllocateForData(uLength);
      chunk.SetData(pData, uLength);
    }

    /** The chunk `AppendChunkToFile` allocates: only its header is filled in. */
    static method NewHeaderOnlyChunk(sName: CStr, uLength: u32) returns (chunk: StuChunk)
      ensures fresh(chunk.Footprint()) && chunk.Valid()
      ensures chunk.Header.Image() == ChunkHeaderImage(sName, uLength)
    {
      chunk := new StuChunk();
      chunk.Header.Fill(sName, uLength);
    }

    /**
     * `WriteChunk`: always succeeds (there is no empty-data check) and adds the
     * chunk behind the ones already buffered.
     */
    method WriteChunk(sName: CStr, pData: seq<byte>, uLength: u32) returns (ok: bool)
      requires Valid() && uLength <= |pData|
      modifies this
      ensures Valid() && fresh(Repr - old(Repr))
      ensures ok
      ensures |Buffer| == |old(Buffer)| + 1 && Buffer[..|old(Buffer)|] == old(Buffer)
      ensures Images == old(Images) + [ChunkImage(sName, pData[..uLength])]
    {
      var chunk := NewChunk(sName, pData, uLength);
      Buffer := Buffer + [chunk];
      Images := Images + [chunk.Written()];
      Repr := Repr + chunk.Footprint();
      ok := true;
    }

    /** The size loop of `ExportFile`: header plus data size of every chunk, in 32 bits. */
    method TotalSize() returns (uSize: u32)
      requires Valid()
      ensures uSize == |Concat(Images)| % U32_LIMIT
    {
      uSize := 0;
      var i := 0;
      while i < |Buffer|
        invariant 0 <= i <= |Buffer|
        invariant uSize == |Concat(Images[..i])| % U32_LIMIT
      {
        assert Images[..i + 1][..i] == Images[..i];
        ghost var before := |Concat(Images[..i])|;
        ModSum(before, CHUNK_HEADER_SIZE, U32_LIMIT);
        uSize := (uSize + CHUNK_HEADER_SIZE) % U32_LIMIT;
        ModSum(before + CHUNK_HEADER_SIZE, Buffer[i].GetDataSize(), U32_LIMIT);
        uSize := (uSize + Buffer[i].GetDataSize()) % U32_LIMIT;
        i := i + 1;
      }
      assert Images[..|Buffer|] == Images;
    }

    /** The write loop of `ExportFile`: each chunk's header, then its data, in buffer order. */
    method Serialize() returns (out: seq<byte>)
      requires Valid()
      ensures out == Concat(Images)
    {
      out := [];
      var i := 0;
      while i < |Buffer|
        invariant 0 <= i <= |Buffer|
        invariant out == Concat(Images[..i])
      {
        assert Images[..i + 1][..i] == Images[..i];
        assert Buffer[i].Data[..Buffer[i].GetDataSize()] == Buffer[i].Data;
        out := out + Buffer[i].Header.Image() + Buffer[i].Data[..Buffer[i].GetDataSize()];
        i := i + 1;
      }
      assert Images[..|Buffer|] == Images;
    }

    /**
     * `ExportFile`: refuses a zero total size, and otherwise writes the file
     * header and every buffered chunk.
     */
    method ExportFile(fs: FileSystem, path: CStr) returns (ok: bool)
      requires Valid()
      modifies fs
      ensures ok == (|Concat(Images)| % U32_LIMIT != 0 && path !in fs.unwritable)
      ensures fs.files == if ok then old(fs.files)[path := BulkImage(Images)] else old(fs.files)
    {
      var uSize := TotalSize();
      if uSize == 0 {
        return false;
      }
      var header := new FileHeader();
      StoreSizeInfo(header.FileSizeInfo, uSize);
      if path in fs.unwritable {
        return false;
      }
      var body := Serialize();
      fs.files := fs.files[path := header.Image() + body];
      ok := true;
    }

    /**
     * The reading half of `AppendChunkToFile` for a file that exists: the header
     * must read fully, carry the magic and version, and record a size equal to
     * the file length (as `ftell` reports it in 32 bits) less the file header.
     */
    static method ReadExisting(f: seq<byte>) returns (header: FileHeader, accepted: bool, uSize: u32, nRealSize: u32)
      ensures fresh(header) && fresh(header.Magic) && fresh(header.Version) && fresh(header.FileSizeInfo)
      ensures header.Valid()
      ensures accepted == AcceptsExisting(f)
      ensures accepted ==> uSize == StoredSize(f) && nRealSize == |f| % U32_LIMIT
      ensures accepted ==> header.Image() == f[..FILE_HEADER_SIZE]
      ensures accepted ==> header.Magic[..] == MAGIC && header.Version[..] == VERSION
    {
      header := new FileHeader();
      uSize, nRealSize := 0, 0;
      if |f| < FILE_HEADER_SIZE {
        return header, false, uSize, nRealSize;
      }
      header.Load(f);
      assert header.Magic[..] == f[..3] && header.Version[..] == f[3..6];
      assert header.FileSizeInfo[..] == f[6..10];
      if header.Magic[0] != MAGIC[0] || header.Magic[1] != MAGIC[1] || header.Magic[2] != MAGIC[2] {
        return header, false, uSize, nRealSize;
      }
      if header.Version[0] != VERSION[0] || header.Version[1] != VERSION[1] || header.Version[2] != VERSION[2] {
        return header, false, uSize, nRealSize;
      }
      uSize := FromBigEndian32(header.FileSizeInfo[..]);
      nRealSize := |f| % U32_LIMIT;
      accepted := nRealSize >= FILE_HEADER_SIZE && uSize == nRealSize - FILE_HEADER_SIZE;
      assert header.Magic[..] == MAGIC && header.Version[..] == VERSION;
    }

    /** The first half of `AppendChunkToFile`: the header and sizes it starts from. */
    static method OpenForAppend(fs: FileSystem, path: CStr)
      returns (existing: Option<seq<byte>>, fileHeader: FileHeader, accepted: bool, uSize: u32, nRealSize: u32)
      ensures existing == if path in fs.files then Some(fs.files[path]) else None
      ensures fresh(fileHeader) && fresh(fileHeader.Magic) && fresh(fileHeader.Version) && fresh(fileHeader.FileSizeInfo)
      ensures fileHeader.Valid()
      ensures accepted == (existing.None? || AcceptsExisting(existing.value))
      ensures accepted ==> fileHeader.Magic[..] == MAGIC && fileHeader.Version[..] == VERSION
      ensures existing.None? ==> uSize == 0 && nRealSize == FILE_HEADER_SIZE
      ensures existing.Some? && accepted ==>
        uSize == StoredSize(existing.value) && nRealSize == |existing.value| % U32_LIMIT
    {
      if path in fs.files {
        var f := fs.files[path];
        existing := Some(f);
        fileHeader, accepted, uSize, nRealSize := ReadExisting(f);
      } else {
        existing := None;
        fileHeader := new FileHeader();
        accepted := true;
        nRealSize := FILE_HEADER_SIZE;
        uSize := 0;
      }
    }

    /**
     * `AppendChunkToFile(path, sName, pData, uLength)`: refuses empty data and
     * a file that fails the checks of `ReadExisting`, then rewrites the file
     * header with the grown size and writes the chunk at the old end of file.
     */
    static method AppendChunkToFile(fs: FileSystem, path: CStr, sName: CStr, pData: seq<byte>, uLength: u32)
      returns (ok: bool)
      requires uLength <= |pData|
      modifies fs
      ensures var existing := if path in old(fs.files) then Some(old(fs.files)[path]) else None;
        var r := AppendedFile(existing, sName, pData[..uLength]);
        && ok == (r.Some? && path !in fs.unwritable)
        && fs.files == if ok then old(fs.files)[path := r.value] else old(fs.files)
    {
      if uLength == 0 {
        return false;
      }
      var existing, fileHeader, accepted, uSize, nRealSize := OpenForAppend(fs, path);
      if !accepted {
        return false;
      }
      ghost var stored := uSize;
      var chunk := NewHeaderOnlyChunk(sName, uLength);
      ModSum(stored + CHUNK_HEADER_SIZE, uLength, U32_LIMIT);
      uSize := (uSize + CHUNK_HEADER_SIZE) % U32_LIMIT;
      uSize := (uSize + uLength) % U32_LIMIT;
      StoreSizeInfo(fileHeader.FileSizeInfo, uSize);
      if path in fs.unwritable {
        return false;
      }
      ghost var chunkBytes := ChunkImage(sName, pData[..uLength]);
      assert chunk.Header.Image() + pData[..uLength] == chunkBytes;
      assert |chunkBytes| == CHUNK_HEADER_SIZE + uLength;
      assert uSize == (stored + |chunkBytes|) % U32_LIMIT;
      assert fileHeader.Image() == FileHeaderImage(uSize);
      AppendWrites(existing, stored, nRealSize, fileHeader.Image(), chunkBytes);
      WriteAppended(fs, path, existing.GetOr([]), fileHeader.Image(), nRealSize, chunk.Header.Image() + pData[..uLength]);
      ok := true;
    }

    /** The second half of `AppendChunkToFile`: the header rewrite and the chunk write at the old end. */
    static method WriteAppended(fs: FileSystem, path: CStr, before: seq<byte>, header: seq<byte>, nRealSize: u32, chunk: seq<byte>)
      requires nRealSize <= |Overwrite(before, 0, header)|
      modifies fs
      ensures fs.files == old(fs.files)[path := Overwrite(Overwrite(before, 0, header), nRealSize, chunk)]
    {
      var file := Overwrite(before, 0, header);
      file := Overwrite(file, nRealSize, chunk);
      fs.files := fs.files[path := file];
    }
  }
}
