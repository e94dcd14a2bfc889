/**
 * The static string and hash helpers of the STU exporter
 * (`CFileExportSTUFormat::MakeHashFromName`, `CopyString`,
 * `RemoveFoldersFromPaths`, `EndsWithIgnoreCase`).
 */
module StuText {
  import opened Wrappers
  import opened CText

  /** `CFileExportSTUFormat::uMaxTextLength`: the longest text `CopyString` stores. */
  const MAX_TEXT_LENGTH: nat := 255

  const HASH_SEED: nat := 5381

  /** The value `int c = *str` takes for a plain (signed) `char`. */
  function SignedChar(c: char8): (v: int)
    ensures -128 <= v < 128
    ensures v % 256 == c as int
  {
    if c as int < 128 then c as int else c as int - 256
  }

  /**
   * The name hash of a NUL-free text: seed 5381, and each character folds in as
   * `hash * 33 + hash + c`, i.e. a multiplier of 34, reduced to 32 bits.
   */
  function HashText(t: CStr): u32
    decreases |t|
  {
    if t == [] then HASH_SEED
    else (HashText(t[..|t| - 1]) * 34 + SignedChar(t[|t| - 1])) % U32_LIMIT
  }

  /** The hash `MakeHashFromName` returns for a `std::string`: it reads only up to the first NUL. */
  function NameHash(s: CStr): u32
  {
    HashText(CView(s))
  }

  lemma NameHashOfEmpty()
    ensures NameHash([]) == 5381
  {
  }

  /** One more (non-NUL) character: the hash steps by `h * 34 + c (mod 2^32)`. */
  lemma NameHashStep(s: CStr, c: char8)
    requires NUL !in s && c != NUL
    ensures NameHash(s + [c]) == (NameHash(s) * 34 + SignedChar(c)) % U32_LIMIT
  {
    var t := s + [c];
    CViewOfPlainText(s);
    CViewOfPlainText(t);
    assert t[..|t| - 1] == s && t[|t| - 1] == c;
    assert HashText(t) == (HashText(s) * 34 + SignedChar(c)) % U32_LIMIT;
  }

  /** Everything from the first NUL on is ignored. */
  lemma NameHashStopsAtNul(s: CStr, t: CStr)
    requires NUL !in s
    ensures NameHash(s + [NUL] + t) == NameHash(s)
  {
    var u := s + [NUL] + t;
    assert u[..|s|] == s;
    CViewOfPrefix(u, |s|);
    CViewOfPlainText(s);
  }

  lemma ModUnique(x: int, m: int, q: int, r: int)
    requires m > 0 && 0 <= r < m && x == m * q + r
    ensures x % m == r && x / m == q
  {
    var q0, r0 := x / m, x % m;
    assert x == m * q0 + r0;
    if q0 != q {
      if q0 > q { MulMono(m, q + 1, q0); } else { MulMono(m, q0 + 1, q); }
      assert false;
    }
  }

  lemma MulMono(m: int, a: int, b: int)
    requires m > 0 && a <= b
    ensures m * a <= m * b
  {
  }

  lemma ModAddMultiple(a: int, q: int, m: int)
    requires m > 0
    ensures (a + m * q) % m == a % m
  {
    ModUnique(a + m * q, m, a / m + q, a % m);
  }

  lemma ModSum(x: int, y: int, m: int)
    requires m > 0
    ensures (x % m + y) % m == (x + y) % m
  {
    assert x + y == x % m + y + m * (x / m);
    ModAddMultiple(x % m + y, x / m, m);
  }

  /** Reducing by a multiple of `m` first does not change the remainder modulo `m`. */
  lemma ModOfMod(a: int, m: int, k: int)
    requires m > 0 && k > 0
    ensures (a % (m * k)) % m == a % m
  {
    var n := m * k;
    assert a == n * (a / n) + a % n;
    assert a % n == a + m * (-(k * (a / n)));
    ModAddMultiple(a, -(k * (a / n)), m);
  }

  /**
   * `MakeHashFromName`: the loop runs on an `unsigned long` (64 bits here) and the
   * value is truncated to 32 bits on return; the result is the 32-bit hash of the
   * text up to the first NUL.
   */
  method MakeHashFromName(sName: CStr) returns (h: u32)
    ensures h == NameHash(sName)
  {
    var hash: int := HASH_SEED;
    var i := 0;
    while i < |sName| && sName[i] != NUL
      invariant 0 <= i <= |sName|
      invariant NUL !in sName[..i]
      invariant 0 <= hash < U64_LIMIT
      invariant hash % U32_LIMIT == HashText(sName[..i])
    {
      var c := SignedChar(sName[i]);
      ghost var prev := hash;
      hash := (hash * 33 + hash + c) % U64_LIMIT;
      calc {
        hash % U32_LIMIT;
        { ModOfMod(prev * 34 + c, U32_LIMIT, U32_LIMIT); }
        (prev * 34 + c) % U32_LIMIT;
        { assert prev * 34 + c == (prev % U32_LIMIT) * 34 + c + U32_LIMIT * (34 * (prev / U32_LIMIT));
          ModAddMultiple((prev % U32_LIMIT) * 34 + c, 34 * (prev / U32_LIMIT), U32_LIMIT); }
        ((prev % U32_LIMIT) * 34 + c) % U32_LIMIT;
      }
      assert sName[..i + 1][..i] == sName[..i];
      i := i + 1;
    }
    CViewOfPrefix(sName, i);
    h := hash % U32_LIMIT;
  }

  function Min(a: nat, b: nat): nat { if a <= b then a else b }

  /**
   * The bytes `CopyString` appends: at most `uMaxTextLength` characters of the
   * C string, then one NUL.
   */
  function CopiedText(s: CStr): seq<byte>
  {
    var t := CView(s);
    Bytes(t[..Min(|t|, MAX_TEXT_LENGTH)]) + [0]
  }

  /**
   * `CopyString(pString, Target)`: pushes characters until NUL or the cap, then a
   * terminating 0, and returns the number of bytes pushed.
   */
  method CopyString(s: CStr, target: seq<byte>) returns (out: seq<byte>, count: u32)
    ensures out == target + CopiedText(s)
    ensures count == |CopiedText(s)|
  {
    out := target;
    var n := 0;
    while n < |s| && s[n] != NUL && n < MAX_TEXT_LENGTH
      invariant 0 <= n <= |s| && n <= MAX_TEXT_LENGTH
      invariant NUL !in s[..n]
      invariant out == target + Bytes(s[..n])
    {
      assert Bytes(s[..n + 1]) == Bytes(s[..n]) + [ByteOf(s[n])];
      out := out + [ByteOf(s[n])];
      n := n + 1;
    }
    var t := CView(s);
    if n == |s| || s[n] == NUL {
      CViewOfPrefix(s, n);
      assert t[..Min(|t|, MAX_TEXT_LENGTH)] == s[..n];
    } else {
      assert n == MAX_TEXT_LENGTH;
      CViewPrefixAgrees(s, n);
      assert t[..Min(|t|, MAX_TEXT_LENGTH)] == s[..n];
    }
    out := out + [0];
    count := n + 1;
  }

  /** Before any NUL, the C view agrees with the text itself. */
  lemma {:induction false} CViewPrefixAgrees(s: CStr, n: nat)
    requires n <= |s| && NUL !in s[..n]
    ensures n <= |CView(s)| && CView(s)[..n] == s[..n]
  {
    if n > 0 {
      assert s[0] == s[..n][0];
      assert s[1..][..n - 1] == s[..n][1..];
      CViewPrefixAgrees(s[1..], n - 1);
    }
  }

  /** The characters a stored string decodes back to. */
  function CharsOf(b: seq<byte>): (r: CStr)
    ensures |r| == |b|
    ensures forall i :: 0 <= i < |b| ==> r[i] as int == b[i]
  {
    if b == [] then [] else [b[0] as char] + CharsOf(b[1..])
  }

  /**
   * What `CopyString` stores is 1 to 256 bytes, NUL-terminated, and reading it
   * back as a C string gives the text capped at `uMaxTextLength` characters; a
   * text of at most 255 characters comes back whole.
   */
  lemma CopiedTextRoundTrip(s: CStr)
    ensures 1 <= |CopiedText(s)| <= MAX_TEXT_LENGTH + 1
    ensures |CopiedText(s)| == Min(|CView(s)|, MAX_TEXT_LENGTH) + 1
    ensures CView(CharsOf(CopiedText(s))) == CView(s)[..Min(|CView(s)|, MAX_TEXT_LENGTH)]
    ensures |CView(s)| <= MAX_TEXT_LENGTH ==> CView(CharsOf(CopiedText(s))) == CView(s)
  {
    var t := CView(s);
    var k := Min(|t|, MAX_TEXT_LENGTH);
    var c := CharsOf(CopiedText(s));
    assert c[..k] == t[..k];
    assert NUL !in c[..k];
    CViewOfPrefix(c, k);
  }

  /**
   * `RemoveFoldersFromPaths`: the text after the last '\\' if there is one,
   * else after the last '/', else the path unchanged.
   */
  function RemoveFoldersFromPaths(path: CStr): (r: CStr)
    ensures |r| <= |path| && r == path[|path| - |r|..]
    ensures '\\' in path ==> exists i :: 0 <= i < |path| && path[i] == '\\' && r == path[i + 1..]
    ensures '\\' !in path && '/' in path ==> exists i :: 0 <= i < |path| && path[i] == '/' && r == path[i + 1..]
    ensures '\\' !in path && '/' !in path ==> r == path
    ensures '\\' !in r
    ensures '\\' !in path ==> '/' !in r
  {
    match FindLast(path, '\\')
    case Some(i) => path[i + 1..]
    case None =>
      match FindLast(path, '/')
      case Some(j) => path[j + 1..]
      case None => path
  }

  /**
   * `EndsWithIgnoreCase`: false when `ending` is the longer text; otherwise
   * whether the lower-cased `fullString` ends with the lower-cased `ending`.
   */
  function EndsWithIgnoreCase(fullString: CStr, ending: CStr): (r: bool)
    ensures |ending| > |fullString| ==> !r
    ensures r <==> HasSuffix(Lower(fullString), Lower(ending))
  {
    SuffixSplit(Lower(fullString), Lower(ending));
    |fullString| >= |ending| && Lower(fullString)[|fullString| - |ending|..] == Lower(ending)
  }

  /** `e` is a tail of `f`. */
  ghost predicate HasSuffix(f: CStr, e: CStr)
  {
    exists front: CStr :: f == front + e
  }

  lemma SuffixSplit(f: CStr, e: CStr)
    ensures HasSuffix(f, e) <==> |f| >= |e| && f[|f| - |e|..] == e
  {
    if |f| >= |e| && f[|f| - |e|..] == e {
      var front: CStr := f[..|f| - |e|];
      assert f == front + e;
    }
    forall front: CStr | f == front + e
      ensures |f| >= |e| && f[|f| - |e|..] == e
    {
      assert f[|front|..] == e;
    }
  }

  lemma EndsWithEmpty(fullString: CStr)
    ensures EndsWithIgnoreCase(fullString, [])
  {
  }
}
