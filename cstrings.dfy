/**
 * Byte, fixed-width integer and C-string vocabulary shared by the whole model.
 *
 * Text is a sequence of 8-bit characters (`char8`). A `const char*` view of a
 * `std::string` stops at the first NUL; `CView` gives that view.
 */
module CText {
  import opened Wrappers

  type byte = x: int | 0 <= x < 256
  type u16 = x: int | 0 <= x < 0x1_0000
  type u32 = x: int | 0 <= x < 0x1_0000_0000

  const U16_LIMIT: int := 0x1_0000
  const U32_LIMIT: int := 0x1_0000_0000
  const U64_LIMIT: int := 0x1_0000_0000_0000_0000

  type char8 = c: char | c as int < 256
  type CStr = seq<char8>

  const NUL: char8 := '\0'

  /** The text seen through `c_str()`: everything before the first NUL. */
  function CView(s: CStr): (r: CStr)
    ensures r <= s
    ensures NUL !in r
    ensures |r| < |s| ==> s[|r|] == NUL
  {
    if |s| == 0 || s[0] == NUL then [] else [s[0]] + CView(s[1..])
  }

  lemma {:induction false} CViewOfPrefix(s: CStr, i: nat)
    requires i <= |s| && NUL !in s[..i]
    requires i == |s| || s[i] == NUL
    ensures CView(s) == s[..i]
  {
    if i > 0 {
      assert s[0] == s[..i][0];
      CViewOfPrefix(s[1..], i - 1);
      assert s[1..][..i - 1] == s[..i][1..];
      assert s[..i] == [s[0]] + s[1..][..i - 1];
    }
  }

  /** A text without NUL is its own C view. */
  lemma CViewOfPlainText(s: CStr)
    requires NUL !in s
    ensures CView(s) == s
  {
    assert s[..|s|] == s;
    CViewOfPrefix(s, |s|);
  }

  /** The unsigned value of a character, as `unsigned char` sees it. */
  function ByteOf(c: char8): byte { c as int }

  function Bytes(s: CStr): (r: seq<byte>)
    ensures |r| == |s|
    ensures forall i :: 0 <= i < |s| ==> r[i] == s[i] as int
  {
    if s == [] then [] else [ByteOf(s[0])] + Bytes(s[1..])
  }

  /** `::tolower` in the "C" locale: only 'A'..'Z' change. */
  function LowerChar(c: char8): char8
  {
    if 'A' <= c <= 'Z' then (c as int + 32) as char else c
  }

  function Lower(s: CStr): (r: CStr)
    ensures |r| == |s|
    ensures forall i :: 0 <= i < |s| ==> r[i] == LowerChar(s[i])
  {
    if s == [] then [] else [LowerChar(s[0])] + Lower(s[1..])
  }

  lemma LowerAppend(a: CStr, b: CStr)
    ensures Lower(a + b) == Lower(a) + Lower(b)
  {
    assert forall i :: 0 <= i < |a + b| ==> Lower(a + b)[i] == (Lower(a) + Lower(b))[i];
  }

  /** `pat` occurs in `s` at position `i`. */
  predicate OccursAt(s: CStr, pat: CStr, i: nat)
  {
    i + |pat| <= |s| && s[i..i + |pat|] == pat
  }

  /** `std::string::find`: the first position where `pat` occurs. */
  function Find(s: CStr, pat: CStr): (r: Option<nat>)
    ensures r.Some? ==> OccursAt(s, pat, r.value)
    ensures r.Some? ==> forall j :: 0 <= j < r.value ==> !OccursAt(s, pat, j)
    ensures r.None? ==> forall j :: 0 <= j <= |s| ==> !OccursAt(s, pat, j)
  {
    FindFrom(s, pat, 0)
  }

  function FindFrom(s: CStr, pat: CStr, from: nat): (r: Option<nat>)
    requires from <= |s| + 1
    ensures r.Some? ==> from <= r.value && OccursAt(s, pat, r.value)
    ensures r.Some? ==> forall j :: from <= j < r.value ==> !OccursAt(s, pat, j)
    ensures r.None? ==> forall j :: from <= j <= |s| ==> !OccursAt(s, pat, j)
    decreases |s| + 1 - from
  {
    if from + |pat| > |s| then None
    else if s[from..from + |pat|] == pat then Some(from)
    else FindFrom(s, pat, from + 1)
  }

  /** `std::string::find_last_of` for one character. */
  function FindLast(s: CStr, c: char8): (r: Option<nat>)
    ensures r.Some? ==> r.value < |s| && s[r.value] == c && c !in s[r.value + 1..]
    ensures r.None? ==> c !in s
  {
    if s == [] then None
    else if s[|s| - 1] == c then Some(|s| - 1)
    else
      var r := FindLast(s[..|s| - 1], c);
      assert s == s[..|s| - 1] + [s[|s| - 1]];
      r
  }

  function Digit(d: nat): (c: char8)
    requires d < 10
    ensures '0' <= c <= '9'
  {
    ['0', '1', '2', '3', '4', '5', '6', '7', '8', '9'][d]
  }

  /** `std::to_string` of an unsigned value: decimal, no leading zeros. */
  function DecimalText(n: nat): (r: CStr)
    ensures |r| > 0
    ensures forall i :: 0 <= i < |r| ==> '0' <= r[i] <= '9'
    decreases n
  {
    if n < 10 then [Digit(n)] else DecimalText(n / 10) + [Digit(n % 10)]
  }

  function DigitValue(c: char8): nat
  {
    if '0' <= c <= '9' then c as int - '0' as int else 0
  }

  /** The value a run of decimal digits denotes. */
  function DigitsValue(s: CStr): nat
  {
    if s == [] then 0 else DigitsValue(s[..|s| - 1]) * 10 + DigitValue(s[|s| - 1])
  }

  lemma {:induction false} DecimalTextDenotes(n: nat)
    ensures DigitsValue(DecimalText(n)) == n
    decreases n
  {
    var t := DecimalText(n);
    if n < 10 {
      assert t[..|t| - 1] == [];
    } else {
      DecimalTextDenotes(n / 10);
      assert t[..|t| - 1] == DecimalText(n / 10);
    }
  }

  /** Distinct counters give distinct decimal texts, so counter-numbered chunk names never clash. */
  lemma DecimalTextInjective(m: nat, n: nat)
    requires DecimalText(m) == DecimalText(n)
    ensures m == n
  {
    DecimalTextDenotes(m);
    DecimalTextDenotes(n);
  }

  predicate IsCSpace(c: char8)
  {
    c == ' ' || c == '\t' || c == '\n' || c as int == 11 || c as int == 12 || c == '\r'
  }

  predicate IsDigit(c: char8) { '0' <= c <= '9' }

  /** Length of the leading run of digits. */
  function DigitRun(s: CStr): (n: nat)
    ensures n <= |s|
    ensures forall i :: 0 <= i < n ==> IsDigit(s[i])
    ensures n < |s| ==> !IsDigit(s[n])
  {
    if s == [] || !IsDigit(s[0]) then 0 else 1 + DigitRun(s[1..])
  }

  /**
   * `atoi` on a C string: leading white space, an optional sign, then digits.
   * Values outside the range of `int` are undefined in C and are not limited here.
   */
  function Atoi(s: CStr): int
  {
    var t := CView(s);
    var k := SkipSpace(t);
    var rest := t[k..];
    if |rest| > 0 && rest[0] == '-' then 0 - DigitsValue(rest[1..][..DigitRun(rest[1..])]) as int
    else if |rest| > 0 && rest[0] == '+' then DigitsValue(rest[1..][..DigitRun(rest[1..])])
    else DigitsValue(rest[..DigitRun(rest)])
  }

  function SkipSpace(s: CStr): (k: nat)
    ensures k <= |s|
    ensures forall i :: 0 <= i < k ==> IsCSpace(s[i])
    ensures k < |s| ==> !IsCSpace(s[k])
  {
    if s == [] || !IsCSpace(s[0]) then 0 else 1 + SkipSpace(s[1..])
  }

  lemma {:induction false} DigitsValueOfDigits(s: CStr)
    requires forall i :: 0 <= i < |s| ==> IsDigit(s[i])
    ensures DigitRun(s) == |s|
  {
    if s != [] {
      DigitsValueOfDigits(s[1..]);
    }
  }

  /** `atoi` reads back what `std::to_string` wrote. */
  lemma AtoiOfDecimalText(n: nat)
    ensures Atoi(DecimalText(n)) == n
  {
    var t := DecimalText(n);
    assert NUL !in t by {
      forall i | 0 <= i < |t| ensures t[i] != NUL { }
    }
    CViewOfPlainText(t);
    assert SkipSpace(t) == 0;
    DigitsValueOfDigits(t);
    assert t[0..] == t && t[..|t|] == t;
    DecimalTextDenotes(n);
  }
}
