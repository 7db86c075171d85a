/** The Kotlin string operations the application relies on, written out over `seq<char>`:
    whitespace and blank tests, `trim`, ASCII case folding for `ignoreCase = true`,
    `startsWith`, `contains`, the `substringBefore/After(Last)` family, `String.compareTo`
    and decimal rendering of integers for the toast messages. */
module Text {
  import opened Wrappers

  /** Kotlin's `Char.isWhitespace()` on the JVM, which is
      `Character.isWhitespace(c) || Character.isSpaceChar(c)`. */
  predicate IsWhitespace(c: char) {
    || c == ' '
    || ('\t' <= c <= '\r')
    || ('\U{1C}' <= c <= '\U{1F}')
    || c == '\U{A0}' || c == '\U{1680}'
    || ('\U{2000}' <= c <= '\U{200A}')
    || c == '\U{2028}' || c == '\U{2029}' || c == '\U{202F}' || c == '\U{205F}' || c == '\U{3000}'
  }

  /** `\s` in a Java regular expression without flags: ASCII whitespace only. */
  predicate IsRegexSpace(c: char) {
    c == ' ' || ('\t' <= c <= '\r')
  }

  /** Kotlin's `isBlank()`: empty or whitespace only. */
  predicate IsBlank(s: string) {
    forall i :: 0 <= i < |s| ==> IsWhitespace(s[i])
  }

  /** Empty, or neither starting nor ending with whitespace. */
  predicate Tight(t: string) {
    t == [] || (!IsWhitespace(t[0]) && !IsWhitespace(t[|t| - 1]))
  }

  /** The index of the first character at or after `i` that is not whitespace, or `|s|`:
      where `trim` stops scanning forward. */
  function FirstNonSpace(s: string, i: nat): (n: nat)
    requires i <= |s|
    ensures i <= n <= |s|
    ensures forall j :: i <= j < n ==> IsWhitespace(s[j])
    ensures n < |s| ==> !IsWhitespace(s[n])
    decreases |s| - i
  {
    if i < |s| && IsWhitespace(s[i]) then FirstNonSpace(s, i + 1) else i
  }

  /** One past the last character before `j` that is not whitespace, or 0: where `trim`
      stops scanning backward. */
  function EndNonSpace(s: string, j: nat): (n: nat)
    requires j <= |s|
    ensures n <= j
    ensures forall k :: n <= k < j ==> IsWhitespace(s[k])
    ensures n > 0 ==> !IsWhitespace(s[n - 1])
    decreases j
  {
    if j > 0 && IsWhitespace(s[j - 1]) then EndNonSpace(s, j - 1) else j
  }

  /** The first non-whitespace index is the only index with whitespace before it and a
      non-whitespace character (or the end) at it. */
  lemma {:induction false} FirstNonSpaceUnique(s: string, n: nat)
    requires n <= |s| && (forall j :: 0 <= j < n ==> IsWhitespace(s[j]))
    requires n < |s| ==> !IsWhitespace(s[n])
    ensures FirstNonSpace(s, 0) == n
  {
  }

  lemma {:induction false} EndNonSpaceUnique(s: string, n: nat)
    requires n <= |s| && (forall k :: n <= k < |s| ==> IsWhitespace(s[k]))
    requires n > 0 ==> !IsWhitespace(s[n - 1])
    ensures EndNonSpace(s, |s|) == n
  {
  }

  /** Kotlin's `trimStart()`. */
  function TrimStart(s: string): (r: string)
    ensures |r| <= |s| && r == s[|s| - |r|..]
    ensures r == [] || !IsWhitespace(r[0])
  {
    s[FirstNonSpace(s, 0)..]
  }

  /** Kotlin's `trimEnd()`. */
  function TrimEnd(s: string): (r: string)
    ensures |r| <= |s| && r == s[..|r|]
    ensures r == [] || !IsWhitespace(r[|r| - 1])
  {
    s[..EndNonSpace(s, |s|)]
  }

  /** Kotlin's `CharSequence.trim()`. */
  function Trim(s: string): string {
    TrimEnd(TrimStart(s))
  }

  lemma {:induction false} TrimStartParts(s: string)
    ensures s == s[..|s| - |TrimStart(s)|] + TrimStart(s)
    ensures IsBlank(s[..|s| - |TrimStart(s)|])
  {
    var k := FirstNonSpace(s, 0);
    var a := s[..k];
    assert s == a + s[k..];
    forall i | 0 <= i < k
      ensures IsWhitespace(a[i])
    {
      assert a[i] == s[i];
    }
  }

  lemma {:induction false} TrimEndParts(s: string)
    ensures s == TrimEnd(s) + s[|TrimEnd(s)|..]
    ensures IsBlank(s[|TrimEnd(s)|..])
  {
    var k := EndNonSpace(s, |s|);
    var b := s[k..];
    assert s == s[..k] + b;
    forall i | 0 <= i < |b|
      ensures IsWhitespace(b[i])
    {
      assert b[i] == s[k + i];
    }
  }

  lemma {:induction false} TrimIsTight(s: string)
    ensures Tight(Trim(s))
  {
    var ts := TrimStart(s);
    var te := TrimEnd(ts);
    if te != [] {
      assert te[0] == ts[0];
    }
  }

  /** `Trim(s)` is what is left of `s` between a blank prefix and a blank suffix, and it
      neither starts nor ends with whitespace. */
  lemma {:induction false} TrimSplits(s: string) returns (a: string, b: string)
    ensures s == a + Trim(s) + b
    ensures IsBlank(a) && IsBlank(b)
    ensures Tight(Trim(s))
  {
    var ts := TrimStart(s);
    TrimStartParts(s);
    a := s[..|s| - |ts|];
    var te := TrimEnd(ts);
    TrimEndParts(ts);
    b := ts[|te|..];
    TrimIsTight(s);
    ConcatAssoc(a, te, b);
  }

  lemma ConcatAssoc(a: string, b: string, c: string)
    ensures a + (b + c) == a + b + c
  {
  }

  /** A string trims to nothing exactly when it is blank. */
  lemma {:induction false} TrimEmptyIffBlank(s: string)
    ensures Trim(s) == [] <==> IsBlank(s)
  {
    var a, b := TrimSplits(s);
    if Trim(s) == [] {
      assert s == a + b;
      assert forall i :: 0 <= i < |s| ==> s[i] == if i < |a| then a[i] else b[i - |a|];
    } else {
      assert s[|a|] == Trim(s)[0];
    }
  }

  lemma {:induction false} TrimStartBlankPrefix(p: string, s: string)
    requires IsBlank(p)
    ensures TrimStart(p + s) == TrimStart(s)
  {
    var l := FirstNonSpace(s, 0);
    var ps := p + s;
    forall j | 0 <= j < |p| + l
      ensures IsWhitespace(ps[j])
    {
      if j >= |p| {
        assert ps[j] == s[j - |p|];
      }
    }
    if l < |s| {
      assert ps[|p| + l] == s[l];
    }
    FirstNonSpaceUnique(ps, |p| + l);
    assert ps[|p| + l..] == s[l..];
  }

  lemma {:induction false} TrimEndBlankSuffix(s: string, q: string)
    requires IsBlank(q)
    ensures TrimEnd(s + q) == TrimEnd(s)
  {
    var e := EndNonSpace(s, |s|);
    var sq := s + q;
    forall k | e <= k < |sq|
      ensures IsWhitespace(sq[k])
    {
      if k >= |s| {
        assert sq[k] == q[k - |s|];
      }
    }
    if e > 0 {
      assert sq[e - 1] == s[e - 1];
    }
    EndNonSpaceUnique(sq, e);
    assert sq[..e] == s[..e];
  }

  lemma {:induction false} TrimStartAppend(s: string, q: string)
    ensures TrimStart(s + q) == if TrimStart(s) == [] then TrimStart(q) else TrimStart(s) + q
  {
    var l := FirstNonSpace(s, 0);
    var sq := s + q;
    if l == |s| {
      assert s + q == s + q;
      TrimStartParts(s);
      assert s[..l] == s;
      TrimStartBlankPrefix(s, q);
    } else {
      forall j | 0 <= j < l
        ensures IsWhitespace(sq[j])
      {
        assert sq[j] == s[j];
      }
      assert sq[l] == s[l];
      FirstNonSpaceUnique(sq, l);
      assert sq[l..] == s[l..] + q;
    }
  }

  /** Leading and trailing whitespace never changes what `trim` returns. */
  lemma {:induction false} TrimIgnoresPadding(p: string, s: string, q: string)
    requires IsBlank(p) && IsBlank(q)
    ensures Trim(p + s + q) == Trim(s)
  {
    assert p + s + q == p + (s + q);
    TrimStartBlankPrefix(p, s + q);
    TrimStartAppend(s, q);
    if TrimStart(s) == [] {
      TrimStartBlankPrefix(q, []);
      assert q + [] == q;
    } else {
      TrimEndBlankSuffix(TrimStart(s), q);
    }
  }

  /** ASCII case folding, the model of `ignoreCase = true`. */
  function LowerAscii(c: char): char {
    if 'A' <= c <= 'Z' then (c as int + 32) as char else c
  }

  predicate IsLowerAscii(c: char) {
    'a' <= c <= 'z'
  }

  function UpperAscii(c: char): char {
    if IsLowerAscii(c) then (c as int - 32) as char else c
  }

  function Fold(s: string): string {
    seq(|s|, i requires 0 <= i < |s| => LowerAscii(s[i]))
  }

  /** Kotlin's `startsWith(prefix)`. */
  predicate StartsWith(s: string, prefix: string) {
    |prefix| <= |s| && s[..|prefix|] == prefix
  }

  /** `sub` occurs in `s` starting at index `i`. */
  predicate OccursAt(s: string, sub: string, i: int) {
    0 <= i <= |s| - |sub| && s[i..i + |sub|] == sub
  }

  /** Kotlin's `contains(other)`: `sub` occurs in `s` at some position. */
  predicate Contains(s: string, sub: string) {
    exists i :: 0 <= i <= |s| - |sub| && OccursAt(s, sub, i)
  }

  lemma {:induction false} OccursImpliesContains(s: string, sub: string, i: int)
    requires OccursAt(s, sub, i)
    ensures Contains(s, sub)
  {
  }

  /** Kotlin's `contains(other, ignoreCase = true)`, with ASCII folding. */
  predicate ContainsIgnoreCase(s: string, sub: string) {
    Contains(Fold(s), Fold(sub))
  }

  /** Kotlin's `indexOf(c)`, `null` for -1. */
  function IndexOf(s: string, c: char): (r: Option<nat>)
    ensures r.Some? ==> r.value < |s| && s[r.value] == c && c !in s[..r.value]
    ensures r.None? ==> c !in s
  {
    if |s| == 0 then None
    else if s[0] == c then Some(0)
    else match IndexOf(s[1..], c)
      case None => None
      case Some(i) => assert s[..i + 1] == [s[0]] + s[1..][..i]; Some(i + 1)
  }

  /** Kotlin's `lastIndexOf(c)`, `null` for -1. */
  function LastIndexOf(s: string, c: char): (r: Option<nat>)
    ensures r.Some? ==> r.value < |s| && s[r.value] == c && c !in s[r.value + 1..]
    ensures r.None? ==> c !in s
  {
    if |s| == 0 then None
    else if s[|s| - 1] == c then Some(|s| - 1)
    else match LastIndexOf(s[..|s| - 1], c)
      case None => None
      case Some(i) => assert s[i + 1..] == s[..|s| - 1][i + 1..] + [s[|s| - 1]]; Some(i)
  }

  /** The first occurrence is the unique one with no `c` before it. */
  lemma {:induction false} IndexOfAt(s: string, c: char, i: nat)
    requires i < |s| && s[i] == c && c !in s[..i]
    ensures IndexOf(s, c) == Some(i)
  {
    assert s[i] in s;
  }

  /** The last occurrence is the unique one with no `c` after it. */
  lemma {:induction false} LastIndexOfAt(s: string, c: char, i: nat)
    requires i < |s| && s[i] == c && c !in s[i + 1..]
    ensures LastIndexOf(s, c) == Some(i)
  {
    assert s[i] in s;
  }

  /** Kotlin's `substringBefore(c)`: everything before the first `c`, or all of `s`. */
  function SubstringBefore(s: string, c: char): (r: string)
    ensures c !in r && StartsWith(s, r)
    ensures r == s || (|r| < |s| && s[|r|] == c)
  {
    match IndexOf(s, c)
    case Some(i) => s[..i]
    case None => s
  }

  /** Kotlin's `substringAfter(c)`: everything after the first `c`, or all of `s`. */
  function SubstringAfter(s: string, c: char): string {
    match IndexOf(s, c)
    case Some(i) => s[i + 1..]
    case None => s
  }

  /** Kotlin's `substringAfterLast(c)`: everything after the last `c`, or all of `s`. */
  function SubstringAfterLast(s: string, c: char): (r: string)
    ensures c !in r
    ensures r == s || (|r| < |s| && r == s[|s| - |r|..] && s[|s| - |r| - 1] == c)
  {
    match LastIndexOf(s, c)
    case Some(i) => s[i + 1..]
    case None => s
  }

  /** Kotlin's `substringBeforeLast(c)`: everything before the last `c`, or all of `s`. */
  function SubstringBeforeLast(s: string, c: char): string {
    match LastIndexOf(s, c)
    case Some(i) => s[..i]
    case None => s
  }

  /** In "p/n" with no '/' in n, the last '/' is the one before n. */
  lemma {:induction false} LastSlashOfPath(p: string, n: string)
    requires '/' !in n
    ensures SubstringAfterLast(p + "/" + n, '/') == n
    ensures SubstringBeforeLast(p + "/" + n, '/') == p
  {
    var s := p + "/" + n;
    assert s[|p|] == '/' && s[|p| + 1..] == n && s[..|p|] == p;
    LastIndexOfAt(s, '/', |p|);
  }

  /** The UTF-16 code units of one character, as a Kotlin string stores it: the
      character itself within the basic multilingual plane, a high and a low surrogate
      above U+FFFF. */
  function Utf16Char(c: char): (u: seq<int>)
    ensures |u| == 1 <==> (c as int) < 0x1_0000
    ensures |u| == 1 || |u| == 2
    ensures |u| == 1 ==> u[0] == c as int && !(0xD800 <= u[0] < 0xDC00)
    ensures |u| == 2 ==> 0xD800 <= u[0] < 0xDC00 && 0xDC00 <= u[1] < 0xE000
  {
    var n := c as int;
    if n < 0x1_0000 then [n]
    else [0xD800 + (n - 0x1_0000) / 0x400, 0xDC00 + (n - 0x1_0000) % 0x400]
  }

  /** A character is recovered from its code units. */
  lemma {:induction false} Utf16CharInjective(c: char, d: char)
    requires Utf16Char(c) == Utf16Char(d)
    ensures c == d
  {
    var n, m := c as int, d as int;
    if n >= 0x1_0000 {
      assert n == 0x1_0000 + (Utf16Char(c)[0] - 0xD800) * 0x400 + (Utf16Char(c)[1] - 0xDC00);
      assert m == 0x1_0000 + (Utf16Char(d)[0] - 0xD800) * 0x400 + (Utf16Char(d)[1] - 0xDC00);
    }
  }

  /** The UTF-16 code units of a string, the `char`s of a Kotlin `String`. */
  function Utf16(s: string): (u: seq<int>)
    ensures |s| <= |u| <= 2 * |s|
  {
    if s == [] then [] else Utf16Char(s[0]) + Utf16(s[1..])
  }

  /** Two strings with the same code units are the same string. */
  lemma {:induction false} Utf16Injective(a: string, b: string)
    requires Utf16(a) == Utf16(b)
    ensures a == b
  {
    if a != [] && b != [] {
      var u, v := Utf16Char(a[0]), Utf16Char(b[0]);
      assert u[0] == Utf16(a)[0] && v[0] == Utf16(b)[0];
      assert |u| == |v|;
      assert u == Utf16(a)[..|u|] && v == Utf16(b)[..|v|];
      Utf16CharInjective(a[0], b[0]);
      assert Utf16(a[1..]) == Utf16(a)[|u|..] && Utf16(b[1..]) == Utf16(b)[|v|..];
      Utf16Injective(a[1..], b[1..]);
      assert a == [a[0]] + a[1..] && b == [b[0]] + b[1..];
    }
  }

  /** The sign of comparing two code-unit sequences: units compared left to right, and
      a proper prefix before the longer sequence. */
  function CompareUnits(a: seq<int>, b: seq<int>): (r: int)
    ensures -1 <= r <= 1
  {
    if a == [] then (if b == [] then 0 else -1)
    else if b == [] then 1
    else if a[0] < b[0] then -1
    else if a[0] > b[0] then 1
    else CompareUnits(a[1..], b[1..])
  }

  lemma {:induction false} CompareUnitsZeroIff(a: seq<int>, b: seq<int>)
    ensures CompareUnits(a, b) == 0 <==> a == b
  {
    if a != [] && b != [] && a[0] == b[0] {
      CompareUnitsZeroIff(a[1..], b[1..]);
      assert a == [a[0]] + a[1..] && b == [b[0]] + b[1..];
    }
  }

  lemma {:induction false} CompareUnitsAntisymmetric(a: seq<int>, b: seq<int>)
    ensures CompareUnits(a, b) == -CompareUnits(b, a)
  {
    if a != [] && b != [] && a[0] == b[0] {
      CompareUnitsAntisymmetric(a[1..], b[1..]);
    }
  }

  lemma {:induction false} CompareUnitsTransitive(a: seq<int>, b: seq<int>, c: seq<int>)
    requires CompareUnits(a, b) <= 0 && CompareUnits(b, c) <= 0
    ensures CompareUnits(a, c) <= 0
  {
    if a != [] && b != [] && c != [] && a[0] == b[0] == c[0] {
      CompareUnitsTransitive(a[1..], b[1..], c[1..]);
    }
  }

  /** The sign of Kotlin's `String.compareTo`: the strings' UTF-16 code units compared
      left to right, and a proper prefix before the longer string. */
  function Compare(a: string, b: string): (r: int)
    ensures -1 <= r <= 1
  {
    CompareUnits(Utf16(a), Utf16(b))
  }

  lemma {:induction false} CompareZeroIff(a: string, b: string)
    ensures Compare(a, b) == 0 <==> a == b
  {
    CompareUnitsZeroIff(Utf16(a), Utf16(b));
    if Utf16(a) == Utf16(b) {
      Utf16Injective(a, b);
    }
  }

  lemma {:induction false} CompareAntisymmetric(a: string, b: string)
    ensures Compare(a, b) == -Compare(b, a)
  {
    CompareUnitsAntisymmetric(Utf16(a), Utf16(b));
  }

  lemma {:induction false} CompareTransitive(a: string, b: string, c: string)
    requires Compare(a, b) <= 0 && Compare(b, c) <= 0
    ensures Compare(a, c) <= 0
  {
    CompareUnitsTransitive(Utf16(a), Utf16(b), Utf16(c));
  }

  /** Above U+FFFF the order is that of the surrogates, not of the code points: an emoji
      sorts before a halfwidth character although its code point is larger. */
  lemma CompareSurrogateOrder()
    ensures Compare("\U{1F600}", "\U{FF61}") == -1
  {
    assert Utf16("\U{1F600}") == [0xD83D, 0xDE00] + Utf16([]);
    assert Utf16("\U{FF61}") == [0xFF61] + Utf16([]);
  }

  function DigitChar(d: nat): char
    requires d < 10
  {
    "0123456789"[d]
  }

  /** Decimal rendering of a natural number, as Kotlin's string templates print an `Int`. */
  function NatToString(n: nat): (r: string)
    ensures |r| > 0
    ensures forall i :: 0 <= i < |r| ==> '0' <= r[i] <= '9'
  {
    if n < 10 then [DigitChar(n)] else NatToString(n / 10) + [DigitChar(n % 10)]
  }

  function IntToString(n: int): string {
    if n < 0 then "-" + NatToString(-n) else NatToString(n)
  }
}
