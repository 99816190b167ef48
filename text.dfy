/**
 * String operations of the JavaScript runtime that the modelled code relies on:
 * ASCII case mapping, substring search, `split` on one character, `trim`,
 * `padEnd`, `repeat`, lowercase hex as produced by `toString('hex')`, and the
 * hex decoder of Node's `Buffer.from(s, 'hex')`.
 */
module Text {

  type byte = b: int | 0 <= b < 256

  // ---------------------------------------------------------------------------
  // Character classes (the ranges of the regular expressions [a-z], [A-Z], [0-9])

  predicate IsLower(c: char) { 'a' <= c <= 'z' }
  predicate IsUpper(c: char) { 'A' <= c <= 'Z' }
  predicate IsDigit(c: char) { '0' <= c <= '9' }
  predicate IsAlnum(c: char) { IsLower(c) || IsUpper(c) || IsDigit(c) }

  /** The characters that `.` in a JavaScript regular expression does not match. */
  predicate IsLineTerminator(c: char) {
    c == '\n' || c == '\r' || c == '\U{2028}' || c == '\U{2029}'
  }

  /** White space and line terminators as stripped by String.prototype.trim. */
  predicate IsJsWhitespace(c: char) {
    c == '\t' || c == '\n' || c == '\U{000B}' || c == '\U{000C}' || c == '\r' || c == ' '
    || c == '\U{00A0}' || c == '\U{1680}' || ('\U{2000}' <= c <= '\U{200A}')
    || c == '\U{2028}' || c == '\U{2029}' || c == '\U{202F}' || c == '\U{205F}'
    || c == '\U{3000}' || c == '\U{FEFF}'
  }

  // ---------------------------------------------------------------------------
  // ASCII case mapping

  function LowerChar(c: char): (r: char)
    ensures IsUpper(c) ==> IsLower(r) && r as int == c as int + 32
    ensures !IsUpper(c) ==> r == c
  {
    if IsUpper(c) then (c as int + 32) as char else c
  }

  function UpperChar(c: char): (r: char)
    ensures IsLower(c) ==> IsUpper(r) && r as int == c as int - 32
    ensures !IsLower(c) ==> r == c
  {
    if IsLower(c) then (c as int - 32) as char else c
  }

  function ToLower(s: string): (r: string)
    ensures |r| == |s|
    ensures forall i :: 0 <= i < |s| ==> r[i] == LowerChar(s[i])
  {
    seq(|s|, i requires 0 <= i < |s| => LowerChar(s[i]))
  }

  function ToUpper(s: string): (r: string)
    ensures |r| == |s|
    ensures forall i :: 0 <= i < |s| ==> r[i] == UpperChar(s[i])
  {
    seq(|s|, i requires 0 <= i < |s| => UpperChar(s[i]))
  }

  // ---------------------------------------------------------------------------
  // Substrings and prefixes

  /** `pat` occurs in `s` at position `i`. */
  predicate OccursAt(s: string, pat: string, i: int) {
    0 <= i && i + |pat| <= |s| && s[i..i + |pat|] == pat
  }

  /** `s.includes(pat)`. */
  predicate Contains(s: string, pat: string) {
    exists i | 0 <= i <= |s| - |pat| :: OccursAt(s, pat, i)
  }

  /** A string containing a longer pattern contains each of its infixes. */
  lemma ContainsInfix(s: string, pat: string, k: nat, n: nat)
    requires Contains(s, pat) && k + n <= |pat|
    ensures Contains(s, pat[k..k + n])
  {
    var i :| 0 <= i <= |s| - |pat| && OccursAt(s, pat, i);
    assert s[i..i + |pat|] == pat;
    forall j | k <= j < k + n ensures s[i + j] == pat[j] {
      assert s[i..i + |pat|][j] == s[i + j];
    }
    assert s[i + k..i + k + n] == pat[k..k + n];
    assert OccursAt(s, pat[k..k + n], i + k);
  }

  /** `s.startsWith(p)`. */
  predicate StartsWith(s: string, p: string) {
    |p| <= |s| && s[..|p|] == p
  }

  // ---------------------------------------------------------------------------
  // split on a single character, with JavaScript's semantics: n separators give
  // n + 1 pieces, and empty pieces are kept.

  function Split(s: string, sep: char): (r: seq<string>)
    ensures |r| >= 1
    ensures forall k :: 0 <= k < |r| ==> sep !in r[k]
  {
    if s == [] then [""]
    else
      var rest := Split(s[1..], sep);
      if s[0] == sep then [""] + rest
      else
        var first := [s[0]] + rest[0];
        assert sep !in first;
        [first] + rest[1..]
  }

  /** Number of occurrences of `c` in `s`. */
  function Count(s: string, c: char): nat {
    if s == [] then 0 else (if s[0] == c then 1 else 0) + Count(s[1..], c)
  }

  lemma {:induction false} CountAppend(a: string, b: string, c: char)
    ensures Count(a + b, c) == Count(a, c) + Count(b, c)
  {
    if a == [] {
      assert a + b == b;
    } else {
      assert (a + b)[0] == a[0];
      assert (a + b)[1..] == a[1..] + b;
      CountAppend(a[1..], b, c);
    }
  }

  lemma {:induction false} CountAbsent(s: string, c: char)
    ensures c !in s <==> Count(s, c) == 0
  {
    if s != [] {
      CountAbsent(s[1..], c);
      assert s == [s[0]] + s[1..];
    }
  }

  /** A string without the separator splits into itself. */
  lemma {:induction false} SplitNoSep(s: string, sep: char)
    requires sep !in s
    ensures Split(s, sep) == [s]
  {
    if s != [] {
      SplitNoSep(s[1..], sep);
      assert [s[0]] + s[1..] == s;
    }
  }

  /** Splitting at the first separator. */
  lemma {:induction false} SplitAtSep(a: string, b: string, sep: char)
    requires sep !in a
    ensures Split(a + [sep] + b, sep) == [a] + Split(b, sep)
  {
    if a == [] {
      assert a + [sep] + b == [sep] + b;
      assert ([sep] + b)[1..] == b;
    } else {
      SplitAtSep(a[1..], b, sep);
      assert (a + [sep] + b)[1..] == a[1..] + [sep] + b;
      assert [a[0]] + a[1..] == a;
    }
  }

  /** Split gives one more piece than there are separators. */
  lemma {:induction false} SplitLength(s: string, sep: char)
    ensures |Split(s, sep)| == Count(s, sep) + 1
  {
    if s != [] {
      SplitLength(s[1..], sep);
    }
  }

  // ---------------------------------------------------------------------------
  // trim, padEnd, repeat

  function TrimStart(s: string): (r: string)
    ensures |r| <= |s| && r == s[|s| - |r|..]
    ensures r != [] ==> !IsJsWhitespace(r[0])
    ensures forall i :: 0 <= i < |s| - |r| ==> IsJsWhitespace(s[i])
  {
    if s != [] && IsJsWhitespace(s[0]) then TrimStart(s[1..]) else s
  }

  function TrimEnd(s: string): (r: string)
    ensures |r| <= |s| && r == s[..|r|]
    ensures r != [] ==> !IsJsWhitespace(r[|r| - 1])
    ensures forall i :: |r| <= i < |s| ==> IsJsWhitespace(s[i])
  {
    if s != [] && IsJsWhitespace(s[|s| - 1]) then TrimEnd(s[..|s| - 1]) else s
  }

  /** String.prototype.trim: the middle of `s`, between whitespace it strips at both ends. */
  function Trim(s: string): (r: string)
    ensures |r| <= |s|
    ensures r != [] ==> !IsJsWhitespace(r[0]) && !IsJsWhitespace(r[|r| - 1])
    ensures exists i :: 0 <= i <= |s| && r <= s[i..]
              && (forall k :: 0 <= k < i ==> IsJsWhitespace(s[k]))
              && (forall k :: i + |r| <= k < |s| ==> IsJsWhitespace(s[k]))
  {
    var t := TrimStart(s);
    TrimParts(s, t);
    TrimEnd(t)
  }

  /** What TrimStart cuts off in front and TrimEnd cuts off behind is whitespace. */
  lemma TrimParts(s: string, t: string)
    requires t == TrimStart(s)
    ensures TrimEnd(t) <= s[|s| - |t|..]
    ensures forall k :: 0 <= k < |s| - |t| ==> IsJsWhitespace(s[k])
    ensures forall k :: |s| - |t| + |TrimEnd(t)| <= k < |s| ==> IsJsWhitespace(s[k])
  {
    var i := |s| - |t|;
    assert t == s[i..];
    forall k | i + |TrimEnd(t)| <= k < |s| ensures IsJsWhitespace(s[k]) {
      assert s[k] == t[k - i];
    }
  }

  /** Trimming leaves nothing exactly when the string is all whitespace. */
  lemma TrimEmptyIffBlank(s: string)
    ensures Trim(s) == [] <==> forall k :: 0 <= k < |s| ==> IsJsWhitespace(s[k])
  {
    var t := TrimStart(s);
    TrimParts(s, t);
    var r := TrimEnd(t);
    if r != [] {
      assert r[0] == s[|s| - |t|..][0];
    }
  }

  function Repeat(c: char, n: nat): (r: string)
    ensures |r| == n
    ensures forall i :: 0 <= i < n ==> r[i] == c
  {
    if n == 0 then [] else [c] + Repeat(c, n - 1)
  }

  /** String.prototype.padEnd with spaces: one space at a time up to `width`. */
  function PadEnd(s: string, width: nat): (r: string)
    ensures |r| == if |s| < width then width else |s|
  {
    if width <= |s| then s else PadEnd(s, width - 1) + " "
  }

  /** Padding keeps the text in front and adds only spaces. */
  lemma {:induction false} PadEndContents(s: string, width: nat)
    ensures PadEnd(s, width)[..|s|] == s
    ensures forall i :: |s| <= i < |PadEnd(s, width)| ==> PadEnd(s, width)[i] == ' '
  {
    if |s| < width {
      PadEndContents(s, width - 1);
      var p := PadEnd(s, width - 1);
      assert PadEnd(s, width) == p + " ";
      assert (p + " ")[..|s|] == p[..|s|];
    }
  }

  // ---------------------------------------------------------------------------
  // Decimal rendering (Number.prototype.toString for integers)

  function DigitChar(d: nat): (c: char)
    requires d < 10
    ensures IsDigit(c)
  {
    ('0' as int + d) as char
  }

  function NatToString(n: nat): (r: string)
    ensures |r| >= 1
    ensures forall i :: 0 <= i < |r| ==> IsDigit(r[i])
    decreases n
  {
    if n < 10 then [DigitChar(n)] else NatToString(n / 10) + [DigitChar(n % 10)]
  }

  function IntToString(n: int): (r: string)
    ensures |r| >= 1
  {
    if n < 0 then "-" + NatToString(-n) else NatToString(n)
  }

  // ---------------------------------------------------------------------------
  // Hex

  const HexAlphabet: string := "0123456789abcdef"

  /** A digit of lower-case hex. */
  predicate IsLowerHex(c: char) {
    IsDigit(c) || ('a' <= c <= 'f')
  }

  predicate IsHexChar(c: char) {
    IsDigit(c) || ('a' <= c <= 'f') || ('A' <= c <= 'F')
  }

  function HexValue(c: char): (v: nat)
    requires IsHexChar(c)
    ensures v < 16
  {
    if IsDigit(c) then c as int - '0' as int
    else if 'a' <= c <= 'f' then c as int - 'a' as int + 10
    else c as int - 'A' as int + 10
  }

  /** Lowercase hex, as `toString('hex')` and CryptoJS's WordArray.toString() print it. */
  function HexEncode(b: seq<byte>): (r: string)
    ensures |r| == 2 * |b|
    ensures forall i :: 0 <= i < |r| ==> IsLowerHex(r[i])
  {
    if b == [] then []
    else
      HexAlphabetValue(b[0] as int / 16);
      HexAlphabetValue(b[0] as int % 16);
      [HexAlphabet[b[0] / 16], HexAlphabet[b[0] % 16]] + HexEncode(b[1..])
  }

  /** Node's `Buffer.from(s, 'hex')`: decodes pairs up to the first pair that is not hex. */
  function NodeHexDecode(s: string): (r: seq<byte>)
    ensures 2 * |r| <= |s|
  {
    if |s| < 2 || !IsHexChar(s[0]) || !IsHexChar(s[1]) then []
    else [HexValue(s[0]) * 16 + HexValue(s[1])] + NodeHexDecode(s[2..])
  }

  lemma HexAlphabetValue(d: nat)
    requires d < 16
    ensures IsLowerHex(HexAlphabet[d]) && IsHexChar(HexAlphabet[d]) && HexValue(HexAlphabet[d]) == d
  {
  }

  /** Decoding undoes encoding. */
  lemma {:induction false} HexRoundTrip(b: seq<byte>)
    ensures NodeHexDecode(HexEncode(b)) == b
  {
    if b != [] {
      var rest := HexEncode(b[1..]);
      assert HexEncode(b) == [HexAlphabet[b[0] / 16], HexAlphabet[b[0] % 16]] + rest;
      DecodePair(b[0], rest);
      HexRoundTrip(b[1..]);
      assert [b[0]] + b[1..] == b;
    }
  }

  /** The two digits of a byte, followed by anything, decode to that byte followed by the decoding of the rest. */
  lemma DecodePair(x: byte, rest: string)
    ensures NodeHexDecode([HexAlphabet[x / 16], HexAlphabet[x % 16]] + rest) == [x] + NodeHexDecode(rest)
  {
    var s := [HexAlphabet[x / 16], HexAlphabet[x % 16]] + rest;
    HexAlphabetValue(x / 16);
    HexAlphabetValue(x % 16);
    assert s[2..] == rest;
  }

  lemma HexHasNoColon(b: seq<byte>)
    ensures ':' !in HexEncode(b)
  {
    var s := HexEncode(b);
    forall i | 0 <= i < |s| ensures s[i] != ':' {
      assert IsLowerHex(s[i]);
    }
  }

  // ---------------------------------------------------------------------------
  // Code-point order on strings (SQLite's BINARY collation compares the UTF-8
  // bytes, which orders strings exactly as their code points do)

  predicate LexLess(a: string, b: string)
    decreases |a|
  {
    if a == [] then b != []
    else if b == [] then false
    else if a[0] != b[0] then a[0] < b[0]
    else LexLess(a[1..], b[1..])
  }

  lemma {:induction false} LexLessIrreflexive(a: string)
    ensures !LexLess(a, a)
  {
    if a != [] { LexLessIrreflexive(a[1..]); }
  }

  lemma {:induction false} LexLessTransitive(a: string, b: string, c: string)
    requires LexLess(a, b) && LexLess(b, c)
    ensures LexLess(a, c)
    decreases |a|
  {
    if a != [] && b != [] && c != [] && a[0] == b[0] && b[0] == c[0] {
      LexLessTransitive(a[1..], b[1..], c[1..]);
    }
  }

  lemma {:induction false} LexLessTotal(a: string, b: string)
    requires a != b
    ensures LexLess(a, b) || LexLess(b, a)
    decreases |a|
  {
    if a != [] && b != [] && a[0] == b[0] {
      assert a == [a[0]] + a[1..] && b == [b[0]] + b[1..];
      LexLessTotal(a[1..], b[1..]);
    }
  }

  /** Appending to a string keeps every slice of it. */
  lemma SliceAppend(line: string, more: string, lo: nat, hi: nat)
    requires lo <= hi <= |line|
    ensures (line + more)[lo..hi] == line[lo..hi]
  {
  }

  /** A slice of the appended part stands shifted by the length of the front. */
  lemma SlicePrepend(line: string, more: string, lo: nat, hi: nat)
    requires lo <= hi <= |more|
    ensures (line + more)[|line| + lo..|line| + hi] == more[lo..hi]
  {
  }

  /** `start` followed by the first `n` pieces. */
  function JoinFrom(start: string, pieces: seq<string>, n: nat): (r: string)
    requires n <= |pieces|
    ensures |r| >= |start|
  {
    if n == 0 then start else JoinFrom(start, pieces, n - 1) + pieces[n - 1]
  }

  /** Piece `i` stands in the join right after the pieces before it. */
  lemma {:induction false} JoinSlice(start: string, pieces: seq<string>, i: nat, n: nat, lo: nat, len: nat)
    requires i < n <= |pieces| && lo + len <= |pieces[i]|
    ensures |JoinFrom(start, pieces, i)| + lo + len <= |JoinFrom(start, pieces, n)|
    ensures JoinFrom(start, pieces, n)[|JoinFrom(start, pieces, i)| + lo..|JoinFrom(start, pieces, i)| + lo + len]
            == pieces[i][lo..lo + len]
    decreases n
  {
    var before := JoinFrom(start, pieces, i);
    if n == i + 1 {
      SlicePrepend(before, pieces[i], lo, lo + len);
    } else {
      JoinSlice(start, pieces, i, n - 1, lo, len);
      SliceAppend(JoinFrom(start, pieces, n - 1), pieces[n - 1], |before| + lo, |before| + lo + len);
    }
  }
}
