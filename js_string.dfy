/** The parts of JavaScript's string semantics that the server code relies on:
    `trim`, `toLowerCase`, `includes`, `indexOf`, `lastIndexOf`, `substring`,
    the UTF-16 `length` that Mongoose's `maxlength`/`minlength` count, and
    `encodeURIComponent`. A Dafny `char` is a Unicode scalar value. */
module JsString {

  /** ECMAScript WhiteSpace and LineTerminator code points: what `trim` removes
      and what the regular-expression class `\s` matches. */
  predicate IsWhitespace(c: char) {
    c == '\t' || c == '\n' || c == '\U{000B}' || c == '\U{000C}' || c == '\r' || c == ' ' ||
    c == '\U{00A0}' || c == '\U{1680}' || ('\U{2000}' <= c <= '\U{200A}') ||
    c == '\U{2028}' || c == '\U{2029}' || c == '\U{202F}' || c == '\U{205F}' ||
    c == '\U{3000}' || c == '\U{FEFF}'
  }

  ghost predicate AllWhitespace(s: string) {
    forall i :: 0 <= i < |s| ==> IsWhitespace(s[i])
  }

  /** Neither end of `s` is whitespace. */
  ghost predicate Trimmed(s: string) {
    s == [] || (!IsWhitespace(s[0]) && !IsWhitespace(s[|s| - 1]))
  }

  /** `r` sits at position `k` of `s` with only whitespace before and after it. */
  ghost predicate PaddedAt(r: string, s: string, k: int) {
    0 <= k <= |s| - |r| && s[k..k + |r|] == r && AllWhitespace(s[..k]) && AllWhitespace(s[k + |r|..])
  }

  /** `r` is what remains of `s` once every leading and trailing whitespace code point is removed. */
  ghost predicate IsTrimOf(r: string, s: string) {
    Trimmed(r) && exists k :: PaddedAt(r, s, k)
  }

  /** `String.prototype.trim`: whitespace is removed from the front, then from the back,
      one code point at a time. */
  function Trim(s: string): (r: string)
    ensures |r| <= |s|
    ensures Trimmed(r)
    decreases |s|
  {
    if s != [] && IsWhitespace(s[0]) then Trim(s[1..])
    else if s != [] && IsWhitespace(s[|s| - 1]) then Trim(s[..|s| - 1])
    else s
  }

  /** What `trim` leaves is `s` without its padding: the rest of `s` around it is whitespace. */
  lemma {:induction false} TrimIsTrimOf(s: string)
    ensures IsTrimOf(Trim(s), s)
    decreases |s|
  {
    var r := Trim(s);
    if s != [] && IsWhitespace(s[0]) {
      TrimIsTrimOf(s[1..]);
      var k :| PaddedAt(r, s[1..], k);
      PadFront(r, s, k);
    } else if s != [] && IsWhitespace(s[|s| - 1]) {
      TrimIsTrimOf(s[..|s| - 1]);
      var k :| PaddedAt(r, s[..|s| - 1], k);
      PadBack(r, s, k);
    } else {
      assert PaddedAt(s, s, 0);
    }
  }

  /** One more whitespace code point in front keeps `r` padded, one position further on. */
  lemma PadFront(r: string, s: string, k: int)
    requires s != [] && IsWhitespace(s[0]) && PaddedAt(r, s[1..], k)
    ensures PaddedAt(r, s, k + 1)
  {
    assert s[k + 1..k + 1 + |r|] == s[1..][k..k + |r|];
    assert s[k + 1 + |r|..] == s[1..][k + |r|..];
    var head := s[..k + 1];
    assert head == [s[0]] + s[1..][..k];
    forall i | 0 <= i < |head| ensures IsWhitespace(head[i]) {
      if i > 0 {
        assert head[i] == s[1..][..k][i - 1];
      }
    }
  }

  /** One more whitespace code point at the back keeps `r` padded at the same position. */
  lemma PadBack(r: string, s: string, k: int)
    requires s != [] && IsWhitespace(s[|s| - 1]) && PaddedAt(r, s[..|s| - 1], k)
    ensures PaddedAt(r, s, k)
  {
    var t := s[..|s| - 1];
    assert s[k..k + |r|] == t[k..k + |r|];
    assert s[..k] == t[..k];
    var tail := s[k + |r|..];
    assert tail == t[k + |r|..] + [s[|s| - 1]];
    forall i | 0 <= i < |tail| ensures IsWhitespace(tail[i]) {
      if i < |tail| - 1 {
        assert tail[i] == t[k + |r|..][i];
      }
    }
  }

  /** A string that neither starts nor ends with whitespace is its own trim. */
  lemma TrimUnpadded(s: string)
    requires s == [] || (!IsWhitespace(s[0]) && !IsWhitespace(s[|s| - 1]))
    ensures Trim(s) == s
  {
  }

  /** The lower-case mapping of one code point, for the code points whose lower case is ASCII:
      the letters A-Z and the KELVIN SIGN (U+212A), which JavaScript folds to 'k'. Every
      other code point is kept. Its JavaScript lower case is either not ASCII or, for U+0130,
      'i' followed by U+0307; neither can complete a match against the ASCII keywords and
      keys this code compares lowered text with. */
  function LowerChar(c: char): (r: char)
    ensures ('A' <= c <= 'Z') ==> r as int == c as int + 32
    ensures !('A' <= c <= 'Z') && c != '\U{212A}' ==> r == c
    ensures !('A' <= r <= 'Z')
  {
    if 'A' <= c <= 'Z' then (c as int + 32) as char
    else if c == '\U{212A}' then 'k'
    else c
  }

  /** `String.prototype.toLowerCase`, code point by code point. */
  function ToLower(s: string): (r: string)
    ensures |r| == |s|
    ensures forall i :: 0 <= i < |s| ==> r[i] == LowerChar(s[i])
  {
    seq(|s|, i requires 0 <= i < |s| => LowerChar(s[i]))
  }

  lemma ToLowerIdempotent(s: string)
    ensures ToLower(ToLower(s)) == ToLower(s)
  {
  }

  /** A string without upper-case letters is its own lower case. */
  lemma ToLowerOfLower(s: string)
    requires forall i :: 0 <= i < |s| ==> !('A' <= s[i] <= 'Z') && s[i] != '\U{212A}'
    ensures ToLower(s) == s
  {
  }

  /** Lower-casing neither creates nor removes whitespace, so it commutes with `trim`. */
  lemma {:induction false} LowerKeepsWhitespace(c: char)
    ensures IsWhitespace(LowerChar(c)) <==> IsWhitespace(c)
  {
  }

  /** Lower-casing keeps a trimmed string trimmed. */
  lemma LowerKeepsTrimmed(t: string)
    requires Trimmed(t)
    ensures Trimmed(ToLower(t))
  {
    if t != [] {
      LowerKeepsWhitespace(t[0]);
      LowerKeepsWhitespace(t[|t| - 1]);
    }
  }

  /** The reference definition of "`sub` occurs in `s`". */
  ghost predicate HasSubstring(s: string, sub: string) {
    exists i :: OccursAt(s, sub, i)
  }

  ghost predicate OccursAt(s: string, sub: string, i: int) {
    0 <= i <= |s| - |sub| && s[i..i + |sub|] == sub
  }

  /** `String.prototype.includes`, computed. */
  predicate Includes(s: string, sub: string)
    decreases |s|
  {
    if |sub| > |s| then false
    else if s[..|sub|] == sub then true
    else Includes(s[1..], sub)
  }

  lemma {:induction false} IncludesIsSubstring(s: string, sub: string)
    ensures Includes(s, sub) <==> HasSubstring(s, sub)
    decreases |s|
  {
    if |sub| > |s| {
    } else if s[..|sub|] == sub {
      assert OccursAt(s, sub, 0);
    } else {
      IncludesIsSubstring(s[1..], sub);
      if HasSubstring(s, sub) {
        var i :| OccursAt(s, sub, i);
        assert i != 0;
        OccursInTail(s, sub, i);
      }
      if HasSubstring(s[1..], sub) {
        var i :| OccursAt(s[1..], sub, i);
        OccursBelowTail(s, sub, i);
      }
    }
  }

  lemma OccursInTail(s: string, sub: string, i: int)
    requires OccursAt(s, sub, i) && i > 0
    ensures OccursAt(s[1..], sub, i - 1)
  {
    assert s[1..][i - 1..i - 1 + |sub|] == s[i..i + |sub|];
  }

  lemma OccursBelowTail(s: string, sub: string, i: int)
    requires s != [] && OccursAt(s[1..], sub, i)
    ensures OccursAt(s, sub, i + 1)
  {
    assert s[i + 1..i + 1 + |sub|] == s[1..][i..i + |sub|];
  }

  /** `String.prototype.indexOf` for a one-character needle: the first position, or -1. */
  function IndexOf(s: string, c: char): (r: int)
    ensures -1 <= r < |s|
    ensures r == -1 <==> forall m :: 0 <= m < |s| ==> s[m] != c
    ensures r >= 0 ==> s[r] == c && forall m :: 0 <= m < r ==> s[m] != c
  {
    if s == [] then -1
    else if s[0] == c then 0
    else
      var r := IndexOf(s[1..], c);
      if r == -1 then -1 else r + 1
  }

  /** `String.prototype.lastIndexOf` for a one-character needle: the last position, or -1. */
  function LastIndexOf(s: string, c: char): (r: int)
    ensures -1 <= r < |s|
    ensures r == -1 <==> forall m :: 0 <= m < |s| ==> s[m] != c
    ensures r >= 0 ==> s[r] == c && forall m :: r < m < |s| ==> s[m] != c
  {
    if s == [] then -1
    else if s[|s| - 1] == c then |s| - 1
    else LastIndexOf(s[..|s| - 1], c)
  }

  /** The first occurrence is the one `indexOf` reports. */
  lemma IndexOfFinds(s: string, c: char, i: int)
    requires 0 <= i < |s| && s[i] == c && forall m :: 0 <= m < i ==> s[m] != c
    ensures IndexOf(s, c) == i
  {
  }

  /** The last occurrence is the one `lastIndexOf` reports. */
  lemma LastIndexOfFinds(s: string, c: char, j: int)
    requires 0 <= j < |s| && s[j] == c && forall m :: j < m < |s| ==> s[m] != c
    ensures LastIndexOf(s, c) == j
  {
  }

  /** A string that contains `sub` contains each of its characters, so one that misses a
      character of `sub` does not contain it. */
  lemma {:induction false} MissingCharExcludes(s: string, sub: string, k: int)
    requires 0 <= k < |sub| && sub[k] !in s
    ensures !Includes(s, sub)
    decreases |s|
  {
    if |sub| <= |s| {
      assert s[..|sub|][k] == s[k];
      assert s == [s[0]] + s[1..];
      MissingCharExcludes(s[1..], sub, k);
    }
  }

  function Clamp(x: int, n: nat): (r: nat)
    ensures r <= n
    ensures 0 <= x <= n ==> r == x
  {
    if x < 0 then 0 else if x > n then n else x
  }

  /** `String.prototype.substring`: both positions are clamped to the string and swapped
      when the first is the larger. */
  function Substring(s: string, start: int, end: int): (r: string)
    ensures 0 <= start <= end <= |s| ==> r == s[start..end]
    ensures 0 <= end <= start <= |s| ==> r == s[end..start]
  {
    var a := Clamp(start, |s|);
    var b := Clamp(end, |s|);
    if a <= b then s[a..b] else s[b..a]
  }

  /** The UTF-16 length JavaScript reports: code points outside the Basic Multilingual Plane count twice. */
  function Utf16Length(s: string): (n: nat)
    ensures |s| <= n <= 2 * |s|
  {
    if s == [] then 0 else (if s[0] as int > 0xFFFF then 2 else 1) + Utf16Length(s[1..])
  }

  function DigitChar(d: nat): (c: char)
    requires d < 10
    ensures '0' <= c <= '9' && c as int == '0' as int + d
  {
    ('0' as int + d) as char
  }

  predicate AllDigits(s: string) {
    forall i :: 0 <= i < |s| ==> '0' <= s[i] <= '9'
  }

  /** The number a string of decimal digits denotes, most significant digit first. */
  function DigitsValue(s: string): nat
    requires AllDigits(s)
  {
    if s == [] then 0 else 10 * DigitsValue(s[..|s| - 1]) + (s[|s| - 1] as int - '0' as int)
  }

  /** A decimal numeral in shortest form: at least one digit and no leading zero. */
  predicate Numeral(s: string) {
    s != [] && AllDigits(s) && (s[0] == '0' ==> s == "0")
  }

  /** The decimal numeral of `n`. */
  function NatToString(n: nat): (r: string)
    ensures Numeral(r) && DigitsValue(r) == n
    ensures n > 0 ==> r[0] != '0'
  {
    if n < 10 then
      var r := [DigitChar(n)];
      assert r[..|r| - 1] == [];
      r
    else
      var front := NatToString(n / 10);
      var r := front + [DigitChar(n % 10)];
      assert r[..|r| - 1] == front;
      assert r[0] == front[0];
      r
  }

  /** `Number.prototype.toString` for an integer: the numeral of its magnitude, after a
      minus sign when it is negative. */
  function IntToString(n: int): (r: string)
    ensures |r| > 0
    ensures n >= 0 ==> Numeral(r) && DigitsValue(r) == n
    ensures n < 0 ==> r[0] == '-' && Numeral(r[1..]) && DigitsValue(r[1..]) == -n
  {
    if n < 0 then
      var r := "-" + NatToString(-n);
      assert r[1..] == NatToString(-n);
      r
    else NatToString(n)
  }

  /** The characters `encodeURIComponent` leaves as they are. */
  predicate Unreserved(c: char) {
    ('A' <= c <= 'Z') || ('a' <= c <= 'z') || ('0' <= c <= '9') ||
    c == '-' || c == '_' || c == '.' || c == '!' || c == '~' || c == '*' || c == '\'' || c == '(' || c == ')'
  }

  predicate UpperHexDigit(c: char) {
    ('0' <= c <= '9') || ('A' <= c <= 'F')
  }

  function HexDigit(d: nat): (c: char)
    requires d < 16
    ensures UpperHexDigit(c)
  {
    if d < 10 then DigitChar(d) else ('A' as int + (d - 10)) as char
  }

  /** The UTF-8 encoding of one Unicode scalar value. */
  function Utf8(c: char): (bytes: seq<nat>)
    ensures 1 <= |bytes| <= 4
    ensures forall i :: 0 <= i < |bytes| ==> bytes[i] < 256
  {
    var n := c as int;
    if n < 0x80 then [n]
    else if n < 0x800 then [0xC0 + n / 0x40, 0x80 + n % 0x40]
    else if n < 0x10000 then [0xE0 + n / 0x1000, 0x80 + (n / 0x40) % 0x40, 0x80 + n % 0x40]
    else [0xF0 + n / 0x40000, 0x80 + (n / 0x1000) % 0x40, 0x80 + (n / 0x40) % 0x40, 0x80 + n % 0x40]
  }

  /** `%XY` for each byte, with upper-case hexadecimal digits. */
  function PercentEncode(bytes: seq<nat>): (r: string)
    requires forall i :: 0 <= i < |bytes| ==> bytes[i] < 256
    ensures |r| == 3 * |bytes|
  {
    if bytes == [] then []
    else ['%', HexDigit(bytes[0] / 16), HexDigit(bytes[0] % 16)] + PercentEncode(bytes[1..])
  }

  /** `encodeURIComponent` (JavaScript throws only for a lone surrogate, which a Dafny `char` cannot hold). */
  function EncodeURIComponent(s: string): (r: string)
  {
    if s == [] then []
    else (if Unreserved(s[0]) then [s[0]] else PercentEncode(Utf8(s[0]))) + EncodeURIComponent(s[1..])
  }

  /** Every character either stays as it is or becomes a run of `%XY` escapes. */
  ghost predicate UriSafe(r: string) {
    forall i :: 0 <= i < |r| ==> Unreserved(r[i]) || r[i] == '%' || UpperHexDigit(r[i])
  }

  lemma {:induction false} PercentEncodeIsUriSafe(bytes: seq<nat>)
    requires forall i :: 0 <= i < |bytes| ==> bytes[i] < 256
    ensures UriSafe(PercentEncode(bytes))
  {
    if bytes != [] {
      PercentEncodeIsUriSafe(bytes[1..]);
      var head := ['%', HexDigit(bytes[0] / 16), HexDigit(bytes[0] % 16)];
      assert UriSafe(head);
      UriSafeConcat(head, PercentEncode(bytes[1..]));
    }
  }

  lemma UriSafeConcat(a: string, b: string)
    requires UriSafe(a) && UriSafe(b)
    ensures UriSafe(a + b)
  {
    assert forall i :: 0 <= i < |a + b| ==> (a + b)[i] == (if i < |a| then a[i] else b[i - |a|]);
  }

  /** The output of `encodeURIComponent` holds only unreserved characters, `%` and hexadecimal digits. */
  lemma {:induction false} EncodeURIComponentIsUriSafe(s: string)
    ensures UriSafe(EncodeURIComponent(s))
  {
    if s != [] {
      EncodeURIComponentIsUriSafe(s[1..]);
      var head := if Unreserved(s[0]) then [s[0]] else PercentEncode(Utf8(s[0]));
      if !Unreserved(s[0]) {
        PercentEncodeIsUriSafe(Utf8(s[0]));
      }
      UriSafeConcat(head, EncodeURIComponent(s[1..]));
    }
  }

  /** A string made of unreserved characters only is left unchanged. */
  lemma {:induction false} EncodeURIComponentKeepsUnreserved(s: string)
    requires forall i :: 0 <= i < |s| ==> Unreserved(s[i])
    ensures EncodeURIComponent(s) == s
  {
    if s != [] {
      EncodeURIComponentKeepsUnreserved(s[1..]);
      assert s == [s[0]] + s[1..];
    }
  }
}
