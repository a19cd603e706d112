/** String helpers shared by the model: whitespace trimming as JavaScript's
    `String.prototype.trim` and Python's `str.strip` do it, ASCII case mapping,
    and prefix tests. */
module Text {

  /** The code points JavaScript's `trim` removes: WhiteSpace (including every
      space separator) and LineTerminator. */
  predicate IsJsSpace(c: char) {
    var n := c as int;
    n == 0x09 || n == 0x0A || n == 0x0B || n == 0x0C || n == 0x0D || n == 0x20
    || n == 0xA0 || n == 0x1680 || (0x2000 <= n <= 0x200A) || n == 0x2028
    || n == 0x2029 || n == 0x202F || n == 0x205F || n == 0x3000 || n == 0xFEFF
  }

  /** The code points Python's `str.isspace` accepts, which `str.strip()` removes. */
  predicate IsPySpace(c: char) {
    var n := c as int;
    (0x09 <= n <= 0x0D) || (0x1C <= n <= 0x20) || n == 0x85 || n == 0xA0
    || n == 0x1680 || (0x2000 <= n <= 0x200A) || n == 0x2028 || n == 0x2029
    || n == 0x202F || n == 0x205F || n == 0x3000
  }

  /** Removes the maximal run of `isSpace` characters at the start of `s`. */
  function DropLeading(s: string, isSpace: char -> bool): (r: string)
    ensures |r| <= |s| && (r == [] || !isSpace(r[0]))
  {
    if s != [] && isSpace(s[0]) then DropLeading(s[1..], isSpace) else s
  }

  /** Removes the maximal run of `isSpace` characters at the end of `s`. */
  function DropTrailing(s: string, isSpace: char -> bool): (r: string)
    ensures |r| <= |s| && (r == [] || !isSpace(r[|r| - 1]))
  {
    if s != [] && isSpace(s[|s| - 1]) then DropTrailing(s[..|s| - 1], isSpace) else s
  }

  /** What `DropLeading` removes is a prefix of spaces. */
  lemma {:induction false} DropLeadingSuffix(s: string, isSpace: char -> bool)
    ensures var r := DropLeading(s, isSpace);
            && r == s[|s| - |r|..]
            && forall k :: 0 <= k < |s| - |r| ==> isSpace(s[k])
  {
    if s != [] && isSpace(s[0]) {
      DropLeadingSuffix(s[1..], isSpace);
    }
  }

  /** What `DropTrailing` removes is a suffix of spaces. */
  lemma {:induction false} DropTrailingPrefix(s: string, isSpace: char -> bool)
    ensures var r := DropTrailing(s, isSpace);
            && r == s[..|r|]
            && forall k :: |r| <= k < |s| ==> isSpace(s[k])
  {
    if s != [] && isSpace(s[|s| - 1]) {
      DropTrailingPrefix(s[..|s| - 1], isSpace);
    }
  }

  /** Both ends stripped of `isSpace` characters. */
  function Strip(s: string, isSpace: char -> bool): (r: string)
    ensures |r| <= |s|
    ensures r == [] || (!isSpace(r[0]) && !isSpace(r[|r| - 1]))
  {
    var t := DropLeading(s, isSpace);
    DropTrailingPrefix(t, isSpace);
    DropTrailing(t, isSpace)
  }

  /** Stripping keeps the slice of `s` left after removing every space character
      before the first and after the last non-space. */
  lemma StripSlice(s: string, isSpace: char -> bool)
    ensures exists i, j ::
              && 0 <= i <= j <= |s| && Strip(s, isSpace) == s[i..j]
              && (forall k :: 0 <= k < i ==> isSpace(s[k]))
              && (forall k :: j <= k < |s| ==> isSpace(s[k]))
  {
    var t := DropLeading(s, isSpace);
    var r := DropTrailing(t, isSpace);
    DropLeadingSuffix(s, isSpace);
    DropTrailingPrefix(t, isSpace);
    var i, j := |s| - |t|, |s| - |t| + |r|;
    assert Strip(s, isSpace) == r == s[i..j];
    assert forall k :: 0 <= k < i ==> isSpace(s[k]);
    forall k | j <= k < |s| ensures isSpace(s[k]) {
      assert s[k] == t[k - i];
    }
    assert 0 <= i <= j <= |s|;
  }

  /** JavaScript `s.trim()`. */
  function Trim(s: string): string {
    Strip(s, IsJsSpace)
  }

  /** Python `s.strip()`. */
  function PyStrip(s: string): string {
    Strip(s, IsPySpace)
  }

  /** A string is left unchanged by stripping exactly when neither end is a space. */
  lemma StripFixpoint(s: string, isSpace: char -> bool)
    ensures Strip(s, isSpace) == s <==> (s == [] || (!isSpace(s[0]) && !isSpace(s[|s| - 1])))
  {
    if s != [] && !isSpace(s[0]) && !isSpace(s[|s| - 1]) {
      assert DropLeading(s, isSpace) == s;
      assert DropTrailing(s, isSpace) == s;
    }
  }

  /** Stripping twice is stripping once. */
  lemma StripIdempotent(s: string, isSpace: char -> bool)
    ensures Strip(Strip(s, isSpace), isSpace) == Strip(s, isSpace)
  {
    StripFixpoint(Strip(s, isSpace), isSpace);
  }

  predicate IsAsciiUpper(c: char) {
    'A' <= c <= 'Z'
  }

  predicate IsAsciiLower(c: char) {
    'a' <= c <= 'z'
  }

  function LowerChar(c: char): char {
    if IsAsciiUpper(c) then (c as int + 32) as char else c
  }

  function UpperChar(c: char): char {
    if IsAsciiLower(c) then (c as int - 32) as char else c
  }

  /** `toLowerCase()` / `lower()`, restricted to the ASCII letters. */
  function Lower(s: string): string {
    seq(|s|, i requires 0 <= i < |s| => LowerChar(s[i]))
  }

  /** `toUpperCase()`, restricted to the ASCII letters. */
  function Upper(s: string): string {
    seq(|s|, i requires 0 <= i < |s| => UpperChar(s[i]))
  }

  predicate HasNoUpper(s: string) {
    forall i :: 0 <= i < |s| ==> !IsAsciiUpper(s[i])
  }

  /** Lowercasing leaves no upper-case letter, and it changes exactly the
      strings that have one. */
  lemma LowerNormalises(s: string)
    ensures HasNoUpper(Lower(s))
    ensures Lower(s) == s <==> HasNoUpper(s)
  {
    if Lower(s) == s {
      forall i | 0 <= i < |s| ensures !IsAsciiUpper(s[i]) {
        assert Lower(s)[i] == LowerChar(s[i]);
      }
    }
  }

  /** JavaScript's `length`: the number of UTF-16 code units, two for a
      character outside the Basic Multilingual Plane. */
  function Utf16Length(s: string): (n: nat)
    ensures |s| <= n <= 2 * |s|
    ensures (forall i :: 0 <= i < |s| ==> s[i] as int < 0x1_0000) ==> n == |s|
  {
    if s == [] then 0 else Utf16Length(s[1..]) + if s[0] as int < 0x1_0000 then 1 else 2
  }

  predicate StartsWith(s: string, prefix: string) {
    |prefix| <= |s| && s[..|prefix|] == prefix
  }

  predicate EndsWith(s: string, suffix: string) {
    |suffix| <= |s| && s[|s| - |suffix|..] == suffix
  }
}
