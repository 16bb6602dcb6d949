/** The JavaScript string built-ins the account page relies on:
    `String.prototype.trim`, the `length` property and `split(sep)[0]`.
    A Dafny string is a sequence of Unicode scalar values; a JavaScript
    string is a sequence of UTF-16 code units, so `length` is computed
    by counting two units for every code point above U+FFFF. */
module JsString {

  /** A WhiteSpace or LineTerminator code point of ECMAScript, the set that
      `trim` strips: TAB, LF, VT, FF, CR, SPACE, NO-BREAK SPACE, the other
      space separators (category Zs), LINE SEPARATOR, PARAGRAPH SEPARATOR
      and ZERO WIDTH NO-BREAK SPACE. */
  predicate IsJsWhitespace(c: char) {
    var n := c as int;
    (0x09 <= n <= 0x0D) || n == 0x20 || n == 0xA0 || n == 0x1680
    || (0x2000 <= n <= 0x200A) || n == 0x2028 || n == 0x2029
    || n == 0x202F || n == 0x205F || n == 0x3000 || n == 0xFEFF
  }

  /** Every character of `s` is whitespace (the empty string included). */
  predicate IsBlank(s: string) {
    forall i :: 0 <= i < |s| ==> IsJsWhitespace(s[i])
  }

  /** `s` with its leading whitespace removed. */
  function TrimStart(s: string): (r: string)
    ensures |r| <= |s| && r == s[|s| - |r|..]
    ensures IsBlank(s[..|s| - |r|])
    ensures r != [] ==> !IsJsWhitespace(r[0])
  {
    if s != [] && IsJsWhitespace(s[0]) then
      var r := TrimStart(s[1..]);
      assert s[..|s| - |r|] == [s[0]] + s[1..][..|s| - 1 - |r|];
      r
    else
      s
  }

  /** `s` with its trailing whitespace removed. */
  function TrimEnd(s: string): (r: string)
    ensures |r| <= |s| && r == s[..|r|]
    ensures IsBlank(s[|r|..])
    ensures r != [] ==> !IsJsWhitespace(r[|r| - 1])
  {
    if s != [] && IsJsWhitespace(s[|s| - 1]) then
      var r := TrimEnd(s[..|s| - 1]);
      assert s[|r|..] == s[..|s| - 1][|r|..] + [s[|s| - 1]];
      r
    else
      s
  }

  /** `s.trim()`: whitespace removed from both ends. */
  function Trim(s: string): (r: string)
    ensures |r| <= |s|
    ensures r != [] ==> !IsJsWhitespace(r[0]) && !IsJsWhitespace(r[|r| - 1])
  {
    TrimEnd(TrimStart(s))
  }

  /** What `trim` removes: `Trim(s)` is a slice of `s` whose cut-off prefix
      and suffix are both blank. */
  lemma {:induction false} TrimIsBlankTrimmedSlice(s: string)
    ensures exists i, j :: 0 <= i <= j <= |s| && Trim(s) == s[i..j] && IsBlank(s[..i]) && IsBlank(s[j..])
  {
    var t := TrimStart(s);
    var r := TrimEnd(t);
    var i, j := |s| - |t|, |s| - |t| + |r|;
    assert r == s[i..j];
    assert s[j..] == t[|r|..];
  }

  /** `trim` yields the empty string exactly when the string is blank. */
  lemma {:induction false} TrimEmptyIffBlank(s: string)
    ensures Trim(s) == [] <==> IsBlank(s)
  {
    var t := TrimStart(s);
    if t == [] {
      assert s[..|s|] == s;
    } else {
      assert s[|s| - |t|] == t[0];
      assert TrimEnd(t) != [];
    }
  }

  /** `trim` leaves a string unchanged exactly when it neither starts nor
      ends with whitespace. */
  lemma {:induction false} TrimIdentityIff(s: string)
    ensures Trim(s) == s <==> (s == [] || (!IsJsWhitespace(s[0]) && !IsJsWhitespace(s[|s| - 1])))
  {
  }

  /** The number of UTF-16 code units of `s`: JavaScript's `s.length`. */
  function Utf16Length(s: string): (n: nat)
    ensures n >= |s|
  {
    if s == [] then 0
    else (if s[0] as int > 0xFFFF then 2 else 1) + Utf16Length(s[1..])
  }

  /** A code point of the Basic Multilingual Plane takes one UTF-16 unit. */
  predicate IsBmp(c: char) {
    c as int <= 0xFFFF
  }

  /** The JavaScript length agrees with the Dafny length exactly when no
      character lies outside the Basic Multilingual Plane. */
  lemma {:induction false} Utf16LengthIff(s: string)
    ensures Utf16Length(s) == |s| <==> forall i :: 0 <= i < |s| ==> IsBmp(s[i])
  {
    if s != [] {
      Utf16LengthIff(s[1..]);
      assert forall i :: 1 <= i < |s| ==> s[i] == s[1..][i - 1];
    }
  }

  /** `s.split(sep)[0]`: the part of `s` before the first `sep`, or the
      whole of `s` when it holds no `sep`. */
  function BeforeFirst(s: string, sep: char): (r: string)
    ensures |r| <= |s| && r == s[..|r|]
    ensures sep !in r
    ensures |r| < |s| ==> s[|r|] == sep
  {
    if s == [] || s[0] == sep then []
    else [s[0]] + BeforeFirst(s[1..], sep)
  }

  /** The part before the first separator of `p + [sep] + rest` is `p`
      whenever `p` itself holds no separator. */
  lemma {:induction false} BeforeFirstOfJoin(p: string, sep: char, rest: string)
    requires sep !in p
    ensures BeforeFirst(p + [sep] + rest, sep) == p
  {
    var s := p + [sep] + rest;
    var r := BeforeFirst(s, sep);
    assert forall i :: 0 <= i < |p| ==> s[i] == p[i];
    assert s[|p|] == sep;
    assert s[..|p|] == p;
  }
}
