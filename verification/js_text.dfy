/** The two pieces of JavaScript string behaviour the search box depends on:
    `String.prototype.trim` and the `length` of a string, which counts UTF-16
    code units rather than characters. */
module JsText {

  /** The WhiteSpace and LineTerminator code points of ECMA-262 (sections 12.2
      and 12.3), which is exactly what `trim` strips from both ends. */
  predicate IsJsWhitespace(c: char) {
    || c == '\t' || c == '\n' || c == '\U{000B}' || c == '\U{000C}' || c == '\r'
    || c == ' ' || c == '\U{00A0}' || c == '\U{1680}'
    || ('\U{2000}' <= c <= '\U{200A}')
    || c == '\U{2028}' || c == '\U{2029}' || c == '\U{202F}' || c == '\U{205F}'
    || c == '\U{3000}' || c == '\U{FEFF}'
  }

  /** Characters outside the Basic Multilingual Plane take two UTF-16 code units. */
  predicate IsAstral(c: char) {
    c as int >= 0x1_0000
  }

  /** Drops leading whitespace: the result is a suffix of `s` that starts with a
      non-whitespace character, and everything dropped was whitespace. */
  function TrimStart(s: string): (r: string)
    ensures |r| <= |s| && r == s[|s| - |r|..]
    ensures |r| > 0 ==> !IsJsWhitespace(r[0])
    ensures forall k :: 0 <= k < |s| - |r| ==> IsJsWhitespace(s[k])
  {
    if |s| > 0 && IsJsWhitespace(s[0]) then TrimStart(s[1..]) else s
  }

  /** Drops trailing whitespace: the result is a prefix of `s` that ends with a
      non-whitespace character, and everything dropped was whitespace. */
  function TrimEnd(s: string): (r: string)
    ensures |r| <= |s| && r == s[..|r|]
    ensures |r| > 0 ==> !IsJsWhitespace(r[|r| - 1])
    ensures forall k :: |r| <= k < |s| ==> IsJsWhitespace(s[k])
  {
    if |s| > 0 && IsJsWhitespace(s[|s| - 1]) then TrimEnd(s[..|s| - 1]) else s
  }

  /** `r` is `s` with whitespace removed from both ends, and nothing else:
      a contiguous slice of `s`, surrounded only by whitespace, neither starting
      nor ending with whitespace. */
  ghost predicate IsTrimOf(r: string, s: string) {
    exists i :: IsTrimAt(r, s, i)
  }

  ghost predicate IsTrimAt(r: string, s: string, i: int) {
    && 0 <= i <= |s| - |r|
    && s[i..i + |r|] == r
    && (forall k :: 0 <= k < i ==> IsJsWhitespace(s[k]))
    && (forall k :: i + |r| <= k < |s| ==> IsJsWhitespace(s[k]))
    && (|r| > 0 ==> !IsJsWhitespace(r[0]) && !IsJsWhitespace(r[|r| - 1]))
  }

  /** `String.prototype.trim`. */
  function Trim(s: string): (r: string)
    ensures IsTrimOf(r, s)
  {
    var t := TrimStart(s);
    var r := TrimEnd(t);
    PrefixOfSuffix(s, t, r, IsJsWhitespace);
    assert IsTrimAt(r, s, |s| - |t|);
    r
  }

  /** A prefix `r` of a suffix `t` of `s` is the slice of `s` starting where
      `t` does; if what each cut dropped satisfies `p`, so does everything of
      `s` around that slice. */
  lemma PrefixOfSuffix(s: string, t: string, r: string, p: char -> bool)
    requires |t| <= |s| && t == s[|s| - |t|..]
    requires forall k :: 0 <= k < |s| - |t| ==> p(s[k])
    requires |r| <= |t| && r == t[..|r|]
    requires forall k :: |r| <= k < |t| ==> p(t[k])
    ensures var i := |s| - |t|;
            && s[i..i + |r|] == r
            && (forall k :: i + |r| <= k < |s| ==> p(s[k]))
  {
    var i := |s| - |t|;
    assert s[i..i + |r|] == t[..|r|];
    forall k | i + |r| <= k < |s| ensures p(s[k]) {
      assert s[k] == t[k - i];
    }
  }

  /** The trim of a string is unique, so `IsTrimOf` pins down `Trim` completely. */
  lemma TrimOfIsUnique(r1: string, r2: string, s: string)
    requires IsTrimOf(r1, s) && IsTrimOf(r2, s)
    ensures r1 == r2
  {
    var i1 :| IsTrimAt(r1, s, i1);
    var i2 :| IsTrimAt(r2, s, i2);
    if |r1| > 0 && |r2| > 0 {
      assert s[i1] == r1[0] && s[i2] == r2[0];
      assert i1 == i2;
      var e1, e2 := i1 + |r1| - 1, i2 + |r2| - 1;
      assert s[e1] == r1[|r1| - 1] && s[e2] == r2[|r2| - 1];
      assert e1 == e2;
    }
  }

  /** Trimming twice is trimming once. */
  lemma TrimIsIdempotent(s: string)
    ensures Trim(Trim(s)) == Trim(s)
  {
    var t := Trim(s);
    assert t[0..0 + |t|] == t;
    assert IsTrimAt(t, t, 0);
    TrimOfIsUnique(Trim(t), t, t);
  }

  /** The JavaScript `length` of a string: its number of UTF-16 code units. */
  function Utf16Length(s: string): (n: nat)
    ensures |s| <= n <= 2 * |s|
    ensures n == |s| <==> forall k :: 0 <= k < |s| ==> !IsAstral(s[k])
  {
    if |s| == 0 then 0 else (if IsAstral(s[0]) then 2 else 1) + Utf16Length(s[1..])
  }

  /** A JavaScript length below 2 means an empty string or one BMP character;
      a single astral character such as an emoji already has length 2. */
  lemma ShortExactly(s: string)
    ensures Utf16Length(s) < 2 <==> |s| == 0 || (|s| == 1 && !IsAstral(s[0]))
  {
    if |s| >= 2 {
      assert Utf16Length(s) >= |s|;
    } else if |s| == 1 {
      assert s[1..] == [];
    }
  }
}
