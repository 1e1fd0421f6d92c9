/** The few operations of Go's `strings` and `html` packages that the crawl and
    the diagram glue rely on, written over Dafny strings (sequences of Unicode
    scalar values, which is what Go sees after decoding UTF-8). */
module GoStrings {

  /** The characters `unicode.IsSpace` accepts: tab, line feed, vertical
      tab, form feed, carriage return, space, U+0085 and U+00A0, and the
      other Unicode White_Space characters. */
  const WhiteSpace: set<char> := {
    '\U{0009}', '\U{000A}', '\U{000B}', '\U{000C}', '\U{000D}', ' ', '\U{0085}', '\U{00A0}', '\U{1680}',
    '\U{2000}', '\U{2001}', '\U{2002}', '\U{2003}', '\U{2004}', '\U{2005}', '\U{2006}', '\U{2007}',
    '\U{2008}', '\U{2009}', '\U{200A}', '\U{2028}', '\U{2029}', '\U{202F}', '\U{205F}', '\U{3000}'
  }

  /** `unicode.IsSpace` */
  predicate IsSpace(c: char) {
    c in WhiteSpace
  }

  /** Every character of `s[lo..hi]` is white space. */
  predicate SpaceBetween(s: string, lo: int, hi: int) {
    forall k :: lo <= k < hi && 0 <= k < |s| ==> IsSpace(s[k])
  }

  /** Drops the leading white space. */
  function TrimLeft(s: string): (r: string)
    ensures |r| <= |s| && r == s[|s| - |r|..]
    ensures SpaceBetween(s, 0, |s| - |r|)
    ensures r != [] ==> !IsSpace(r[0])
  {
    if s != [] && IsSpace(s[0]) then TrimLeft(s[1..]) else s
  }

  /** Drops the trailing white space. */
  function TrimRight(s: string): (r: string)
    ensures |r| <= |s| && r == s[..|r|]
    ensures SpaceBetween(s, |r|, |s|)
    ensures r != [] ==> !IsSpace(r[|r| - 1])
  {
    if s != [] && IsSpace(s[|s| - 1]) then TrimRight(s[..|s| - 1]) else s
  }

  /** `strings.TrimSpace`: the slice of `s` left after removing white space
      at both ends. */
  function TrimSpace(s: string): (r: string)
    ensures exists i :: 0 <= i <= |s| - |r| && r == s[i..i + |r|]
                        && SpaceBetween(s, 0, i) && SpaceBetween(s, i + |r|, |s|)
    ensures r != [] ==> !IsSpace(r[0]) && !IsSpace(r[|r| - 1])
  {
    var left := TrimLeft(s);
    var r := TrimRight(left);
    var i := |s| - |left|;
    assert r == s[i..i + |r|];
    SpaceShift(s, i, left, |r|);
    r
  }

  /** White space at the end of a suffix is white space at the end of the
      whole string. */
  lemma SpaceShift(s: string, i: nat, left: string, n: nat)
    requires i <= |s| && left == s[i..] && n <= |left|
    requires SpaceBetween(left, n, |left|)
    ensures SpaceBetween(s, i + n, |s|)
  {
    forall k | i + n <= k < |s| ensures IsSpace(s[k]) {
      assert s[k] == left[k - i];
    }
  }

  /** Trimming a second time changes nothing. */
  lemma TrimSpaceIdempotent(s: string)
    ensures TrimSpace(TrimSpace(s)) == TrimSpace(s)
  {
    var r := TrimSpace(s);
    if r != [] {
      assert TrimLeft(r) == r;
      assert TrimRight(r) == r;
    }
  }

  /** `strings.ReplaceAll(s, " ", "")`: every U+0020 removed, nothing else. */
  function RemoveSpaces(s: string): (r: string)
    ensures ' ' !in r
    ensures forall c :: c != ' ' ==> multiset(r)[c] == multiset(s)[c]
  {
    if s == [] then []
    else
      assert s == [s[0]] + s[1..];
      (if s[0] == ' ' then [] else [s[0]]) + RemoveSpaces(s[1..])
  }

  /** Removing spaces works piece by piece, so the order of the other
      characters is kept. */
  lemma {:induction false} RemoveSpacesAppend(a: string, b: string)
    ensures RemoveSpaces(a + b) == RemoveSpaces(a) + RemoveSpaces(b)
  {
    if a == [] {
      assert a + b == b;
    } else {
      assert (a + b)[0] == a[0];
      assert (a + b)[1..] == a[1..] + b;
      RemoveSpacesAppend(a[1..], b);
    }
  }

  /** A string without spaces is its own space-free form. */
  lemma {:induction false} RemoveSpacesNoSpace(s: string)
    requires ' ' !in s
    ensures RemoveSpaces(s) == s
  {
    if s != [] {
      RemoveSpacesNoSpace(s[1..]);
    }
  }

  predicate IsLowerAscii(t: string) {
    forall k :: 0 <= k < |t| ==> 'a' <= t[k] <= 'z'
  }

  /** The characters that Unicode simple case folding makes equal to the
      lower-case ASCII letter `lower`: the letter itself, its upper-case
      form, and for 's' and 'k' the long s (U+017F) and the Kelvin sign
      (U+212A). */
  predicate FoldsTo(c: char, lower: char)
    requires 'a' <= lower <= 'z'
  {
    || c == lower
    || c == (lower as int - 32) as char
    || (lower == 's' && c == '\U{017F}')
    || (lower == 'k' && c == '\U{212A}')
  }

  /** The upper-case form of a lower-case ASCII string. */
  function UpperAscii(t: string): (r: string)
    requires IsLowerAscii(t)
    ensures |r| == |t|
    ensures forall k :: 0 <= k < |t| ==> r[k] == (t[k] as int - 32) as char
  {
    if t == [] then [] else [(t[0] as int - 32) as char] + UpperAscii(t[1..])
  }

  /** `strings.EqualFold(s, t)` for a lower-case ASCII `t`: the two agree
      character by character under simple case folding. So case does not
      matter, but length and letters do. */
  predicate EqualFold(s: string, t: string): (r: bool)
    requires IsLowerAscii(t)
    ensures r ==> |s| == |t|
    ensures s == t ==> r
  {
    |s| == |t| && forall k :: 0 <= k < |s| ==> FoldsTo(s[k], t[k])
  }

  /** Case does not matter to `EqualFold`, but length and letters do. */
  lemma EqualFoldCases(t: string)
    requires IsLowerAscii(t) && t != []
    ensures EqualFold(UpperAscii(t), t)
    ensures !EqualFold(t[1..], t)
  {
  }

  /** `html.EscapeString` followed by replacing every "&#" with "#", as the
      node label does (main.go:122). The two compose character by character:
      the escaper turns `'` into "&#39;" and `"` into "&#34;", and no other
      "&#" can arise, because every '&' of the escaped text starts an entity. */
  function EscapeChar(c: char): (r: string)
    ensures r != [] && (r == [c] <==> c !in "<>&'\"")
    ensures forall k :: 0 <= k < |r| ==> r[k] !in "<>'\"" && (r[k] == '&' ==> c in "<>&")
  {
    if c == '<' then "&lt;"
    else if c == '>' then "&gt;"
    else if c == '&' then "&amp;"
    else if c == '\'' then "#39;"
    else if c == '"' then "#34;"
    else [c]
  }

  function EscapeLabel(s: string): (r: string)
    ensures forall k :: 0 <= k < |r| ==> r[k] !in "<>'\""
    ensures (forall k :: 0 <= k < |s| ==> s[k] !in "<>&'\"") ==> r == s
  {
    if s == [] then []
    else
      var head := EscapeChar(s[0]);
      var tail := EscapeLabel(s[1..]);
      assert forall k :: 0 <= k < |head + tail| ==>
        (head + tail)[k] == (if k < |head| then head[k] else tail[k - |head|]);
      head + tail
  }
}
