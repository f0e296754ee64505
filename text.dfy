/** The string operations the hooks use: `String.prototype.toLowerCase`
    (restricted to ASCII letters), the regular-expression class `\s`, and
    `String.prototype.includes`. */
module Text {

  /** A character matched by `\s`: the WhiteSpace and LineTerminator code
      points of ECMAScript (tab, line feed, vertical tab, form feed, carriage
      return, space, no-break space, the Unicode space separators, line and
      paragraph separator, byte order mark). */
  predicate IsSpace(c: char) {
    if c <= ' ' then c == ' ' || '\t' <= c <= '\r'
    else if c < '\U{00A0}' then false
    else
      || c == '\U{00A0}' || c == '\U{1680}' || ('\U{2000}' <= c <= '\U{200A}')
      || c == '\U{2028}' || c == '\U{2029}' || c == '\U{202F}' || c == '\U{205F}'
      || c == '\U{3000}' || c == '\U{FEFF}'
  }

  predicate IsUpper(c: char) {
    'A' <= c <= 'Z'
  }

  /** Lower-case one character; letters outside A-Z are left as they are. */
  function LowerChar(c: char): (l: char)
    ensures !IsUpper(l)
    ensures IsSpace(l) <==> IsSpace(c)
    ensures !IsUpper(c) ==> l == c
  {
    if IsUpper(c) then (c as int + 32) as char else c
  }

  /** `s.toLowerCase()` for ASCII text: same length, each character lowered. */
  function ToLower(s: string): (r: string)
    ensures |r| == |s|
    ensures forall i :: 0 <= i < |s| ==> r[i] == LowerChar(s[i])
  {
    if s == [] then [] else [LowerChar(s[0])] + ToLower(s[1..])
  }

  /** Lowering a string that has no upper-case letter leaves it unchanged. */
  lemma LowerFixes(s: string)
    requires forall i :: 0 <= i < |s| ==> !IsUpper(s[i])
    ensures ToLower(s) == s
  {
  }

  predicate StartsWith(s: string, prefix: string) {
    |prefix| <= |s| && s[..|prefix|] == prefix
  }

  /** `hay.includes(needle)`: tried at every start position from the left. */
  predicate Contains(hay: string, needle: string)
    decreases |hay|
  {
    StartsWith(hay, needle) || (hay != [] && Contains(hay[1..], needle))
  }

  /** `needle` occurs in `hay` starting at offset `i`. */
  predicate OccursAt(hay: string, needle: string, i: int) {
    0 <= i && i + |needle| <= |hay| && hay[i..i + |needle|] == needle
  }

  /** `Contains` holds exactly when `needle` occurs in `hay` at some offset. */
  lemma {:induction false} ContainsAt(hay: string, needle: string)
    ensures Contains(hay, needle) <==> exists i :: OccursAt(hay, needle, i)
  {
    if hay == [] {
      if i :| OccursAt(hay, needle, i) {
        assert needle == [];
      }
      if StartsWith(hay, needle) {
        assert OccursAt(hay, needle, 0);
      }
    } else {
      ContainsAt(hay[1..], needle);
      if StartsWith(hay, needle) {
        assert OccursAt(hay, needle, 0);
      }
      if i :| OccursAt(hay, needle, i) {
        if i > 0 {
          assert OccursAt(hay[1..], needle, i - 1);
        } else {
          assert StartsWith(hay, needle);
        }
      }
      if i :| OccursAt(hay[1..], needle, i) {
        assert hay[1..][i..i + |needle|] == hay[i + 1..i + 1 + |needle|];
        assert OccursAt(hay, needle, i + 1);
      }
    }
  }

  /** An occurrence survives lower-casing both strings, whatever case it was typed in. */
  lemma LowerKeepsOccurrence(hay: string, needle: string)
    requires Contains(hay, needle)
    ensures Contains(ToLower(hay), ToLower(needle))
  {
    ContainsAt(hay, needle);
    var i :| OccursAt(hay, needle, i);
    var lh, ln := ToLower(hay), ToLower(needle);
    forall k | 0 <= k < |needle|
      ensures lh[i..i + |needle|][k] == ln[k]
    {
      assert hay[i + k] == needle[k];
    }
    assert OccursAt(lh, ln, i);
    ContainsAt(lh, ln);
  }

  /** The empty string occurs in every string. */
  lemma ContainsEmpty(hay: string)
    ensures Contains(hay, "")
  {
  }
}
