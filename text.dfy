/**
  String trimming as `trimmingCharacters(in: .whitespacesAndNewlines)` does it,
  on Unicode scalar values: characters of the set are removed from both ends,
  and nothing in between is touched.
*/
module Text {

  /** The characters assumed to make up the `whitespacesAndNewlines`
      character set: the Unicode separators (general categories Zs, Zl and
      Zp), the tab, and the line breaks U+000A..U+000D and U+0085. */
  predicate IsWhitespaceOrNewline(c: char) {
    var n := c as int;
    (0x09 <= n <= 0x0D) || n == 0x20 || n == 0x85 || n == 0xA0 || n == 0x1680
    || (0x2000 <= n <= 0x200A) || n == 0x2028 || n == 0x2029 || n == 0x202F
    || n == 0x205F || n == 0x3000
  }

  /** Every character of `s` is whitespace or a newline (vacuously so for ""). */
  predicate AllBlank(s: string) {
    forall i | 0 <= i < |s| :: IsWhitespaceOrNewline(s[i])
  }

  /** `s` with its longest all-blank prefix removed. */
  function TrimStart(s: string): (r: string)
    ensures |r| <= |s| && r == s[|s| - |r|..]
    ensures AllBlank(s[..|s| - |r|])
    ensures r == [] || !IsWhitespaceOrNewline(r[0])
    decreases |s|
  {
    if |s| > 0 && IsWhitespaceOrNewline(s[0]) then
      var r := TrimStart(s[1..]);
      assert s[..|s| - |r|] == [s[0]] + s[1..][..|s| - 1 - |r|];
      r
    else
      s
  }

  /** `s` with its longest all-blank suffix removed. */
  function TrimEnd(s: string): (r: string)
    ensures |r| <= |s| && r == s[..|r|]
    ensures AllBlank(s[|r|..])
    ensures r == [] || !IsWhitespaceOrNewline(r[|r| - 1])
    decreases |s|
  {
    if |s| > 0 && IsWhitespaceOrNewline(s[|s| - 1]) then
      var r := TrimEnd(s[..|s| - 1]);
      assert s[|r|..] == s[..|s| - 1][|r|..] + [s[|s| - 1]];
      r
    else
      s
  }

  /** `trimmingCharacters(in: .whitespacesAndNewlines)`. */
  function Trim(s: string): string {
    TrimEnd(TrimStart(s))
  }

  /** Trimming gives "" exactly when the input is blank. */
  lemma TrimEmptyIffBlank(s: string)
    ensures Trim(s) == [] <==> AllBlank(s)
  {
    var u := TrimStart(s);
    if Trim(s) == [] {
      assert s == s[..|s| - |u|] + u;
    }
  }

  /** A string with non-blank ends is its own trimming. */
  lemma TrimKeepsUnpadded(s: string)
    requires s == [] || (!IsWhitespaceOrNewline(s[0]) && !IsWhitespaceOrNewline(s[|s| - 1]))
    ensures Trim(s) == s
  {
  }

  /** The trimmed string starts and ends with a non-blank character, and
      trimming a second time changes nothing. */
  lemma TrimIdempotent(s: string)
    ensures Trim(s) == [] || (!IsWhitespaceOrNewline(Trim(s)[0]) && !IsWhitespaceOrNewline(Trim(s)[|Trim(s)| - 1]))
    ensures Trim(Trim(s)) == Trim(s)
  {
    var u := TrimStart(s);
    var t := TrimEnd(u);
    if t != [] {
      assert t[0] == u[0];
    }
    TrimKeepsUnpadded(t);
  }
}
