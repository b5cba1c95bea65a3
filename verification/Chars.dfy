/** Character classes and string helpers shared by the text-level models. */
module Chars {

  /** Python's `str.isspace` on one character. */
  predicate IsSpace(c: char) {
    var n := c as int;
    || 0x09 <= n <= 0x0D || 0x1C <= n <= 0x20 || n == 0x85 || n == 0xA0 || n == 0x1680
    || 0x2000 <= n <= 0x200A || n == 0x2028 || n == 0x2029 || n == 0x202F || n == 0x205F || n == 0x3000
  }

  predicate IsAlnum(c: char) {
    'A' <= c <= 'Z' || 'a' <= c <= 'z' || '0' <= c <= '9'
  }

  /** `not s.strip()` */
  predicate Blank(s: string) {
    forall i :: 0 <= i < |s| ==> IsSpace(s[i])
  }

  /** `[A-Za-z0-9]` followed by characters that are alphanumeric or in `others`. */
  predicate Identifier(s: string, others: string) {
    s != "" && IsAlnum(s[0]) && forall i :: 0 <= i < |s| ==> IsAlnum(s[i]) || s[i] in others
  }

  predicate ObligationId(s: string) {
    Identifier(s, "._:-")
  }

  /** What the evidence producer accepts as a claim id. */
  predicate ProducerId(s: string) {
    Identifier(s, "._-")
  }

  predicate ToolId(s: string) {
    Identifier(s, "._:+/-")
  }

  predicate ProfileId(s: string) {
    Identifier(s, "._+/-")
  }

  // ---- stripping -------------------------------------------------------

  function DropLeading(s: string, these: char -> bool): (r: string)
    ensures |r| <= |s|
  {
    if s != "" && these(s[0]) then DropLeading(s[1..], these) else s
  }

  function DropTrailing(s: string, these: char -> bool): (r: string) {
    if s != "" && these(s[|s| - 1]) then DropTrailing(s[..|s| - 1], these) else s
  }

  function StripAll(s: string, these: char -> bool): string {
    DropTrailing(DropLeading(s, these), these)
  }

  /** Python's `str.strip`. */
  function Strip(s: string): string {
    StripAll(s, IsSpace)
  }

  lemma StripAllFixes(s: string, these: char -> bool)
    requires s != "" && !these(s[0]) && !these(s[|s| - 1])
    ensures StripAll(s, these) == s
  {
  }
}
