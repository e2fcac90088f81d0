/**
 * The one computation of the configuration step: the project name typed by
 * the operator becomes the URL's project slug, spaces turned into hyphens
 * and then lower-cased.
 */
module Config {

  /** `str.lower()` on one character, for the ASCII letters. */
  function LowerChar(c: char): char {
    if 'A' <= c <= 'Z' then (c as int - 'A' as int + 'a' as int) as char else c
  }

  /** `str.replace` of every space by a hyphen: the same length, a hyphen where a space was, no space left. */
  function ReplaceSpaces(s: string): (r: string)
    ensures |r| == |s|
    ensures forall i :: 0 <= i < |s| ==> r[i] == if s[i] == ' ' then '-' else s[i]
    ensures forall i :: 0 <= i < |r| ==> r[i] != ' '
  {
    if s == [] then [] else [if s[0] == ' ' then '-' else s[0]] + ReplaceSpaces(s[1..])
  }

  /** `str.lower()`: the same length, every character lowered, no upper-case ASCII letter left. */
  function Lower(s: string): (r: string)
    ensures |r| == |s|
    ensures forall i :: 0 <= i < |s| ==> r[i] == LowerChar(s[i])
    ensures forall i :: 0 <= i < |r| ==> !('A' <= r[i] <= 'Z')
  {
    if s == [] then [] else [LowerChar(s[0])] + Lower(s[1..])
  }

  /**
   * The stored project name: as long as what was typed, character for
   * character a hyphen where a space was typed and the lower-case letter
   * otherwise; so it holds no space and no upper-case ASCII letter.
   */
  function NormaliseProjectName(raw: string): (name: string)
    ensures |name| == |raw|
    ensures forall i :: 0 <= i < |raw| ==> name[i] == if raw[i] == ' ' then '-' else LowerChar(raw[i])
    ensures forall i :: 0 <= i < |name| ==> name[i] != ' ' && !('A' <= name[i] <= 'Z')
  {
    Lower(ReplaceSpaces(raw))
  }

  /** Normalising an already normalised name changes nothing. */
  lemma NormaliseIdempotent(raw: string)
    ensures NormaliseProjectName(NormaliseProjectName(raw)) == NormaliseProjectName(raw)
  {
  }
}
