/** Character classes and case mapping, over the ASCII range, as Python's
    `str.lower`, `str.isdigit`, `str.isspace` and the regular-expression
    classes `\w` and `\s` define them there. */
module Text {

  predicate IsUpper(c: char) {
    'A' <= c <= 'Z'
  }

  predicate IsDigit(c: char) {
    '0' <= c <= '9'
  }

  /** Python's `\w` on ASCII: letters, digits and the underscore. */
  predicate IsWordChar(c: char) {
    'a' <= c <= 'z' || 'A' <= c <= 'Z' || IsDigit(c) || c == '_'
  }

  /** Python's `\s` on ASCII: space, tab, line feed, vertical tab, form feed,
      carriage return and the four separators 0x1C to 0x1F. */
  predicate IsSpace(c: char) {
    c == ' ' || 9 <= c as int <= 13 || 28 <= c as int <= 31
  }

  /** `str.lower` on one character. */
  function Lower(c: char): (r: char)
    ensures !IsUpper(r)
    ensures IsUpper(c) ==> r as int == c as int + 32
    ensures !IsUpper(c) ==> r == c
  {
    if IsUpper(c) then (c as int + 32) as char else c
  }

  /** `str.lower` on a string. */
  function LowerString(s: string): (r: string)
    ensures |r| == |s|
    ensures forall i :: 0 <= i < |s| ==> r[i] == Lower(s[i])
  {
    seq(|s|, i requires 0 <= i < |s| => Lower(s[i]))
  }

  predicate NoUpper(s: string) {
    forall i :: 0 <= i < |s| ==> !IsUpper(s[i])
  }

  /** Lower-casing a string that holds no upper-case letter changes nothing. */
  lemma LowerStringFixesLowercase(s: string)
    requires NoUpper(s)
    ensures LowerString(s) == s
  {
  }

  lemma LowerStringConcat(a: string, b: string)
    ensures LowerString(a + b) == LowerString(a) + LowerString(b)
  {
  }

  /** Python's `str.startswith`. */
  predicate StartsWith(s: string, prefix: string) {
    |prefix| <= |s| && s[..|prefix|] == prefix
  }

  /** Python's `str.endswith`. */
  predicate EndsWith(s: string, suffix: string) {
    |suffix| <= |s| && s[|s| - |suffix|..] == suffix
  }

  /** Python's truthiness test `not s.strip()` negated: the string holds a
      character that is not whitespace. */
  predicate HasText(s: string) {
    exists i :: 0 <= i < |s| && !IsSpace(s[i])
  }
}
