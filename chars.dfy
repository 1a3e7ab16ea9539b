/** Character classes and case mapping as JavaScript applies them to the strings of
    this backend. Strings are sequences of `char`.

    Letters are the ASCII letters and the Latin-1 letters that have a one-to-one
    upper/lower-case partner in Latin-1 (`À`..`Þ` and `à`..`þ`, without `×` and `÷`).
    Every other character is treated as caseless. */
module Chars {

  /** The characters matched by the JavaScript regular-expression class `\s`. */
  predicate IsSpace(c: char) {
    || ('\t' <= c <= '\r')
    || c == ' ' || c == '\U{00A0}' || c == '\U{1680}'
    || ('\U{2000}' <= c <= '\U{200A}')
    || c == '\U{2028}' || c == '\U{2029}' || c == '\U{202F}' || c == '\U{205F}'
    || c == '\U{3000}' || c == '\U{FEFF}'
  }

  predicate IsUpper(c: char) {
    ('A' <= c <= 'Z') || ('\U{00C0}' <= c <= '\U{00DE}' && c != '\U{00D7}')
  }

  predicate IsLower(c: char) {
    ('a' <= c <= 'z') || ('\U{00E0}' <= c <= '\U{00FE}' && c != '\U{00F7}')
  }

  /** A letter in the sense of `\p{L}`, restricted to the modelled alphabet. */
  predicate IsLetter(c: char) {
    IsUpper(c) || IsLower(c)
  }

  /** `String.prototype.toLowerCase` on one character. */
  function ToLower(c: char): (r: char)
    ensures IsUpper(c) ==> IsLower(r) && r as int == c as int + 32
    ensures !IsUpper(c) ==> r == c
  {
    if IsUpper(c) then (c as int + 32) as char else c
  }

  /** `String.prototype.toUpperCase` on one character. */
  function ToUpper(c: char): (r: char)
    ensures IsLower(c) ==> IsUpper(r) && r as int == c as int - 32
    ensures !IsLower(c) ==> r == c
  {
    if IsLower(c) then (c as int - 32) as char else c
  }

  /** Case mapping never moves a character in or out of the letter class, and the
      two mappings are inverse on letters. */
  lemma CaseRoundTrip(c: char)
    ensures IsLetter(ToLower(c)) == IsLetter(c) && IsLetter(ToUpper(c)) == IsLetter(c)
    ensures IsSpace(ToLower(c)) == IsSpace(c) && IsSpace(ToUpper(c)) == IsSpace(c)
    ensures ToLower(ToUpper(c)) == ToLower(c) && ToUpper(ToLower(c)) == ToUpper(c)
    ensures ToLower(ToLower(c)) == ToLower(c) && ToUpper(ToUpper(c)) == ToUpper(c)
  {
  }

  function Lower(s: string): (r: string)
    ensures |r| == |s| && forall i :: 0 <= i < |s| ==> r[i] == ToLower(s[i])
  {
    seq(|s|, i requires 0 <= i < |s| => ToLower(s[i]))
  }

  function Upper(s: string): (r: string)
    ensures |r| == |s| && forall i :: 0 <= i < |s| ==> r[i] == ToUpper(s[i])
  {
    seq(|s|, i requires 0 <= i < |s| => ToUpper(s[i]))
  }

  /** Texts that differ only in letter case have the same upper-case form, and
      upper-casing is idempotent. */
  lemma UpperIgnoresCase(a: string, b: string)
    ensures Lower(a) == Lower(b) ==> Upper(a) == Upper(b)
    ensures Upper(Upper(a)) == Upper(a)
  {
    forall i | 0 <= i < |a|
      ensures ToUpper(ToLower(a[i])) == ToUpper(a[i]) && ToUpper(ToUpper(a[i])) == ToUpper(a[i])
    {
      CaseRoundTrip(a[i]);
    }
    if Lower(a) == Lower(b) {
      forall i | 0 <= i < |a|
        ensures ToUpper(a[i]) == ToUpper(b[i])
      {
        CaseRoundTrip(b[i]);
        assert ToLower(a[i]) == ToLower(b[i]);
      }
    }
  }

  /** `q` occurs in `t` starting at index `i`. */
  predicate OccursAt(q: string, t: string, i: int) {
    0 <= i && i + |q| <= |t| && t[i..i + |q|] == q
  }

  /** `t.includes(q)`, the SQL `LIKE '%q%'` of a `contains` filter. */
  predicate Contains(t: string, q: string) {
    exists i :: 0 <= i <= |t| && OccursAt(q, t, i)
  }

  /** The `contains` filter with `mode: 'insensitive'`. */
  predicate ContainsInsensitive(t: string, q: string) {
    Contains(Lower(t), Lower(q))
  }
}
