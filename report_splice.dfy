/** The source-patching step of the report script: find where the projects section
    goes in the report service's text and splice it in there. String positions and
    the clamping rules are those of JavaScript's `indexOf` and `substring`. */
module ReportSplice {
  import opened Chars

  const TitleMarker: string := "tituloSeccion('Proyectos por Tipo')"
  const MoveDownMarker: string := "doc.moveDown(2);"
  const FooterMarker: string := "// Pie de p\U{00E1}gina con estilo"
  /** Text put between the inserted section and the rest of the file. */
  const Separator: string := "\n        "

  function Clamp(x: int, lo: int, hi: int): (r: int)
    requires lo <= hi
    ensures lo <= r <= hi
    ensures lo <= x <= hi ==> r == x
  {
    if x < lo then lo else if x > hi then hi else x
  }

  /** First occurrence of `pat` at index `i` or later, or -1. */
  function IndexFrom(s: string, pat: string, i: nat): (r: int)
    requires i <= |s|
    ensures r == -1 || (i <= r <= |s| && OccursAt(pat, s, r))
    ensures r == -1 ==> forall j :: i <= j <= |s| ==> !OccursAt(pat, s, j)
    ensures r >= 0 ==> forall j :: i <= j < r ==> !OccursAt(pat, s, j)
    decreases |s| - i
  {
    if i + |pat| > |s| then -1
    else if OccursAt(pat, s, i) then i
    else if i == |s| then -1
    else IndexFrom(s, pat, i + 1)
  }

  /** `s.indexOf(pat, from)`: a negative start searches from 0, one past the end
      from the end. */
  function IndexOf(s: string, pat: string, from: int): (r: int)
    ensures -1 <= r <= |s|
    ensures r >= 0 ==> OccursAt(pat, s, r) && Clamp(from, 0, |s|) <= r
    ensures forall j :: Clamp(from, 0, |s|) <= j && (r == -1 || j < r) ==> !OccursAt(pat, s, j)
  {
    IndexFrom(s, pat, Clamp(from, 0, |s|))
  }

  /** `findInsertPosition`: -1 (nowhere) exactly when the text has no footer marker. */
  function FindInsertPosition(content: string): (p: int)
    ensures -1 <= p <= |content|
    ensures p == -1 <==> forall j :: 0 <= j <= |content| ==> !OccursAt(FooterMarker, content, j)
  {
    var afterProyectosPorTipo := IndexOf(content, MoveDownMarker, IndexOf(content, TitleMarker, 0));
    var beforeFooter := IndexOf(content, FooterMarker, 0);
    if afterProyectosPorTipo != -1 && beforeFooter != -1 then
      IndexOf(content, "\n", afterProyectosPorTipo) + 1
    else
      IndexOf(content, FooterMarker, 0)
  }

  /** `s.substring(start, end)`: both ends are clamped to the string and swapped if
      they are out of order. */
  function Substring(s: string, start: int, end: int): (r: string)
    ensures var a := Clamp(start, 0, |s|);
            var b := Clamp(end, 0, |s|);
            r == if a <= b then s[a..b] else s[b..a]
  {
    var a := Clamp(start, 0, |s|);
    var b := Clamp(end, 0, |s|);
    if a <= b then s[a..b] else s[b..a]
  }

  /** The patched text: everything before the position, the section, the separator,
      then everything from the position on. */
  function Splice(original: string, position: int, section: string): (r: string)
    ensures var q := Clamp(position, 0, |original|);
            r == original[..q] + section + Separator + original[q..]
  {
    Substring(original, 0, position) + section + Separator + Substring(original, position, |original|)
  }

  /** What the script writes back: the original text with the section and the
      separator inserted at the clamped insert position, and nothing else changed. */
  function PatchedContent(original: string, section: string): (r: string)
    ensures |r| == |original| + |section| + |Separator|
    ensures var q := Clamp(FindInsertPosition(original), 0, |original|);
            && r[q..q + |section| + |Separator|] == section + Separator
            && r[..q] + r[q + |section| + |Separator|..] == original
  {
    SpliceRemovable(original, FindInsertPosition(original), section);
    Splice(original, FindInsertPosition(original), section)
  }

  // ---------------------------------------------------------------------------
  // Properties
  // ---------------------------------------------------------------------------

  /** Cutting the inserted block out of the patched text gives the original back. */
  lemma SpliceRemovable(original: string, position: int, section: string)
    ensures var q := Clamp(position, 0, |original|);
            var m := Splice(original, position, section);
            var n := |section| + |Separator|;
            |m| == |original| + n && m[q..q + n] == section + Separator && m[..q] + m[q + n..] == original
  {
    var q := Clamp(position, 0, |original|);
    var m := Splice(original, position, section);
    var n := |section| + |Separator|;
    assert m == original[..q] + (section + Separator) + original[q..];
    assert m[..q] == original[..q];
    assert m[q + n..] == original[q..];
    assert original[..q] + original[q..] == original;
  }

  /** The position found, in each case. With both markers found, it is the start of
      the line after the first `doc.moveDown(2);` that follows the first section
      title (or the start of the text when no newline follows); when the title is
      absent, the search for `doc.moveDown(2);` starts at 0. Otherwise it is the
      index of the footer comment, or -1 when there is none. */
  lemma InsertPositionCases(content: string)
    ensures var t := IndexOf(content, TitleMarker, 0);
            var a := IndexOf(content, MoveDownMarker, t);
            var b := IndexOf(content, FooterMarker, 0);
            var p := FindInsertPosition(content);
            && -1 <= p <= |content|
            && (a != -1 && b != -1 ==>
                  && a >= (if t == -1 then 0 else t)
                  && OccursAt(MoveDownMarker, content, a)
                  && (p == 0 <==> forall j :: a <= j < |content| ==> content[j] != '\n')
                  && (p != 0 ==> a < p && content[p - 1] == '\n'
                                 && forall j :: a <= j < p - 1 ==> content[j] != '\n'))
            && (a == -1 || b == -1 ==> p == b)
  {
    var t := IndexOf(content, TitleMarker, 0);
    var a := IndexOf(content, MoveDownMarker, t);
    var b := IndexOf(content, FooterMarker, 0);
    if a != -1 && b != -1 {
      NextLineStart(content, a);
    }
  }

  /** One past the first newline at or after `a` starts the next line; it is 0
      exactly when no newline follows `a`. */
  lemma NextLineStart(content: string, a: nat)
    requires a <= |content|
    ensures var p := IndexOf(content, "\n", a) + 1;
            && (p == 0 <==> forall j :: a <= j < |content| ==> content[j] != '\n')
            && (p != 0 ==> a < p <= |content| && content[p - 1] == '\n'
                           && forall j :: a <= j < p - 1 ==> content[j] != '\n')
  {
    var nl := IndexOf(content, "\n", a);
    if nl >= 0 {
      assert content[nl..nl + 1] == "\n";
      assert content[nl] == content[nl..nl + 1][0] == '\n';
      forall j | a <= j < nl
        ensures content[j] != '\n'
      {
        assert !OccursAt("\n", content, j);
      }
    } else {
      forall j | a <= j < |content|
        ensures content[j] != '\n'
      {
        assert !OccursAt("\n", content, j);
        assert content[j..j + 1] == [content[j]];
      }
    }
  }

  /** In the fallback with a footer, the section ends right before the footer
      comment, which follows the separator. */
  lemma FallbackBeforeFooter(content: string, section: string)
    requires IndexOf(content, MoveDownMarker, IndexOf(content, TitleMarker, 0)) == -1
    requires IndexOf(content, FooterMarker, 0) != -1
    ensures var q := IndexOf(content, FooterMarker, 0);
            var m := PatchedContent(content, section);
            OccursAt(FooterMarker, m, q + |section| + |Separator|)
            && m[..q] == content[..q]
  {
    var q := IndexOf(content, FooterMarker, 0);
    assert FindInsertPosition(content) == q;
    SpliceKeepsOccurrence(content, q, section, FooterMarker);
  }

  /** Text that occurs at the splice position is found again right after the
      inserted block, and the text before the position is untouched. */
  lemma SpliceKeepsOccurrence(content: string, q: nat, section: string, pat: string)
    requires OccursAt(pat, content, q)
    ensures var m := Splice(content, q, section);
            OccursAt(pat, m, q + |section| + |Separator|) && m[..q] == content[..q]
  {
    var m := Splice(content, q, section);
    var n := |section| + |Separator|;
    SpliceRemovable(content, q, section);
    assert m[q + n..] == content[q..];
    assert m[q + n..q + n + |pat|] == content[q..q + |pat|];
  }
}
