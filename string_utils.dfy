/** `capitalizeSentence`: lower-case the whole text, then upper-case every letter that
    starts the text or follows a whitespace character (the global replace of
    `/(^|\s)(\p{L})/gu`). */
module StringUtils {
  import opened Chars

  /** Position `i` of `s` is at the start of the text or right after whitespace. */
  predicate WordStart(s: string, i: int)
    requires 0 <= i < |s|
  {
    i == 0 || IsSpace(s[i - 1])
  }

  /** The left-to-right scan of the global replace. `afterBreak` tells whether the
      previous character was the start of the text or whitespace; a match upper-cases
      the whitespace (which has no case) and the letter. */
  function ReplaceWordStarts(s: string, afterBreak: bool): (r: string)
    ensures |r| == |s|
  {
    if s == [] then []
    else
      var c := if afterBreak && IsLetter(s[0]) then ToUpper(s[0]) else s[0];
      [c] + ReplaceWordStarts(s[1..], IsSpace(s[0]))
  }

  /** The falsy check comes first: the empty text gives the empty text. */
  function CapitalizeSentence(text: string): (r: string)
    ensures |r| == |text|
    ensures text == "" ==> r == ""
  {
    if text == "" then "" else ReplaceWordStarts(Lower(text), true)
  }

  lemma {:induction false} ReplaceWordStartsAt(s: string, afterBreak: bool, i: int)
    requires 0 <= i < |s|
    ensures ReplaceWordStarts(s, afterBreak)[i]
            == if IsLetter(s[i]) && (if i == 0 then afterBreak else IsSpace(s[i - 1]))
               then ToUpper(s[i]) else s[i]
  {
    if i > 0 {
      ReplaceWordStartsAt(s[1..], IsSpace(s[0]), i - 1);
    }
  }

  /** The character at every position: upper case for a letter at a word start, lower
      case everywhere else. */
  lemma CapitalizeAt(text: string, i: int)
    requires 0 <= i < |text|
    ensures CapitalizeSentence(text)[i]
            == if IsLetter(text[i]) && WordStart(text, i) then ToUpper(text[i]) else ToLower(text[i])
  {
    var low := Lower(text);
    ReplaceWordStartsAt(low, true, i);
    CaseRoundTrip(text[i]);
    if i > 0 {
      CaseRoundTrip(text[i - 1]);
    }
  }

  /** Every letter at index 0 or right after whitespace is upper case in the result,
      every other letter is lower case, and every non-letter is left as it was (so
      the letter in "1a" or "-a" stays lower case). */
  lemma CapitalizeClasses(text: string, i: int)
    requires 0 <= i < |text|
    ensures IsLetter(text[i]) && WordStart(text, i) ==> IsUpper(CapitalizeSentence(text)[i])
    ensures IsLetter(text[i]) && !WordStart(text, i) ==> IsLower(CapitalizeSentence(text)[i])
    ensures !IsLetter(text[i]) ==> CapitalizeSentence(text)[i] == text[i]
  {
    CapitalizeAt(text, i);
  }

  /** Applying the function twice gives the same text as applying it once. */
  lemma CapitalizeIdempotent(text: string)
    ensures CapitalizeSentence(CapitalizeSentence(text)) == CapitalizeSentence(text)
  {
    var r := CapitalizeSentence(text);
    var r2 := CapitalizeSentence(r);
    forall i | 0 <= i < |text|
      ensures r2[i] == r[i]
    {
      CapitalizeAt(text, i);
      CapitalizeAt(r, i);
      CaseRoundTrip(text[i]);
      if i > 0 {
        CapitalizeAt(text, i - 1);
        CaseRoundTrip(text[i - 1]);
      }
    }
  }

  /** A letter after a hyphen or a digit is not a word start. */
  lemma CapitalizeExample()
    ensures CapitalizeSentence("hI-x 1a") == "Hi-x 1a"
  {
    var t := "hI-x 1a";
    var r := CapitalizeSentence(t);
    forall i | 0 <= i < |t| ensures r[i] == "Hi-x 1a"[i] {
      CapitalizeAt(t, i);
    }
  }
}
