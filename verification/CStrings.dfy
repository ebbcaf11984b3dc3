/**
 Texts that cross into C, where a string ends at its first NUL.

 One conversion replaces each NUL, so that the rest of the text survives. The other drops the text from
 the first NUL on, as a C reader would.
 */
module CStrings {

  /** The text with each NUL replaced by U+FFFD. */
  function CString(text: string): (r: string)
    ensures |r| == |text| && '\0' !in r
    ensures forall i :: 0 <= i < |text| ==> r[i] == if text[i] == '\0' then '\U{FFFD}' else text[i]
    ensures r == text <==> '\0' !in text
  {
    var r := seq(|text|, i requires 0 <= i < |text| => if text[i] == '\0' then '\U{FFFD}' else text[i]);
    assert '\0' !in text ==> r == text;
    r
  }

  /** The text before its first NUL. */
  function CText(text: string): (r: string)
    ensures r <= text && '\0' !in r
    ensures r == text <==> '\0' !in text
    ensures r == "" <==> text == "" || text[0] == '\0'
  {
    if text == "" || text[0] == '\0' then "" else [text[0]] + CText(text[1..])
  }
}
