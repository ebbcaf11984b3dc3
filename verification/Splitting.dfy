/** Texts that a separator cuts into parts. */
module Splitting {
  import opened Options

  function Split(text: string, sep: char): (parts: seq<string>)
    ensures parts != []
    ensures forall i :: 0 <= i < |parts| ==> sep !in parts[i]
  {
    if text == "" then [""]
    else
      var rest := Split(text[1..], sep);
      if text[0] == sep then [""] + rest else [[text[0]] + rest[0]] + rest[1..]
  }

  lemma {:induction false} SplitFirst(part: string, rest: string, sep: char)
    requires sep !in part
    ensures Split(part, sep) == [part]
    ensures Split(part + [sep] + rest, sep) == [part] + Split(rest, sep)
  {
    if part == "" {
      assert part + [sep] + rest == [sep] + rest && ([sep] + rest)[1..] == rest;
    } else {
      SplitFirst(part[1..], rest, sep);
      assert (part + [sep] + rest)[1..] == part[1..] + [sep] + rest;
      assert [part[0]] + part[1..] == part;
    }
  }

  /** What is before and behind the first separator. */
  function SplitOnce(text: string, sep: char): (r: Option<(string, string)>) {
    if text == "" then None
    else if text[0] == sep then Some(("", text[1..]))
    else match SplitOnce(text[1..], sep)
      case None => None
      case Some((left, right)) => Some(([text[0]] + left, right))
  }

  lemma {:induction false} SplitOnceFirst(left: string, right: string, sep: char)
    requires sep !in left
    ensures SplitOnce(left + [sep] + right, sep) == Some((left, right))
  {
    var text := left + [sep] + right;
    if left == "" {
      assert text[1..] == right;
    } else {
      assert text[1..] == left[1..] + [sep] + right;
      SplitOnceFirst(left[1..], right, sep);
      assert left == [left[0]] + left[1..];
    }
  }
}
