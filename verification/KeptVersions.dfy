/**
 The server versions that the extra of a cached object keeps.

 A lone version is stored as it is. Several become a JSON array of strings that starts with the newest
 and has four elements at most. The stamp of a save selects one of them.
 */
module KeptVersions {
  import opened Digits
  import opened Options

  const KEPT := 4

  // ---------------------------------------------------------------------------
  // JSON arrays of strings

  /** One character inside a JSON string. */
  function Escaped(c: char): (s: string) {
    if c == '"' then "\\\""
    else if c == '\\' then "\\\\"
    else if c == '\U{08}' then "\\b"
    else if c == '\t' then "\\t"
    else if c == '\n' then "\\n"
    else if c == '\U{0C}' then "\\f"
    else if c == '\r' then "\\r"
    else if c < ' ' then "\\u00" + [HexDigit(c as int / 16), HexDigit(c as int % 16)]
    else [c]
  }

  function EscapedText(text: string): (s: string) {
    if text == "" then "" else Escaped(text[0]) + EscapedText(text[1..])
  }

  function Quoted(text: string): (s: string) {
    "\"" + EscapedText(text) + "\""
  }

  function Elements(texts: seq<string>): (s: string)
    requires texts != []
  {
    if |texts| == 1 then Quoted(texts[0]) else Quoted(texts[0]) + "," + Elements(texts[1..])
  }

  function Encode(texts: seq<string>): (s: string) {
    if texts == [] then "[]" else "[" + Elements(texts) + "]"
  }

  datatype Parsed<T> = Fail | Done(value: T, rest: string)

  /** The number that the first four characters spell in hexadecimal, or -1. */
  function FourHex(s: string): (n: int)
    ensures -1 <= n < 0x10000
    ensures n >= 0 ==> |s| >= 4
  {
    if |s| < 4 || HexValue(s[0]) < 0 || HexValue(s[1]) < 0 || HexValue(s[2]) < 0 || HexValue(s[3]) < 0 then -1
    else 4096 * HexValue(s[0]) + 256 * HexValue(s[1]) + 16 * HexValue(s[2]) + HexValue(s[3])
  }

  /** The character of a `\u` escape. Outside the first plane it takes two escapes, and half of
      such a pair alone is an error. */
  function ParseUnicode(s: string): (r: Parsed<char>)
    ensures r.Done? ==> |r.rest| < |s|
  {
    var n := FourHex(s);
    if n < 0 || 0xDC00 <= n < 0xE000 then Fail
    else if n < 0xD800 || 0xE000 <= n then Done(n as char, s[4..])
    else if |s| < 6 || s[4] != '\\' || s[5] != 'u' then Fail
    else
      var low := FourHex(s[6..]);
      if low < 0xDC00 || 0xE000 <= low then Fail
      else Done((0x10000 + 0x400 * (n - 0xD800) + (low - 0xDC00)) as char, s[10..])
  }

  /** The character of an escape, after its backslash. */
  function ParseEscape(s: string): (r: Parsed<char>)
    ensures r.Done? ==> |r.rest| < |s|
  {
    if s == "" then Fail
    else match s[0]
      case '"' => Done('"', s[1..])
      case '\\' => Done('\\', s[1..])
      case '/' => Done('/', s[1..])
      case 'b' => Done('\U{08}', s[1..])
      case 'f' => Done('\U{0C}', s[1..])
      case 'n' => Done('\n', s[1..])
      case 'r' => Done('\r', s[1..])
      case 't' => Done('\t', s[1..])
      case 'u' => ParseUnicode(s[1..])
      case _ => Fail
  }

  /** A string, after its opening quote. */
  function ParseString(s: string): (r: Parsed<string>)
    ensures r.Done? ==> |r.value| + |r.rest| < |s|
    decreases |s|
  {
    if s == "" then Fail
    else if s[0] == '"' then Done("", s[1..])
    else if s[0] == '\\' then
      match ParseEscape(s[1..])
      case Fail => Fail
      case Done(c, rest) =>
        (match ParseString(rest)
         case Fail => Fail
         case Done(text, rest) => Done([c] + text, rest))
    else if s[0] < ' ' then Fail
    else match ParseString(s[1..])
      case Fail => Fail
      case Done(text, rest) => Done([s[0]] + text, rest)
  }

  function SkipSpace(s: string): (r: string)
    ensures |r| <= |s|
  {
    if s != "" && (s[0] == ' ' || s[0] == '\t' || s[0] == '\n' || s[0] == '\r') then SkipSpace(s[1..]) else s
  }

  /** One or more elements and the closing bracket. */
  function ParseElements(s: string): (r: Parsed<seq<string>>)
    ensures r.Done? ==> forall text :: text in r.value ==> |text| < |s|
    decreases |s|, 1
  {
    if s == "" || s[0] != '"' then Fail
    else match ParseString(s[1..])
      case Fail => Fail
      case Done(text, rest) => ParseMore(text, SkipSpace(rest))
  }

  /** What follows the element `text`. */
  function ParseMore(text: string, next: string): (r: Parsed<seq<string>>)
    ensures r.Done? ==> forall t :: t in r.value ==> t == text || |t| < |next|
    decreases |next|, 0
  {
    if next == "" then Fail
    else if next[0] == ']' then Done([text], next[1..])
    else if next[0] != ',' then Fail
    else match ParseElements(SkipSpace(next[1..]))
      case Fail => Fail
      case Done(texts, rest) => Done([text] + texts, rest)
  }

  /** The array in `s`, or the empty array for a text that is none. */
  function Decode(s: string): (texts: seq<string>)
    ensures forall text :: text in texts ==> |text| < |s|
  {
    var start := SkipSpace(s);
    if start == "" || start[0] != '[' then []
    else
      var first := SkipSpace(start[1..]);
      var r := if first != "" && first[0] == ']' then Done([], first[1..]) else ParseElements(first);
      if r.Done? && SkipSpace(r.rest) == "" then r.value else []
  }

  predicate NeedsEscape(c: char) {
    c == '"' || c == '\\' || c < ' '
  }

  lemma {:induction false} ParseControl(c: char, rest: string)
    requires c < ' '
    ensures ParseEscape("u00" + [HexDigit(c as int / 16), HexDigit(c as int % 16)] + rest) == Done(c, rest)
  {
    HexDigitValue(c as int / 16);
    HexDigitValue(c as int % 16);
    var s := "u00" + [HexDigit(c as int / 16), HexDigit(c as int % 16)] + rest;
    assert s[1..][4..] == rest;
  }

  lemma {:induction false} ParseEscaped(c: char, rest: string)
    requires NeedsEscape(c)
    ensures Escaped(c)[0] == '\\' && ParseEscape(Escaped(c)[1..] + rest) == Done(c, rest)
  {
    var tail := Escaped(c)[1..];
    if |tail| == 1 {
      assert (tail + rest)[1..] == rest;
    } else {
      ParseControl(c, rest);
      assert tail == "u00" + [HexDigit(c as int / 16), HexDigit(c as int % 16)];
    }
  }

  lemma {:induction false} ParseEscapeInString(escape: string, c: char, tail: string, text: string, rest: string)
    requires escape != "" && escape[0] == '\\' && ParseEscape(escape[1..] + tail) == Done(c, tail)
    requires ParseString(tail) == Done(text, rest)
    ensures ParseString(escape + tail) == Done([c] + text, rest)
  {
    assert (escape + tail)[1..] == escape[1..] + tail;
  }

  lemma {:induction false} ParseStringStep(c: char, tail: string, text: string, rest: string)
    requires ParseString(tail) == Done(text, rest)
    ensures ParseString(Escaped(c) + tail) == Done([c] + text, rest)
  {
    if NeedsEscape(c) {
      ParseEscaped(c, tail);
      ParseEscapeInString(Escaped(c), c, tail, text, rest);
    } else {
      assert Escaped(c) == [c] && ([c] + tail)[1..] == tail;
    }
  }

  lemma {:induction false} Associate(a: string, b: string, c: string, d: string)
    ensures a + b + c + d == a + (b + c + d)
  {
  }

  /** Reading a string gives back what was written. */
  lemma {:induction false} ParseStringEscaped(text: string, rest: string)
    ensures ParseString(EscapedText(text) + "\"" + rest) == Done(text, rest)
  {
    if text == "" {
      assert (EscapedText(text) + "\"" + rest)[1..] == rest;
    } else {
      var tail := EscapedText(text[1..]) + "\"" + rest;
      ParseStringEscaped(text[1..], rest);
      ParseStringStep(text[0], tail, text[1..], rest);
      Associate(Escaped(text[0]), EscapedText(text[1..]), "\"", rest);
      assert [text[0]] + text[1..] == text;
    }
  }

  lemma {:induction false} QuotedSplit(escaped: string, next: string)
    ensures var s := "\"" + escaped + "\"" + next; s[0] == '"' && s[1..] == escaped + "\"" + next
  {
  }

  lemma {:induction false} ParseFirst(text: string, next: string)
    requires SkipSpace(next) == next
    ensures ParseElements(Quoted(text) + next) == ParseMore(text, next)
  {
    ParseStringEscaped(text, next);
    QuotedSplit(EscapedText(text), next);
  }

  lemma {:induction false} ParseNext(text: string, more: string, texts: seq<string>)
    requires more != "" && more[0] == '"' && ParseElements(more) == Done(texts, "")
    ensures SkipSpace("," + more) == "," + more
    ensures ParseMore(text, "," + more) == Done([text] + texts, "")
  {
    assert ("," + more)[1..] == more && SkipSpace(more) == more;
  }

  lemma {:induction false} ElementsSplit(texts: seq<string>)
    requires |texts| > 1
    ensures Elements(texts) + "]" == Quoted(texts[0]) + ("," + (Elements(texts[1..]) + "]"))
    ensures [texts[0]] + texts[1..] == texts
  {
  }

  lemma {:induction false} ParseElementsWritten(texts: seq<string>)
    requires texts != []
    ensures Elements(texts)[0] == '"' && ParseElements(Elements(texts) + "]") == Done(texts, "")
  {
    if |texts| == 1 {
      ParseLast(texts[0], "]");
      assert [texts[0]] == texts;
    } else {
      ParseElementsWritten(texts[1..]);
      ElementsSplit(texts);
      ParseOneMore(texts[0], Elements(texts[1..]) + "]", texts[1..], Elements(texts) + "]");
    }
  }

  lemma {:induction false} ParseLast(text: string, end: string)
    requires |end| == 1 && end[0] == ']'
    ensures Quoted(text)[0] == '"' && ParseElements(Quoted(text) + end) == Done([text], "")
  {
    assert SkipSpace(end) == end;
    ParseFirst(text, end);
    assert end[1..] == "";
  }

  lemma {:induction false} ParseOneMore(text: string, more: string, rest: seq<string>, all: string)
    requires more != "" && more[0] == '"' && ParseElements(more) == Done(rest, "")
    requires all == Quoted(text) + ("," + more)
    ensures all[0] == '"' && ParseElements(all) == Done([text] + rest, "")
  {
    ParseNext(text, more, rest);
    ParseFirst(text, "," + more);
  }

  lemma {:induction false} DecodeBracketed(body: string)
    requires body != "" && body[0] == '"' && ParseElements(body).Done? && ParseElements(body).rest == ""
    ensures Decode("[" + body) == ParseElements(body).value
  {
    var s := "[" + body;
    assert SkipSpace(s) == s && s[1..] == body && SkipSpace(body) == body;
  }

  lemma {:induction false} EncodeIs(texts: seq<string>)
    requires texts != []
    ensures Encode(texts) == "[" + (Elements(texts) + "]")
  {
  }

  lemma {:induction false} DecodeEmpty()
    ensures Decode("[]") == []
  {
  }

  /** The array that is read is the array that was written, for every text. */
  lemma {:induction false} DecodeEncode(texts: seq<string>)
    ensures Decode(Encode(texts)) == texts
  {
    if texts == [] {
      DecodeEmpty();
    } else {
      var body := Elements(texts) + "]";
      ParseElementsWritten(texts);
      DecodeBracketed(body);
      EncodeIs(texts);
    }
  }

  // ---------------------------------------------------------------------------
  // The extra

  /** The server versions in an extra, the most recent first. */
  function VersionsOf(extra: string): (versions: seq<string>) {
    if extra != "" && extra[0] == '[' then Decode(extra) else if extra == "" then [] else [extra]
  }

  /** `versions` with the older ones that are not among them, up to the limit. */
  function KeptFrom(versions: seq<string>, older: seq<string>): (r: seq<string>)
    decreases |older|
  {
    if older == [] || |versions| == KEPT then versions
    else KeptFrom(if older[0] in versions then versions else versions + [older[0]], older[1..])
  }

  function Older(previous: Option<string>): (versions: seq<string>) {
    if previous.None? then [] else VersionsOf(previous.value)
  }

  /** The versions that the extra for `current` should hold. */
  function Kept(current: string, previous: Option<string>): (r: seq<string>) {
    KeptFrom([current], Older(previous))
  }

  function ExtraText(versions: seq<string>): (extra: string)
    requires versions != []
  {
    if |versions| == 1 then versions[0] else Encode(versions)
  }

  lemma {:induction false} KeptFromGrows(versions: seq<string>, older: seq<string>)
    requires 0 < |versions| <= KEPT
    ensures versions <= KeptFrom(versions, older) && |KeptFrom(versions, older)| <= KEPT
    decreases |older|
  {
    if older != [] && |versions| < KEPT {
      KeptFromGrows(if older[0] in versions then versions else versions + [older[0]], older[1..]);
    }
  }

  function Extra(current: string, previous: Option<string>): (extra: string) {
    KeptFromGrows([current], Older(previous));
    ExtraText(Kept(current, previous))
  }

  /** The extra for a new server version, which comes first, and the versions of the old extra. */
  method MakeExtra(current: string, previous: Option<string>) returns (extra: string)
    ensures extra == Extra(current, previous)
  {
    var versions := [current];
    var older := Older(previous);
    for k := 0 to |older|
      invariant 0 < |versions| <= KEPT
      invariant KeptFrom([current], older) == KeptFrom(versions, older[k..])
    {
      if |versions| == KEPT {
        break;
      }
      assert older[k..][1..] == older[k + 1..];
      if older[k] !in versions {
        versions := versions + [older[k]];
      }
    }
    extra := ExtraText(versions);
  }

  /** A lone version that an extra can hold as plain text. */
  predicate Readable(text: string) {
    text != "" && text[0] != '['
  }

  /** An extra holds the versions it was made from exactly when there are two or more of them, or
      the one version is not empty and does not begin with a bracket. */
  lemma {:induction false} ExtraRoundTrip(current: string, previous: Option<string>)
    ensures VersionsOf(Extra(current, previous)) == Kept(current, previous) <==>
            |Kept(current, previous)| > 1 || Readable(current)
  {
    var kept := Kept(current, previous);
    KeptFromGrows([current], Older(previous));
    assert kept[0] == current;
    if |kept| > 1 {
      DecodeEncode(kept);
    } else {
      assert kept == [current];
      if current != "" && current[0] == '[' {
        assert current in kept;
      }
    }
  }

  /** Versions that do not read back: the empty one is lost, and one that is an array is taken for the
      versions that it lists. */
  lemma {:induction false} ArrayIsTakenApart(texts: seq<string>)
    ensures VersionsOf(Extra("", None)) == [] != Kept("", None)
    ensures VersionsOf(Extra(Encode(texts), None)) == texts != Kept(Encode(texts), None)
  {
    assert Kept("", None) == [""] && Kept(Encode(texts), None) == [Encode(texts)];
    DecodeEncode(texts);
    assert Encode(texts) in [Encode(texts)] && Encode(texts) !in texts;
  }

  lemma {:induction false} EscapedHasNoNul(text: string)
    ensures '\0' !in EscapedText(text)
  {
    if text != "" {
      EscapedHasNoNul(text[1..]);
      assert '\0' !in Escaped(text[0]);
    }
  }

  lemma {:induction false} ElementsHaveNoNul(texts: seq<string>)
    requires texts != []
    ensures '\0' !in Elements(texts)
  {
    EscapedHasNoNul(texts[0]);
    if |texts| > 1 {
      ElementsHaveNoNul(texts[1..]);
    }
  }

  /** An extra is a C string exactly if it holds several versions, whose array escapes a NUL, or the one
      version has none. */
  lemma {:induction false} ExtraHasNoNul(current: string, previous: Option<string>)
    ensures '\0' !in Extra(current, previous) <==> |Kept(current, previous)| > 1 || '\0' !in current
  {
    var kept := Kept(current, previous);
    KeptFromGrows([current], Older(previous));
    assert kept[0] == current;
    if |kept| > 1 {
      ElementsHaveNoNul(kept);
    }
  }

  // ---------------------------------------------------------------------------
  // The most recent versions

  /** The first occurrences in `texts`, in order. */
  function Distinct(texts: seq<string>): (r: seq<string>)
    ensures forall t :: t in r <==> t in texts
  {
    if texts == [] then []
    else
      var front, last := texts[..|texts| - 1], texts[|texts| - 1];
      assert texts == front + [last];
      if last in front then Distinct(front) else Distinct(front) + [last]
  }

  function Take(s: seq<string>, n: nat): (r: seq<string>) {
    if |s| <= n then s else s[..n]
  }

  lemma {:induction false} DistinctGrows(texts: seq<string>, more: seq<string>)
    ensures Distinct(texts) <= Distinct(texts + more)
    decreases |more|
  {
    if more == [] {
      assert texts + more == texts;
    } else {
      var all := texts + more;
      assert all[..|all| - 1] == texts + more[..|more| - 1];
      DistinctGrows(texts, more[..|more| - 1]);
    }
  }

  lemma {:induction false} KeptFromIsDistinct(done: seq<string>, versions: seq<string>, older: seq<string>)
    requires versions == Take(Distinct(done), KEPT) && done != []
    ensures KeptFrom(versions, older) == Take(Distinct(done + older), KEPT)
    decreases |older|
  {
    if older == [] {
      assert done + older == done;
    } else if |versions| == KEPT {
      DistinctGrows(done, older);
    } else {
      var next := done + [older[0]];
      assert next[..|next| - 1] == done;
      assert done + older == next + older[1..];
      KeptFromIsDistinct(next, if older[0] in versions then versions else versions + [older[0]], older[1..]);
    }
  }

  /** The kept versions are the most recent distinct ones: the current one, then the older ones in
      their order, without repetition, at most four. */
  lemma {:induction false} KeptIsRecent(current: string, previous: Option<string>)
    ensures Kept(current, previous) == Take(Distinct([current] + Older(previous)), KEPT)
  {
    assert [current][..0] == [];
    assert Distinct([current]) == [current];
    KeptFromIsDistinct([current], [current], Older(previous));
  }
}
