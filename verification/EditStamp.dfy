/**
 The stamp of an edit: the line that names the server version an editor started from, in the
 iCalendar or vCard text that goes to EDS and comes back with the save.

 `stamp` adds one such line before each END line of a component, and `unstamp` takes the stamp
 lines out again and reads the first of them.
 */
module EditStamp {
  import opened Options

  const STAMP := "X-JMAP-BASE"

  // ---------------------------------------------------------------------------
  // Lines

  /** The pieces of `text`, each up to and with its line feed. */
  function Lines(text: string): (lines: seq<string>) {
    if text == [] then []
    else if text[0] == '\n' || |text| == 1 then [text[..1]] + Lines(text[1..])
    else
      var rest := Lines(text[1..]);
      if rest == [] then [text] else [[text[0]] + rest[0]] + rest[1..]
  }

  function Join(lines: seq<string>): (text: string) {
    if lines == [] then "" else lines[0] + Join(lines[1..])
  }

  /** A piece with one line feed, at its end. */
  predicate Complete(line: string) {
    line != "" && line[|line| - 1] == '\n' && '\n' !in line[..|line| - 1]
  }

  predicate Piece(line: string) {
    line != "" && '\n' !in line[..|line| - 1]
  }

  /** Every piece but the last is complete, and the last is not empty. */
  predicate Proper(lines: seq<string>) {
    lines == [] ||
    (&& Piece(lines[0])
     && (|lines| > 1 ==> Complete(lines[0]))
     && Proper(lines[1..]))
  }

  lemma {:induction false} LinesOfPiece(line: string, rest: string)
    requires Complete(line) || (Piece(line) && rest == "")
    ensures Lines(line + rest) == [line] + Lines(rest)
    decreases |line|
  {
    if |line| == 1 {
      assert (line + rest)[..1] == line && (line + rest)[1..] == rest;
    } else {
      var tail := line[1..];
      assert line[0] == line[..|line| - 1][0] && line[0] != '\n';
      assert tail[..|tail| - 1] == line[..|line| - 1][1..];
      LinesOfPiece(tail, rest);
      assert (line + rest)[1..] == tail + rest;
      assert [line[0]] + tail == line;
    }
  }

  /** Splitting is the inverse of joining, on proper pieces. */
  lemma {:induction false} LinesJoin(lines: seq<string>)
    requires Proper(lines)
    ensures Lines(Join(lines)) == lines
    decreases |lines|
  {
    if lines != [] {
      LinesJoin(lines[1..]);
      LinesOfPiece(lines[0], Join(lines[1..]));
      assert [lines[0]] + lines[1..] == lines;
    }
  }

  lemma {:induction false} Associate(a: string, b: string, c: string)
    ensures a + (b + c) == (a + b) + c
  {
  }

  lemma {:induction false} LongerPiece(c: char, rest: seq<string>)
    requires c != '\n' && rest != [] && Proper(rest)
    ensures var lines := [[c] + rest[0]] + rest[1..]; Proper(lines) && Join(lines) == [c] + Join(rest)
  {
  }

  lemma {:induction false} JoinLines(text: string)
    ensures Join(Lines(text)) == text && Proper(Lines(text))
    decreases |text|
  {
    if text != "" {
      JoinLines(text[1..]);
      var rest := Lines(text[1..]);
      assert text == [text[0]] + text[1..];
      if text[0] == '\n' || |text| == 1 {
        assert text[..1] == [text[0]];
        assert ([text[..1]] + rest)[1..] == rest;
      } else {
        LongerPiece(text[0], rest);
      }
    }
  }

  lemma {:induction false} JoinAppend(a: seq<string>, b: seq<string>)
    ensures Join(a + b) == Join(a) + Join(b)
  {
    if a == [] {
      assert a + b == b;
    } else {
      assert (a + b)[1..] == a[1..] + b;
      JoinAppend(a[1..], b);
    }
  }

  // ---------------------------------------------------------------------------
  // Characters

  function Lower(c: char): (r: char) {
    if 'A' <= c <= 'Z' then (c as int + 32) as char else c
  }

  predicate EqIgnoreAsciiCase(a: string, b: string) {
    |a| == |b| && forall i :: 0 <= i < |a| ==> Lower(a[i]) == Lower(b[i])
  }

  /** The Unicode White_Space property. */
  predicate IsWhitespace(c: char) {
    || '\t' <= c <= '\r' || c == ' ' || c == '\U{85}' || c == '\U{A0}' || c == '\U{1680}'
    || '\U{2000}' <= c <= '\U{200A}' || c == '\U{2028}' || c == '\U{2029}' || c == '\U{202F}'
    || c == '\U{205F}' || c == '\U{3000}'
  }

  function TrimStart(s: string): (r: string) {
    if s != "" && IsWhitespace(s[0]) then TrimStart(s[1..]) else s
  }

  function TrimEnd(s: string): (r: string) {
    if s != "" && IsWhitespace(s[|s| - 1]) then TrimEnd(s[..|s| - 1]) else s
  }

  function Trim(s: string): (r: string) {
    TrimEnd(TrimStart(s))
  }

  predicate IsBreak(c: char) {
    c == '\r' || c == '\n'
  }

  /** The line without its trailing carriage returns and line feeds. */
  function Content(line: string): (r: string)
    ensures r <= line
    ensures forall i :: |r| <= i < |line| ==> IsBreak(line[i])
    ensures r != "" ==> !IsBreak(r[|r| - 1])
  {
    if line != "" && IsBreak(line[|line| - 1]) then Content(line[..|line| - 1]) else line
  }

  // ---------------------------------------------------------------------------
  // The stamp

  predicate IsEnd(line: string, kind: string) {
    EqIgnoreAsciiCase(Content(line), "END:" + kind)
  }

  predicate IsStamp(line: string) {
    |line| > |STAMP| && EqIgnoreAsciiCase(line[..|STAMP|], STAMP) && (line[|STAMP|] == ':' || line[|STAMP|] == ';')
  }

  predicate IsFold(line: string) {
    line != "" && (line[0] == ' ' || line[0] == '\t')
  }

  /** The stamp line for `line`, with the same line break, or a new one if `line` has none. */
  function StampLine(line: string, revision: string): (r: string) {
    var ending := line[|Content(line)|..];
    STAMP + ":" + revision + (if ending == "" then "\r\n" else ending)
  }

  /** `line`, after its stamp line if it is an END line of `kind`. */
  function StampedLine(line: string, kind: string, revision: string): (r: string) {
    (if IsEnd(line, kind) then StampLine(line, revision) else "") + line
  }

  function StampedLines(lines: seq<string>, kind: string, revision: string): (r: string) {
    if lines == [] then "" else StampedLine(lines[0], kind, revision) + StampedLines(lines[1..], kind, revision)
  }

  /** The text with a stamp line before each END line of `kind`. */
  function Stamped(text: string, kind: string, revision: string): (r: string) {
    StampedLines(Lines(text), kind, revision)
  }

  lemma {:induction false} StampedLinesAppend(lines: seq<string>, line: string, kind: string, revision: string)
    ensures StampedLines(lines + [line], kind, revision) ==
            StampedLines(lines, kind, revision) + StampedLine(line, kind, revision)
  {
    if lines == [] {
      assert lines + [line] == [line];
      assert StampedLines([line][1..], kind, revision) == "";
    } else {
      assert (lines + [line])[1..] == lines[1..] + [line];
      StampedLinesAppend(lines[1..], line, kind, revision);
      Associate(StampedLine(lines[0], kind, revision), StampedLines(lines[1..], kind, revision), StampedLine(line, kind, revision));
    }
  }

  /** Adds the stamp, line by line. */
  method Stamp(text: string, kind: string, revision: string) returns (stamped: string)
    ensures stamped == Stamped(text, kind, revision)
  {
    var lines := Lines(text);
    stamped := "";
    for k := 0 to |lines|
      invariant stamped == StampedLines(lines[..k], kind, revision)
    {
      StampedLinesAppend(lines[..k], lines[k], kind, revision);
      assert lines[..k + 1] == lines[..k] + [lines[k]];
      stamped := stamped + StampedLine(lines[k], kind, revision);
    }
    assert lines[..|lines|] == lines;
  }

  /** The value after the first colon of a line, if it has one. */
  function AfterColon(line: string): (r: Option<string>) {
    if line == "" then None else if line[0] == ':' then Some(line[1..]) else AfterColon(line[1..])
  }

  datatype Unstamping = Unstamping(kept: string, found: Option<string>, inStamp: bool)

  /** The reader after one more line: a stamp line and its folded continuations are left out, and
      the first stamp value is kept. */
  function UnstampLine(u: Unstamping, line: string): (r: Unstamping) {
    if u.inStamp && IsFold(line) then u
    else if IsStamp(line) then
      var value := match AfterColon(line) case None => None case Some(v) => Some(Trim(v));
      Unstamping(u.kept, if u.found.None? then value else u.found, true)
    else Unstamping(u.kept + line, u.found, false)
  }

  function UnstampLines(u: Unstamping, lines: seq<string>): (r: Unstamping)
    decreases |lines|
  {
    if lines == [] then u else UnstampLines(UnstampLine(u, lines[0]), lines[1..])
  }

  const NOTHING_READ := Unstamping("", None, false)

  function Unstamped(text: string): (r: (string, Option<string>)) {
    var u := UnstampLines(NOTHING_READ, Lines(text));
    (u.kept, u.found)
  }

  lemma {:induction false} UnstampLinesAppend(u: Unstamping, a: seq<string>, b: seq<string>)
    ensures UnstampLines(u, a + b) == UnstampLines(UnstampLines(u, a), b)
    decreases |a|
  {
    if a == [] {
      assert a + b == b;
    } else {
      assert (a + b)[1..] == a[1..] + b;
      UnstampLinesAppend(UnstampLine(u, a[0]), a[1..], b);
    }
  }

  /** Removes each stamp line, and also gives the first stamp. */
  method Unstamp(text: string) returns (kept: string, found: Option<string>)
    ensures (kept, found) == Unstamped(text)
  {
    var lines := Lines(text);
    var inStamp := false;
    kept, found := "", None;
    for k := 0 to |lines|
      invariant UnstampLines(NOTHING_READ, lines[..k]) == Unstamping(kept, found, inStamp)
    {
      var line := lines[k];
      UnstampLinesAppend(NOTHING_READ, lines[..k], [line]);
      assert lines[..k + 1] == lines[..k] + [line];
      assert UnstampLines(Unstamping(kept, found, inStamp), [line]) == UnstampLine(Unstamping(kept, found, inStamp), line) by {
        assert [line][1..] == [];
      }
      if inStamp && IsFold(line) {
        continue;
      }
      inStamp := IsStamp(line);
      if inStamp {
        if found.None? {
          var value := AfterColon(line);
          found := if value.None? then None else Some(Trim(value.value));
        }
        continue;
      }
      kept := kept + line;
    }
    assert lines[..|lines|] == lines;
  }

  // ---------------------------------------------------------------------------
  // The round trip

  /** The text of a revision: sixteen hexadecimal digits, so nothing that reading would trim. */
  predicate Solid(revision: string) {
    forall c :: c in revision ==> !IsWhitespace(c)
  }

  predicate HasStamp(lines: seq<string>) {
    lines != [] && (IsStamp(lines[0]) || HasStamp(lines[1..]))
  }

  predicate HasEnd(lines: seq<string>, kind: string) {
    lines != [] && (IsEnd(lines[0], kind) || HasEnd(lines[1..], kind))
  }

  /** The text ends with an END line that has a carriage return and no line feed. */
  predicate BareReturn(lines: seq<string>, kind: string) {
    lines != [] && IsEnd(lines[|lines| - 1], kind) && lines[|lines| - 1][|lines[|lines| - 1]| - 1] == '\r'
  }

  function MarkedLine(line: string, kind: string, revision: string): (r: seq<string>) {
    (if IsEnd(line, kind) then [StampLine(line, revision)] else []) + [line]
  }

  /** The stamped text as lines. */
  function Marked(lines: seq<string>, kind: string, revision: string): (r: seq<string>) {
    if lines == [] then [] else MarkedLine(lines[0], kind, revision) + Marked(lines[1..], kind, revision)
  }

  lemma {:induction false} EndIsNoStamp(line: string, kind: string)
    requires IsEnd(line, kind)
    ensures line != "" && !IsStamp(line) && !IsFold(line)
  {
    assert Content(line)[0] == line[0];
    assert Lower(Content(line)[0]) == Lower(("END:" + kind)[0]);
    assert |line| > |STAMP| ==> line[..|STAMP|][0] == line[0];
    assert Lower(STAMP[0]) == 'x';
  }

  lemma {:induction false} AfterColonAt(name: string, value: string)
    requires ':' !in name
    ensures AfterColon(name + ":" + value) == Some(value)
  {
    var line := name + ":" + value;
    if name == "" {
      assert line[1..] == value;
    } else {
      assert line[1..] == name[1..] + ":" + value;
      assert line[0] == name[0];
      AfterColonAt(name[1..], value);
    }
  }

  lemma {:induction false} TrimEndBreaks(value: string, breaks: string)
    requires Solid(value) && forall c :: c in breaks ==> IsBreak(c)
    ensures TrimEnd(value + breaks) == value
    decreases |breaks|
  {
    var all := value + breaks;
    if breaks == "" {
      assert all == value;
      if value != "" { assert value[|value| - 1] in value; }
    } else {
      assert all[|all| - 1] == breaks[|breaks| - 1];
      assert breaks[|breaks| - 1] in breaks;
      assert all[..|all| - 1] == value + breaks[..|breaks| - 1];
      TrimEndBreaks(value, breaks[..|breaks| - 1]);
    }
  }

  lemma {:induction false} TrimStartBreaks(breaks: string)
    requires forall c :: c in breaks ==> IsBreak(c)
    ensures TrimStart(breaks) == ""
  {
    if breaks != "" {
      assert breaks[0] in breaks;
      TrimStartBreaks(breaks[1..]);
    }
  }

  lemma {:induction false} TrimBreaks(value: string, breaks: string)
    requires Solid(value) && forall c :: c in breaks ==> IsBreak(c)
    ensures Trim(value + breaks) == value
  {
    if value == "" {
      assert value + breaks == breaks;
      TrimStartBreaks(breaks);
    } else {
      assert (value + breaks)[0] == value[0];
      assert value[0] in value;
      TrimEndBreaks(value, breaks);
    }
  }

  /** A stamp line is read as a stamp with its revision. */
  lemma {:induction false} StampLineReads(line: string, tail: string, revision: string)
    requires Solid(revision)
    ensures IsStamp(StampLine(line, revision) + tail)
    ensures tail == "" ==> match AfterColon(StampLine(line, revision)) case Some(v) => Trim(v) == revision case None => false
  {
    var ending := line[|Content(line)|..];
    var breaks := if ending == "" then "\r\n" else ending;
    var stamp := StampLine(line, revision);
    assert stamp == STAMP + ":" + (revision + breaks);
    assert (stamp + tail)[..|STAMP|] == STAMP;
    assert (stamp + tail)[|STAMP|] == ':';
    AfterColonAt(STAMP, revision + breaks);
    assert forall c :: c in breaks ==> IsBreak(c);
    TrimBreaks(revision, breaks);
  }

  lemma {:induction false} StampLineIsComplete(line: string, revision: string)
    requires Solid(revision) && Piece(line)
    requires Content(line) == line || line[|line| - 1] == '\n'
    ensures Complete(StampLine(line, revision))
  {
    var content := Content(line);
    var ending := line[|content|..];
    var breaks := if ending == "" then "\r\n" else ending;
    var stamp := StampLine(line, revision);
    var head := STAMP + ":" + revision;
    assert stamp == head + breaks;
    assert forall i :: 0 <= i < |breaks| - 1 ==> breaks[i] != '\n' by {
      if ending != "" {
        assert forall i :: 0 <= i < |breaks| - 1 ==> breaks[i] == line[..|line| - 1][|content| + i];
      }
    }
    assert breaks[|breaks| - 1] == '\n';
    assert '\n' !in head by {
      assert '\n' !in STAMP + ":";
    }
    assert stamp[..|stamp| - 1] == head + breaks[..|breaks| - 1];
  }

  lemma {:induction false} ProperCons(line: string, rest: seq<string>)
    requires Piece(line) && (rest != [] ==> Complete(line)) && Proper(rest)
    ensures Proper([line] + rest) && Join([line] + rest) == line + Join(rest)
  {
  }

  lemma {:induction false} ProperTwo(stamp: string, line: string, rest: seq<string>)
    requires Complete(stamp) && Piece(line) && (rest != [] ==> Complete(line)) && Proper(rest)
    ensures Proper([stamp, line] + rest) && Join([stamp, line] + rest) == (stamp + line) + Join(rest)
  {
  }

  lemma {:induction false} MarkedLineIsProper(line: string, rest: seq<string>, kind: string, revision: string)
    requires Piece(line) && (rest != [] ==> Complete(line)) && Proper(rest) && Solid(revision)
    requires IsEnd(line, kind) ==> Content(line) == line || line[|line| - 1] == '\n'
    ensures Proper(MarkedLine(line, kind, revision) + rest)
    ensures Join(MarkedLine(line, kind, revision) + rest) == StampedLine(line, kind, revision) + Join(rest)
  {
    if IsEnd(line, kind) {
      StampLineIsComplete(line, revision);
      ProperTwo(StampLine(line, revision), line, rest);
      assert MarkedLine(line, kind, revision) == [StampLine(line, revision), line];
    } else {
      ProperCons(line, rest);
      assert MarkedLine(line, kind, revision) == [line];
      assert "" + line == line;
    }
  }

  lemma {:induction false} MarkedIsProper(lines: seq<string>, kind: string, revision: string)
    requires Proper(lines) && Solid(revision) && !BareReturn(lines, kind)
    ensures Proper(Marked(lines, kind, revision))
    ensures Join(Marked(lines, kind, revision)) == StampedLines(lines, kind, revision)
    decreases |lines|
  {
    if lines != [] {
      MarkedIsProper(lines[1..], kind, revision);
      if IsEnd(lines[0], kind) {
        EndIsClosed(lines, kind);
      }
      assert |lines| == 1 ==> Marked(lines[1..], kind, revision) == [];
      MarkedLineIsProper(lines[0], Marked(lines[1..], kind, revision), kind, revision);
    }
  }

  lemma {:induction false} EndIsClosed(lines: seq<string>, kind: string)
    requires Proper(lines) && lines != [] && IsEnd(lines[0], kind) && !BareReturn(lines, kind)
    ensures Content(lines[0]) == lines[0] || lines[0][|lines[0]| - 1] == '\n'
  {
  }

  lemma {:induction false} UnstampOne(u: Unstamping, line: string)
    ensures UnstampLines(u, [line]) == UnstampLine(u, line)
  {
  }

  /** How the reader comes from `u` to `r` over `text` and the stamps added to it: it keeps the lines
      that are neither stamps nor folded under one. */
  predicate ReadsText(u: Unstamping, r: Unstamping, text: string, hasStamp: bool, hasEnd: bool, revision: string) {
    && |r.kept| <= |u.kept| + |text|
    && (hasStamp ==> |r.kept| < |u.kept| + |text|)
    && (!hasStamp && !u.inStamp ==>
          !r.inStamp && r.kept == u.kept + text && r.found == (if u.found.None? && hasEnd then Some(revision) else u.found))
  }

  predicate Reads(u: Unstamping, r: Unstamping, lines: seq<string>, kind: string, revision: string) {
    ReadsText(u, r, Join(lines), HasStamp(lines), HasEnd(lines, kind), revision)
  }

  lemma {:induction false} ReadsTextOn(u: Unstamping, v: Unstamping, r: Unstamping, a: string, b: string,
                                       stampA: bool, stampB: bool, endA: bool, endB: bool, revision: string)
    requires ReadsText(u, v, a, stampA, endA, revision) && ReadsText(v, r, b, stampB, endB, revision)
    ensures ReadsText(u, r, a + b, stampA || stampB, endA || endB, revision)
  {
  }

  lemma {:induction false} FirstAndRest(lines: seq<string>, kind: string)
    requires lines != []
    ensures Join(lines) == Join([lines[0]]) + Join(lines[1..])
    ensures HasStamp(lines) == (HasStamp([lines[0]]) || HasStamp(lines[1..]))
    ensures HasEnd(lines, kind) == (HasEnd([lines[0]], kind) || HasEnd(lines[1..], kind))
  {
  }

  lemma {:induction false} ReadsOn(u: Unstamping, v: Unstamping, r: Unstamping, lines: seq<string>, kind: string, revision: string)
    requires lines != [] && Reads(u, v, [lines[0]], kind, revision) && Reads(v, r, lines[1..], kind, revision)
    ensures Reads(u, r, lines, kind, revision)
  {
    FirstAndRest(lines, kind);
    ReadsTextOn(u, v, r, Join([lines[0]]), Join(lines[1..]), HasStamp([lines[0]]), HasStamp(lines[1..]),
                HasEnd([lines[0]], kind), HasEnd(lines[1..], kind), revision);
  }

  lemma {:induction false} OneLine(line: string, kind: string)
    ensures Join([line]) == line && HasStamp([line]) == IsStamp(line) && HasEnd([line], kind) == IsEnd(line, kind)
  {
  }

  lemma {:induction false} UnstampMarkedLine(u: Unstamping, line: string, kind: string, revision: string)
    requires Solid(revision)
    ensures Reads(u, UnstampLines(u, MarkedLine(line, kind, revision)), [line], kind, revision)
  {
    OneLine(line, kind);
    if IsEnd(line, kind) {
      EndIsNoStamp(line, kind);
      var stamp := StampLine(line, revision);
      StampLineReads(line, "", revision);
      assert stamp + "" == stamp;
      assert !IsFold(stamp) by { assert stamp[0] == STAMP[0]; }
      assert MarkedLine(line, kind, revision) == [stamp] + [line];
      UnstampLinesAppend(u, [stamp], [line]);
      UnstampOne(u, stamp);
      UnstampOne(UnstampLine(u, stamp), line);
    } else {
      assert MarkedLine(line, kind, revision) == [line];
      UnstampOne(u, line);
    }
  }

  lemma {:induction false} UnstampMarked(u: Unstamping, lines: seq<string>, kind: string, revision: string)
    requires Solid(revision)
    ensures Reads(u, UnstampLines(u, Marked(lines, kind, revision)), lines, kind, revision)
    decreases |lines|
  {
    if lines == [] {
      assert u.kept + Join(lines) == u.kept;
    } else {
      var first, rest := MarkedLine(lines[0], kind, revision), Marked(lines[1..], kind, revision);
      var v := UnstampLines(u, first);
      UnstampMarkedLine(u, lines[0], kind, revision);
      UnstampMarked(v, lines[1..], kind, revision);
      UnstampLinesAppend(u, first, rest);
      ReadsOn(u, v, UnstampLines(v, rest), lines, kind, revision);
    }
  }

  /** The text that `unstamp` reads back from a stamped text, and the revision, are the text and
      the revision that went in exactly when the text holds no stamp line, has an END line of the
      kind, and does not end with one that has a carriage return and no line feed. */
  lemma {:induction false} RoundTrip(text: string, kind: string, revision: string)
    requires Solid(revision)
    ensures Unstamped(Stamped(text, kind, revision)) == (text, Some(revision)) <==>
            var lines := Lines(text); !HasStamp(lines) && HasEnd(lines, kind) && !BareReturn(lines, kind)
  {
    var lines := Lines(text);
    JoinLines(text);
    if BareReturn(lines, kind) {
      BareReturnLosesALine(lines, kind, revision);
    } else {
      MarkedIsProper(lines, kind, revision);
      LinesJoin(Marked(lines, kind, revision));
      UnstampMarked(NOTHING_READ, lines, kind, revision);
      assert "" + Join(lines) == text;
    }
  }

  lemma {:induction false} ProperFront(lines: seq<string>)
    requires Proper(lines) && lines != []
    ensures Proper(lines[..|lines| - 1]) && Piece(lines[|lines| - 1])
    ensures forall i :: 0 <= i < |lines| - 1 ==> Complete(lines[i])
    decreases |lines|
  {
    if |lines| > 1 {
      var rest := lines[1..];
      ProperFront(rest);
      var front := lines[..|lines| - 1];
      assert front[1..] == rest[..|rest| - 1];
      assert forall i :: 0 < i < |lines| - 1 ==> lines[i] == rest[i - 1];
    }
  }

  lemma {:induction false} ProperAppend(lines: seq<string>, last: string)
    requires Proper(lines) && Piece(last)
    requires lines != [] ==> Complete(lines[|lines| - 1])
    ensures Proper(lines + [last])
    decreases |lines|
  {
    if lines == [] {
      assert lines + [last] == [last];
    } else {
      assert (lines + [last])[1..] == lines[1..] + [last];
      ProperAppend(lines[1..], last);
    }
  }

  lemma {:induction false} FrontHasNoBareReturn(lines: seq<string>, kind: string)
    requires forall i :: 0 <= i < |lines| ==> Complete(lines[i])
    ensures !BareReturn(lines, kind)
  {
  }

  /** The stamped text splits into the marked lines of the front and one last line, in which the stamp
      and the END line run together. */
  lemma {:induction false} RunTogether(front: seq<string>, last: string, kind: string, revision: string)
    requires Proper(front) && (forall i :: 0 <= i < |front| ==> Complete(front[i])) && Piece(last) && last[|last| - 1] == '\r'
    requires Solid(revision) && IsEnd(last, kind)
    ensures Lines(StampedLines(front + [last], kind, revision)) == Marked(front, kind, revision) + [StampLine(last, revision) + last]
  {
    var m, run := Marked(front, kind, revision), StampLine(last, revision) + last;
    FrontHasNoBareReturn(front, kind);
    MarkedIsProper(front, kind, revision);
    StampedLinesAppend(front, last, kind, revision);
    RunIsAPiece(last, revision);
    if front != [] {
      MarkedEndsComplete(front, kind, revision);
    }
    ProperAppend(m, run);
    LinesJoin(m + [run]);
    JoinAppend(m, [run]);
    OneLine(run, kind);
  }

  /** With a bare carriage return at the end, the stamp line and the END line run together. The
      reader takes both for the stamp and loses the END line. */
  lemma {:induction false} BareReturnLosesALine(lines: seq<string>, kind: string, revision: string)
    requires Proper(lines) && Solid(revision) && BareReturn(lines, kind)
    ensures |Unstamped(StampedLines(lines, kind, revision)).0| < |Join(lines)|
  {
    var n := |lines| - 1;
    var front, last := lines[..n], lines[n];
    assert lines == front + [last];
    ProperFront(lines);
    var m, run := Marked(front, kind, revision), StampLine(last, revision) + last;
    RunTogether(front, last, kind, revision);
    StampLineReads(last, last, revision);
    UnstampMarked(NOTHING_READ, front, kind, revision);
    UnstampLinesAppend(NOTHING_READ, m, [run]);
    UnstampOne(UnstampLines(NOTHING_READ, m), run);
    JoinAppend(front, [last]);
    OneLine(last, kind);
  }

  /** Such a text: one END line with a carriage return and no line feed. */
  lemma {:induction false} BareReturnExample(revision: string)
    requires Solid(revision)
    ensures Unstamped(Stamped("END:VCARD\r", "VCARD", revision)) != ("END:VCARD\r", Some(revision))
  {
    var text, end := "END:VCARD\r", "END:VCARD";
    assert text[..9] == end && text[9] == '\r' && Content(text[..9]) == end;
    assert IsEnd(text, "VCARD") by {
      assert Content(text) == end && "END:" + "VCARD" == end;
    }
    assert text + "" == text && Piece(text);
    LinesOfPiece(text, "");
    assert Lines(text) == [text];
    RoundTrip(text, "VCARD", revision);
  }

  lemma {:induction false} MarkedEndsComplete(lines: seq<string>, kind: string, revision: string)
    requires lines != [] && Complete(lines[|lines| - 1])
    ensures var m := Marked(lines, kind, revision); m != [] && Complete(m[|m| - 1])
    decreases |lines|
  {
    if |lines| > 1 {
      MarkedEndsComplete(lines[1..], kind, revision);
    }
  }

  lemma {:induction false} RunIsAPiece(last: string, revision: string)
    requires Solid(revision) && Piece(last) && last[|last| - 1] == '\r'
    ensures Piece(StampLine(last, revision) + last)
  {
    var content := Content(last);
    assert '\n' !in last by {
      assert last == last[..|last| - 1] + [last[|last| - 1]];
    }
    assert content != "" ==> !IsBreak(content[|content| - 1]);
    assert content != last;
    var stamp := StampLine(last, revision);
    assert stamp == STAMP + ":" + revision + last[|content|..];
    assert '\n' !in STAMP + ":";
    assert '\n' !in stamp;
    assert '\n' !in stamp + last;
  }
}
