/**
 Lists in one string: the capabilities that a backend adds to those it inherits, and the library
 directories that one build script publishes for another.
 */
module ListCodecs {
  import opened Options
  import opened Splitting

  // ---------------------------------------------------------------------------
  // Splitting and joining

  function Join(parts: seq<string>, sep: char): (text: string) {
    if parts == [] then "" else if |parts| == 1 then parts[0] else parts[0] + [sep] + Join(parts[1..], sep)
  }

  function NonEmpty(parts: seq<string>): (r: seq<string>)
    ensures forall i :: 0 <= i < |r| ==> r[i] != "" && r[i] in parts
  {
    if parts == [] then [] else (if parts[0] == "" then [] else [parts[0]]) + NonEmpty(parts[1..])
  }

  /** The items of a list in a string: empty ones do not count. */
  function Items(text: string, sep: char): (items: seq<string>)
    ensures forall i :: 0 <= i < |items| ==> items[i] != "" && sep !in items[i]
  {
    NonEmpty(Split(text, sep))
  }

  /** Items that a list can hold: not empty, without the separator. */
  predicate Plain(items: seq<string>, sep: char) {
    forall i :: 0 <= i < |items| ==> items[i] != "" && sep !in items[i]
  }

  lemma {:induction false} NonEmptyPlain(items: seq<string>)
    requires forall i :: 0 <= i < |items| ==> items[i] != ""
    ensures NonEmpty(items) == items
  {
    if items != [] {
      NonEmptyPlain(items[1..]);
      assert items == [items[0]] + items[1..];
    }
  }

  lemma {:induction false} SplitJoin(items: seq<string>, sep: char)
    requires items != [] && forall i :: 0 <= i < |items| ==> sep !in items[i]
    ensures Split(Join(items, sep), sep) == items
  {
    if |items| == 1 {
      SplitFirst(items[0], "", sep);
    } else {
      SplitJoin(items[1..], sep);
      SplitFirst(items[0], Join(items[1..], sep), sep);
      assert items == [items[0]] + items[1..];
    }
  }

  /** A list of non-empty items, the empty list included, survives the trip through a string exactly
      if no item holds the separator. */
  lemma {:induction false} ListRoundTrip(items: seq<string>, sep: char)
    requires forall i :: 0 <= i < |items| ==> items[i] != ""
    ensures Items(Join(items, sep), sep) == items <==> Plain(items, sep)
  {
    if Plain(items, sep) {
      if items == [] {
        assert NonEmpty([""]) == [] + NonEmpty([""][1..]);
      } else {
        SplitJoin(items, sep);
        NonEmptyPlain(items);
      }
    }
  }

  // ---------------------------------------------------------------------------
  // Capabilities

  predicate NoRepeat(items: seq<string>) {
    forall i, j :: 0 <= i < j < |items| ==> items[i] != items[j]
  }

  /** The list with each required item that it lacks appended. */
  function Completed(items: seq<string>, required: seq<string>): (r: seq<string>)
    decreases |required|
  {
    if required == [] then items
    else Completed(if required[0] in items then items else items + [required[0]], required[1..])
  }

  /** The inherited items in their order, then the required ones that are missing. */
  method Capabilities(inherited: Option<string>, required: seq<string>) returns (text: string)
    ensures text == CapabilitiesText(inherited, required)
  {
    var caps := Items(if inherited.None? then "" else inherited.value, ',');
    ghost var start := caps;
    for i := 0 to |required|
      invariant Completed(start, required) == Completed(caps, required[i..])
    {
      assert required[i..][1..] == required[i + 1..];
      if required[i] !in caps {
        caps := caps + [required[i]];
      }
    }
    text := Join(caps, ',');
  }

  function CapabilitiesText(inherited: Option<string>, required: seq<string>): (text: string) {
    Join(Completed(Items(if inherited.None? then "" else inherited.value, ','), required), ',')
  }

  /** The inherited items come first and unchanged; what follows is exactly the missing required items,
      each once. */
  lemma {:induction false} CompletedIs(items: seq<string>, required: seq<string>)
    ensures items <= Completed(items, required)
    ensures forall r :: r in required ==> r in Completed(items, required)
    ensures forall k :: |items| <= k < |Completed(items, required)| ==>
              Completed(items, required)[k] in required && Completed(items, required)[k] !in Completed(items, required)[..k]
    decreases |required|
  {
    if required != [] {
      var next := if required[0] in items then items else items + [required[0]];
      CompletedIs(next, required[1..]);
      var all := Completed(items, required);
      assert next <= all && required[0] in next;
      assert forall i :: 0 <= i < |next| ==> all[i] == next[i];
      assert all[..|items|] == items;
      assert required == [required[0]] + required[1..];
    }
  }

  lemma {:induction false} CompletedAlready(items: seq<string>, required: seq<string>)
    requires forall r :: r in required ==> r in items
    ensures Completed(items, required) == items
    decreases |required|
  {
    if required != [] {
      CompletedAlready(items, required[1..]);
    }
  }

  lemma {:induction false} CompletedPlain(items: seq<string>, required: seq<string>)
    requires Plain(items, ',') && Plain(required, ',')
    ensures Plain(Completed(items, required), ',')
    decreases |required|
  {
    if required != [] {
      CompletedPlain(if required[0] in items then items else items + [required[0]], required[1..]);
    }
  }

  /** A reader of the result finds the inherited items and then the missing required ones. Adding the
      capabilities again changes nothing. */
  lemma {:induction false} CapabilitiesRead(inherited: Option<string>, required: seq<string>)
    requires Plain(required, ',')
    ensures var old' := Items(if inherited.None? then "" else inherited.value, ',');
            Items(CapabilitiesText(inherited, required), ',') == Completed(old', required)
    ensures CapabilitiesText(Some(CapabilitiesText(inherited, required)), required) == CapabilitiesText(inherited, required)
  {
    var old' := Items(if inherited.None? then "" else inherited.value, ',');
    var all := Completed(old', required);
    CompletedPlain(old', required);
    ListRoundTrip(all, ',');
    CompletedIs(old', required);
    CompletedAlready(all, required);
  }

  const CALENDAR_CAPABILITIES := ["create-messages", "save-schedules", "itip-suppress-on-remove-supported"]
  const BOOK_CAPABILITIES := ["contact-lists"]

  lemma {:induction false} OwnPlain()
    ensures Plain(CALENDAR_CAPABILITIES, ',') && Plain(BOOK_CAPABILITIES, ',')
  {
    var messages, schedules, removal := "create-messages", "save-schedules", "itip-suppress-on-remove-supported";
    var lists := "contact-lists";
    assert ',' !in messages && ',' !in schedules && ',' !in removal && ',' !in lists;
  }

  /** What the backends add reads back from any inherited text, and adding it again changes nothing. */
  lemma {:induction false} OwnCapabilities(inherited: Option<string>, required: seq<string>)
    requires required == CALENDAR_CAPABILITIES || required == BOOK_CAPABILITIES
    ensures forall r :: r in required ==> r in Items(CapabilitiesText(inherited, required), ',')
    ensures CapabilitiesText(Some(CapabilitiesText(inherited, required)), required) == CapabilitiesText(inherited, required)
  {
    OwnPlain();
    CapabilitiesRead(inherited, required);
    CompletedIs(Items(if inherited.None? then "" else inherited.value, ','), required);
  }

  // ---------------------------------------------------------------------------
  // Library directories

  /** The directory that the words name from position `i` on, and how many words it takes. */
  function DirAt(words: seq<string>, i: nat): (r: (Option<string>, nat))
    requires i < |words|
    ensures 1 <= r.1 && i + r.1 <= |words|
  {
    var word := words[i];
    if "-R" <= word then (Some(word[2..]), 1)
    else if "-rpath=" <= word then (Some(word[7..]), 1)
    else if word == "-rpath" then (if i + 1 < |words| then (Some(words[i + 1]), 2) else (None, 1))
    else (None, 1)
  }

  function AddDir(dirs: seq<string>, dir: Option<string>): (r: seq<string>) {
    if dir.None? || dir.value == "" || dir.value in dirs then dirs else dirs + [dir.value]
  }

  function ScanFrom(dirs: seq<string>, words: seq<string>, i: nat): (r: seq<string>)
    requires i <= |words|
    decreases |words| - i
  {
    if i == |words| then dirs
    else var (dir, n) := DirAt(words, i); ScanFrom(AddDir(dirs, dir), words, i + n)
  }

  function ScanAll(args: seq<seq<string>>): (dirs: seq<string>) {
    if args == [] then [] else ScanFrom(ScanAll(args[..|args| - 1]), args[|args| - 1], 0)
  }

  /** How many words directly before position `i` are bare flags. */
  function FlagsBefore(words: seq<string>, i: nat): (n: nat)
    requires i <= |words|
  {
    if i > 0 && words[i - 1] == "-rpath" then 1 + FlagsBefore(words, i - 1) else 0
  }

  /** The word is the argument of the flag before it: every second bare flag of a run is one. */
  predicate IsArgument(words: seq<string>, i: nat)
    requires i <= |words|
  {
    FlagsBefore(words, i) % 2 == 1
  }

  /** The word at `i`, as a flag, names the directory. */
  predicate Names(words: seq<string>, i: nat, dir: string)
    requires i < |words|
  {
    dir != "" && (words[i] == "-R" + dir || words[i] == "-rpath=" + dir ||
                  (words[i] == "-rpath" && i + 1 < |words| && words[i + 1] == dir))
  }

  predicate NamedFrom(words: seq<string>, i: nat, dir: string) {
    exists k :: i <= k < |words| && !IsArgument(words, k) && Names(words, k, dir)
  }

  lemma {:induction false} DirAtNames(words: seq<string>, i: nat, dir: string)
    requires i < |words|
    ensures DirAt(words, i).0 == Some(dir) && dir != "" <==> Names(words, i, dir)
  {
    var word := words[i];
    if "-R" <= word {
      assert word == "-R" + word[2..] && word[1] == 'R';
      assert ("-R" + dir)[2..] == dir;
      assert ("-rpath=" + dir)[1] == 'r' && "-rpath"[1] == 'r';
    } else {
      assert "-R" <= "-R" + dir;
      if "-rpath=" <= word {
        assert word == "-rpath=" + word[7..] && ("-rpath=" + dir)[7..] == dir;
      } else {
        assert "-rpath=" <= "-rpath=" + dir;
      }
    }
  }

  /** After a flag and the argument that it takes, the next word is no argument. */
  lemma {:induction false} NextIsFlag(words: seq<string>, i: nat)
    requires i < |words| && !IsArgument(words, i)
    ensures i + DirAt(words, i).1 < |words| ==> !IsArgument(words, i + DirAt(words, i).1)
    ensures DirAt(words, i).1 == 2 ==> IsArgument(words, i + 1)
    ensures DirAt(words, i).1 <= 2
  {
    if words[i] == "-rpath" {
      assert words[i][1] == 'r' && |words[i]| == 6;
      assert FlagsBefore(words, i + 1) == 1 + FlagsBefore(words, i);
    }
  }

  lemma {:induction false} NamedStep(words: seq<string>, i: nat, dir: string)
    requires i < |words| && !IsArgument(words, i)
    ensures NamedFrom(words, i, dir) <==> Names(words, i, dir) || NamedFrom(words, i + DirAt(words, i).1, dir)
  {
  }

  /** The scanner finds exactly the directories that some flag names. */
  lemma {:induction false} ScanFinds(dirs: seq<string>, words: seq<string>, i: nat, dir: string)
    requires i <= |words| && (i < |words| ==> !IsArgument(words, i))
    ensures dir in ScanFrom(dirs, words, i) <==> dir in dirs || NamedFrom(words, i, dir)
    decreases |words| - i
  {
    if i < |words| {
      var step := DirAt(words, i);
      var next := AddDir(dirs, step.0);
      NextIsFlag(words, i);
      NamedStep(words, i, dir);
      DirAtNames(words, i, dir);
      ScanFinds(next, words, i + step.1, dir);
      assert ScanFrom(dirs, words, i) == ScanFrom(next, words, i + step.1);
      assert dir in next <==> dir in dirs || (step.0 == Some(dir) && dir != "");
    }
  }

  lemma {:induction false} ScanAllFinds(args: seq<seq<string>>, dir: string)
    ensures dir in ScanAll(args) <==> exists a :: 0 <= a < |args| && NamedFrom(args[a], 0, dir)
  {
    if args != [] {
      var before := args[..|args| - 1];
      ScanAllFinds(before, dir);
      ScanFinds(ScanAll(before), args[|args| - 1], 0, dir);
      assert forall a :: 0 <= a < |before| ==> before[a] == args[a];
    }
  }

  /** Directories as the scanner keeps them: not empty, each once. */
  predicate Kept(dirs: seq<string>) {
    NoRepeat(dirs) && forall i :: 0 <= i < |dirs| ==> dirs[i] != ""
  }

  lemma {:induction false} ScanFromKeeps(dirs: seq<string>, words: seq<string>, i: nat)
    requires i <= |words| && Kept(dirs)
    ensures Kept(ScanFrom(dirs, words, i))
    decreases |words| - i
  {
    if i < |words| {
      var step := DirAt(words, i);
      var next := AddDir(dirs, step.0);
      assert Kept(next);
      ScanFromKeeps(next, words, i + step.1);
      assert ScanFrom(dirs, words, i) == ScanFrom(next, words, i + step.1);
    }
  }

  lemma {:induction false} ScanAllKeeps(args: seq<seq<string>>)
    ensures Kept(ScanAll(args))
  {
    if args != [] {
      ScanAllKeeps(args[..|args| - 1]);
      ScanFromKeeps(ScanAll(args[..|args| - 1]), args[|args| - 1], 0);
    }
  }

  /** Reads the words with an iterator: a bare flag takes the next word with it. */
  method ScanWords(before: seq<string>, words: seq<string>) returns (dirs: seq<string>)
    ensures dirs == ScanFrom(before, words, 0)
  {
    dirs := before;
    var next := 0;
    while next < |words|
      invariant 0 <= next <= |words|
      invariant ScanFrom(before, words, 0) == ScanFrom(dirs, words, next)
    {
      var word := words[next];
      ghost var step := DirAt(words, next);
      ghost var added := AddDir(dirs, step.0);
      ghost var after := next + step.1;
      next := next + 1;
      var dir: Option<string> := None;
      if "-R" <= word {
        dir := Some(word[2..]);
      } else if "-rpath=" <= word {
        dir := Some(word[7..]);
      } else if word == "-rpath" {
        if next < |words| {
          dir := Some(words[next]);
          next := next + 1;
        }
      }
      assert dir == step.0 && next == after;
      if dir.Some? && dir.value != "" {
        if dir.value !in dirs {
          dirs := dirs + [dir.value];
        }
      }
      assert dirs == added;
    }
  }

  method Scan(args: seq<seq<string>>) returns (dirs: seq<string>)
    ensures dirs == ScanAll(args)
  {
    dirs := [];
    for a := 0 to |args|
      invariant dirs == ScanAll(args[..a])
    {
      assert args[..a + 1][..a] == args[..a];
      dirs := ScanWords(dirs, args[a]);
    }
    assert args[..|args|] == args;
  }

  /** The dependent reads back exactly the directories that the scanner found, if and only if none
      of them holds a colon. */
  method PublishAndRead(args: seq<seq<string>>) returns (read: seq<string>)
    ensures read == ScanAll(args) <==> forall i :: 0 <= i < |ScanAll(args)| ==> ':' !in ScanAll(args)[i]
    ensures forall i :: 0 <= i < |read| ==> read[i] != "" && ':' !in read[i]
  {
    var dirs := Scan(args);
    var published := Join(dirs, ':');
    ScanAllKeeps(args);
    ListRoundTrip(dirs, ':');
    read := Items(published, ':');
  }

  lemma {:induction false} OneDirectory(dir: string)
    requires dir != ""
    ensures ScanAll([["-R" + dir]]) == [dir]
  {
    var words := ["-R" + dir];
    assert words[0][2..] == dir;
    assert DirAt(words, 0) == (Some(dir), 1);
    assert ScanFrom([], words, 0) == ScanFrom(AddDir([], Some(dir)), words, 1) == [dir];
    var args := [words];
    assert args[..0] == [] && ScanAll(args[..0]) == [];
  }

  /** A directory with one colon in it is read back as two. */
  lemma {:induction false} ColonSplits(left: string, right: string)
    requires left != "" && right != "" && ':' !in left && ':' !in right
    ensures ScanAll([["-R" + (left + [':'] + right)]]) == [left + [':'] + right]
    ensures Items(Join(ScanAll([["-R" + (left + [':'] + right)]]), ':'), ':') == [left, right]
  {
    var dir := left + [':'] + right;
    OneDirectory(dir);
    assert Join([dir], ':') == dir;
    SplitFirst(left, right, ':');
    SplitFirst(right, "", ':');
    NonEmptyPlain([left, right]);
  }
}
