/**
 JSON values, the paths of a patch as text (RFC 6901), and a server that applies them as section 5.3
 of RFC 8620 requires: every segment before the last must exist.

 A patch is a map, so a server may take its paths in any order. What a set of paths does to a value
 is the same in every order if no path is a prefix of another and each finds its parents.
 */
module JsonPointer {
  import opened Options
  import opened Splitting

  datatype Json = Null | Flag(on: bool) | Text(text: string) | Number(number: int) | Object(members: map<string, Json>)

  // ---------------------------------------------------------------------------
  // Text

  function ReplaceChar(s: string, c: char, with: string): (r: string) {
    if s == "" then "" else (if s[0] == c then with else [s[0]]) + ReplaceChar(s[1..], c, with)
  }

  /** Replaces each `~` followed by `digit`, from left to right. */
  function ReplacePair(s: string, digit: char, with: char): (r: string) {
    if |s| < 2 then s
    else if s[0] == '~' && s[1] == digit then [with] + ReplacePair(s[2..], digit, with)
    else [s[0]] + ReplacePair(s[1..], digit, with)
  }

  function Escape(key: string): (segment: string) {
    ReplaceChar(ReplaceChar(key, '~', "~0"), '/', "~1")
  }

  function Unescape(segment: string): (key: string) {
    ReplacePair(ReplacePair(segment, '1', '/'), '0', '~')
  }

  lemma {:induction false} EscapeStep(key: string)
    requires key != ""
    ensures Escape(key) == (if key[0] == '~' then "~0" else if key[0] == '/' then "~1" else [key[0]]) + Escape(key[1..])
    ensures ReplaceChar(key, '~', "~0") == (if key[0] == '~' then "~0" else [key[0]]) + ReplaceChar(key[1..], '~', "~0")
  {
    var inner := ReplaceChar(key[1..], '~', "~0");
    if key[0] == '~' {
      var s := "~0" + inner;
      assert s[1..] == ['0'] + inner && s[1..][1..] == inner;
      assert ReplaceChar(s, '/', "~1") == ['~'] + ReplaceChar(s[1..], '/', "~1");
    } else {
      var s := [key[0]] + inner;
      assert s[1..] == inner;
    }
  }

  lemma {:induction false} SlashesBack(key: string)
    ensures ReplacePair(Escape(key), '1', '/') == ReplaceChar(key, '~', "~0")
  {
    if key != "" {
      EscapeStep(key);
      SlashesBack(key[1..]);
      var rest := Escape(key[1..]);
      if key[0] == '~' {
        PairKeeps('~', '0', rest, '1', '/');
      } else if key[0] == '/' {
        assert ("~1" + rest)[2..] == rest;
      } else {
        OneKeeps(key[0], rest, '1', '/');
      }
    }
  }

  lemma {:induction false} TildesBack(key: string)
    ensures ReplacePair(ReplaceChar(key, '~', "~0"), '0', '~') == key
  {
    if key != "" {
      EscapeStep(key);
      TildesBack(key[1..]);
      var rest := ReplaceChar(key[1..], '~', "~0");
      assert [key[0]] + key[1..] == key;
      if key[0] == '~' {
        assert ("~0" + rest)[2..] == rest;
      } else {
        OneKeeps(key[0], rest, '0', '~');
      }
    }
  }

  lemma {:induction false} OneKeeps(c: char, rest: string, digit: char, with: char)
    requires c != '~'
    ensures ReplacePair([c] + rest, digit, with) == [c] + ReplacePair(rest, digit, with)
  {
  }

  lemma {:induction false} PairKeeps(c: char, d: char, rest: string, digit: char, with: char)
    requires d != digit && d != '~'
    ensures ReplacePair([c, d] + rest, digit, with) == [c, d] + ReplacePair(rest, digit, with)
  {
  }

  lemma {:induction false} EscapeHasNoSlash(key: string)
    ensures '/' !in Escape(key)
  {
    if key != "" {
      EscapeStep(key);
      EscapeHasNoSlash(key[1..]);
    }
  }

  /** A key survives the trip through a path segment, and the segment holds no separator. */
  lemma {:induction false} SegmentRoundTrip(key: string)
    ensures Unescape(Escape(key)) == key && '/' !in Escape(key)
  {
    SlashesBack(key);
    TildesBack(key);
    EscapeHasNoSlash(key);
  }

  function Segments(path: string): (segments: seq<string>)
    ensures segments != []
  {
    Split(path, '/')
  }

  lemma {:induction false} SegmentsFirst(segment: string, rest: string)
    requires '/' !in segment
    ensures Segments(segment) == [segment]
    ensures Segments(segment + "/" + rest) == [segment] + Segments(rest)
  {
    SplitFirst(segment, rest, '/');
  }

  function UnescapeAll(segments: seq<string>): (keys: seq<string>) {
    seq(|segments|, i requires 0 <= i < |segments| => Unescape(segments[i]))
  }

  function ReadPath(text: string): (keys: seq<string>)
    ensures keys != []
  {
    UnescapeAll(Segments(text))
  }

  /** The names of properties need no escape. */
  predicate Plain(name: string) {
    '/' !in name && '~' !in name
  }

  lemma {:induction false} PlainUnescapes(name: string)
    requires Plain(name)
    ensures Unescape(name) == name
  {
    PlainKeeps(name, '1', '/');
    PlainKeeps(name, '0', '~');
  }

  lemma {:induction false} PlainKeeps(name: string, digit: char, with: char)
    requires '~' !in name
    ensures ReplacePair(name, digit, with) == name
  {
    if |name| >= 2 {
      PlainKeeps(name[1..], digit, with);
      assert name[0] in name;
      assert [name[0]] + name[1..] == name;
    }
  }
  /** The text of one plain name, or of two, reads back as these names. */
  lemma {:induction false} PlainReads(name: string, member: string)
    requires Plain(name) && Plain(member)
    ensures ReadPath(name) == [name] && ReadPath(name + "/" + member) == [name, member]
  {
    SegmentsFirst(name, member);
    SegmentsFirst(member, "");
    PlainUnescapes(name);
    PlainUnescapes(member);
  }

  // ---------------------------------------------------------------------------
  // One path

  /** Sets or removes the value at `keys`, or fails if a segment before the last does not exist. */
  function Put(target: Json, keys: seq<string>, value: Json): (r: Option<Json>) {
    if !target.Object? || keys == [] then None
    else if |keys| == 1 then
      Some(Object(if value.Null? then target.members - {keys[0]} else target.members[keys[0] := value]))
    else if keys[0] !in target.members then None
    else match Put(target.members[keys[0]], keys[1..], value)
      case None => None
      case Some(child) => Some(Object(target.members[keys[0] := child]))
  }
  /** The value at a path, if there is one. */
  function At(target: Json, keys: seq<string>): (r: Option<Json>) {
    if keys == [] then Some(target)
    else if !target.Object? || keys[0] !in target.members then None
    else At(target.members[keys[0]], keys[1..])
  }

  /** Every segment before the last exists. */
  predicate HasParents(target: Json, keys: seq<string>) {
    && keys != [] && target.Object?
    && (|keys| > 1 ==> keys[0] in target.members && HasParents(target.members[keys[0]], keys[1..]))
  }

  /** Neither path is a prefix of the other. */
  predicate Apart(a: seq<string>, b: seq<string>) {
    !(a <= b) && !(b <= a)
  }

  lemma {:induction false} ApartRest(a: seq<string>, b: seq<string>)
    requires Apart(a, b) && a[0] == b[0]
    ensures |a| > 1 && |b| > 1 && Apart(a[1..], b[1..])
  {
    assert a == [a[0]] + a[1..] && b == [b[0]] + b[1..];
  }

  function Written(value: Json): (r: Option<Json>) {
    if value.Null? then None else Some(value)
  }

  lemma {:induction false} PutSucceeds(j: Json, a: seq<string>, v: Json)
    ensures Put(j, a, v).Some? <==> HasParents(j, a)
    ensures Put(j, a, v).Some? ==> At(Put(j, a, v).value, a) == Written(v)
    decreases |a|
  {
    if HasParents(j, a) && |a| > 1 {
      PutSucceeds(j.members[a[0]], a[1..], v);
    } else if |a| > 1 && j.Object? && a[0] in j.members {
      PutSucceeds(j.members[a[0]], a[1..], v);
    } else if |a| == 1 {
      assert a[1..] == [];
    }
  }

  /** A write leaves what is apart from it as it was. */
  lemma {:induction false} PutElsewhere(j: Json, a: seq<string>, v: Json, q: seq<string>)
    requires HasParents(j, a) && Apart(a, q)
    ensures Put(j, a, v).Some?
    ensures At(Put(j, a, v).value, q) == At(j, q)
    ensures HasParents(Put(j, a, v).value, q) <==> HasParents(j, q)
    decreases |a|
  {
    PutSucceeds(j, a, v);
    if a[0] == q[0] {
      ApartRest(a, q);
      PutElsewhere(j.members[a[0]], a[1..], v, q[1..]);
    }
  }

  function Set(members: map<string, Json>, key: string, value: Option<Json>): (r: map<string, Json>) {
    if value.None? then members - {key} else members[key := value.value]
  }

  /** What a write makes of the child on its way. */
  function Inner(child: Option<Json>, rest: seq<string>, v: Json): (r: Option<Json>) {
    if rest == [] then Written(v) else if child.None? then None else Put(child.value, rest, v)
  }

  lemma {:induction false} PutIs(j: Json, a: seq<string>, v: Json)
    requires HasParents(j, a)
    ensures Put(j, a, v) == Some(Object(Set(j.members, a[0], Inner(Lookup(j.members, a[0]), a[1..], v))))
  {
    PutSucceeds(j, a, v);
  }

  lemma {:induction false} SetsCommute(m: map<string, Json>, k: string, x: Option<Json>, l: string, y: Option<Json>)
    requires k != l
    ensures Set(Set(m, k, x), l, y) == Set(Set(m, l, y), k, x)
  {
  }

  lemma {:induction false} SetAgain(m: map<string, Json>, k: string, x: Option<Json>, y: Option<Json>)
    ensures Set(Set(m, k, x), k, y) == Set(m, k, y) && Lookup(Set(m, k, x), k) == x
  {
  }

  /** Two writes that are apart can change places. */
  lemma {:induction false} PutCommutes(j: Json, a: seq<string>, v: Json, b: seq<string>, w: Json)
    requires HasParents(j, a) && HasParents(j, b) && Apart(a, b)
    ensures Put(j, a, v).Some? && Put(j, b, w).Some?
    ensures Put(Put(j, a, v).value, b, w).Some?
    ensures Put(Put(j, a, v).value, b, w) == Put(Put(j, b, w).value, a, v)
    decreases |a|
  {
    PutIs(j, a, v);
    PutIs(j, b, w);
    PutElsewhere(j, a, v, b);
    PutElsewhere(j, b, w, a);
    var ja, jb := Put(j, a, v).value, Put(j, b, w).value;
    PutIs(ja, b, w);
    PutIs(jb, a, v);
    if a[0] == b[0] {
      PutsBelow(j, a, v, b, w);
    } else {
      SetsCommute(j.members, a[0], Inner(Lookup(j.members, a[0]), a[1..], v), b[0], Inner(Lookup(j.members, b[0]), b[1..], w));
    }
  }

  lemma {:induction false} PutsBelow(j: Json, a: seq<string>, v: Json, b: seq<string>, w: Json)
    requires HasParents(j, a) && HasParents(j, b) && Apart(a, b) && a[0] == b[0]
    ensures Put(j, a, v).Some? && Put(j, b, w).Some?
    ensures var (ja, jb) := (Put(j, a, v).value, Put(j, b, w).value);
            && ja.Object? && jb.Object?
            && Set(ja.members, b[0], Inner(Lookup(ja.members, b[0]), b[1..], w)) ==
               Set(jb.members, a[0], Inner(Lookup(jb.members, a[0]), a[1..], v))
    decreases |a|, 0
  {
    ApartRest(a, b);
    PutIs(j, a, v);
    PutIs(j, b, w);
    var k, child := a[0], j.members[a[0]];
    PutCommutes(child, a[1..], v, b[1..], w);
    var x, y := Put(child, a[1..], v), Put(child, b[1..], w);
    SetAgain(j.members, k, x, Put(x.value, b[1..], w));
    SetAgain(j.members, k, y, Put(y.value, a[1..], v));
  }

  // ---------------------------------------------------------------------------
  // Many paths

  /** A path as text, and the value to write there. */
  type Item = (string, Json)

  /** The value after the items, in the order in which they are listed. */
  function ApplyTails(entry: Json, tails: seq<Item>): (r: Option<Json>) {
    if tails == [] then Some(entry)
    else
      var (tail, value) := tails[|tails| - 1];
      match ApplyTails(entry, tails[..|tails| - 1])
      case None => None
      case Some(before) => Put(before, ReadPath(tail), value)
  }

  predicate PairApart(x: Item, y: Item) {
    Apart(ReadPath(x.0), ReadPath(y.0))
  }

  predicate AllApart(tails: seq<Item>) {
    forall i, j {:trigger PairApart(tails[i], tails[j])} :: 0 <= i < j < |tails| ==> PairApart(tails[i], tails[j])
  }

  predicate AllHaveParents(entry: Json, tails: seq<Item>) {
    forall i :: 0 <= i < |tails| ==> HasParents(entry, ReadPath(tails[i].0))
  }

  predicate ApartFrom(tails: seq<Item>, q: seq<string>) {
    forall i :: 0 <= i < |tails| ==> Apart(ReadPath(tails[i].0), q)
  }

  lemma {:induction false} LastApart(tails: seq<Item>, before: seq<Item>, last: Item)
    requires AllApart(tails) && tails == before + [last]
    ensures AllApart(before) && ApartFrom(before, ReadPath(last.0))
  {
    assert last == tails[|before|];
    forall i | 0 <= i < |before|
      ensures Apart(ReadPath(before[i].0), ReadPath(last.0))
    {
      assert PairApart(tails[i], tails[|before|]);
    }
    forall i, j | 0 <= i < j < |before|
      ensures PairApart(before[i], before[j])
    {
      assert PairApart(tails[i], tails[j]);
    }
  }

  /** The items are taken, and leave what is apart from them all as it was. */
  lemma {:induction false} TailsElsewhere(entry: Json, tails: seq<Item>, q: seq<string>)
    requires AllApart(tails) && AllHaveParents(entry, tails) && ApartFrom(tails, q)
    ensures ApplyTails(entry, tails).Some?
    ensures At(ApplyTails(entry, tails).value, q) == At(entry, q)
    ensures HasParents(ApplyTails(entry, tails).value, q) <==> HasParents(entry, q)
    decreases |tails|
  {
    if tails != [] {
      var before, path := tails[..|tails| - 1], ReadPath(tails[|tails| - 1].0);
      LastApart(tails, before, tails[|tails| - 1]);
      TailsElsewhere(entry, before, path);
      TailsElsewhere(entry, before, q);
      PutElsewhere(ApplyTails(entry, before).value, path, tails[|tails| - 1].1, q);
    }
  }

  /** Each item that is taken reads back. */
  lemma {:induction false} TailsRead(entry: Json, tails: seq<Item>, i: nat)
    requires AllApart(tails) && AllHaveParents(entry, tails) && i < |tails|
    ensures ApplyTails(entry, tails).Some?
    ensures At(ApplyTails(entry, tails).value, ReadPath(tails[i].0)) == Written(tails[i].1)
    decreases |tails|
  {
    var before, last := tails[..|tails| - 1], tails[|tails| - 1];
    LastApart(tails, before, last);
    TailsElsewhere(entry, before, ReadPath(last.0));
    var j := ApplyTails(entry, before).value;
    PutSucceeds(j, ReadPath(last.0), last.1);
    if i < |tails| - 1 {
      TailsRead(entry, before, i);
      assert PairApart(tails[i], last);
      PutElsewhere(j, ReadPath(last.0), last.1, ReadPath(tails[i].0));
    }
  }

  lemma {:induction false} TailsApply(entry: Json, tails: seq<Item>)
    requires AllApart(tails) && AllHaveParents(entry, tails)
    ensures ApplyTails(entry, tails).Some?
  {
    if tails != [] {
      TailsRead(entry, tails, |tails| - 1);
    }
  }

  // The order does not matter.

  /** Items that are apart and find their parents. */
  predicate Fit(entry: Json, tails: seq<Item>) {
    AllApart(tails) && AllHaveParents(entry, tails)
  }

  lemma {:induction false} FrontFits(entry: Json, tails: seq<Item>)
    requires tails != [] && Fit(entry, tails)
    ensures Fit(entry, tails[..|tails| - 1])
    ensures multiset(tails) == multiset(tails[..|tails| - 1]) + multiset{tails[|tails| - 1]}
  {
    assert tails == tails[..|tails| - 1] + [tails[|tails| - 1]];
  }

  lemma {:induction false} ApplyLast(entry: Json, a: seq<Item>, b: seq<Item>, x: Item)
    requires ApplyTails(entry, a) == ApplyTails(entry, b)
    ensures ApplyTails(entry, a + [x]) == ApplyTails(entry, b + [x])
  {
    assert (a + [x])[..|a|] == a && (b + [x])[..|b|] == b;
  }

  lemma {:induction false} ApplyTwo(entry: Json, start: seq<Item>, x: Item, y: Item)
    requires ApplyTails(entry, start).Some? && Put(ApplyTails(entry, start).value, ReadPath(x.0), x.1).Some?
    ensures ApplyTails(entry, start + [x] + [y]) ==
            Put(Put(ApplyTails(entry, start).value, ReadPath(x.0), x.1).value, ReadPath(y.0), y.1)
  {
    var one := start + [x];
    assert one[..|start|] == start && (one + [y])[..|one|] == one;
  }

  /** The last two items can change places. */
  lemma {:induction false} Exchange(entry: Json, start: seq<Item>, x: Item, y: Item)
    requires Fit(entry, start) && ApartFrom(start, ReadPath(x.0)) && ApartFrom(start, ReadPath(y.0))
    requires Apart(ReadPath(x.0), ReadPath(y.0)) && HasParents(entry, ReadPath(x.0)) && HasParents(entry, ReadPath(y.0))
    ensures ApplyTails(entry, start + [x] + [y]) == ApplyTails(entry, start + [y] + [x])
  {
    TailsElsewhere(entry, start, ReadPath(x.0));
    TailsElsewhere(entry, start, ReadPath(y.0));
    PutCommutes(ApplyTails(entry, start).value, ReadPath(x.0), x.1, ReadPath(y.0), y.1);
    ApplyTwo(entry, start, x, y);
    ApplyTwo(entry, start, y, x);
  }

  function Without(tails: seq<Item>, i: nat): (rest: seq<Item>)
    requires i < |tails|
    ensures |rest| == |tails| - 1
    ensures forall k :: 0 <= k < |rest| ==> rest[k] == tails[if k < i then k else k + 1]
  {
    tails[..i] + tails[i + 1..]
  }

  lemma {:induction false} ApartSymmetric(a: seq<string>, b: seq<string>)
    ensures Apart(a, b) <==> Apart(b, a)
  {
  }

  lemma {:induction false} WithoutFits(entry: Json, tails: seq<Item>, i: nat)
    requires i < |tails| && Fit(entry, tails)
    ensures Fit(entry, Without(tails, i)) && ApartFrom(Without(tails, i), ReadPath(tails[i].0))
  {
    var rest := Without(tails, i);
    forall k | 0 <= k < |rest|
      ensures Apart(ReadPath(rest[k].0), ReadPath(tails[i].0))
    {
      if k >= i {
        assert PairApart(tails[i], tails[k + 1]);
        ApartSymmetric(ReadPath(tails[i].0), ReadPath(tails[k + 1].0));
      } else {
        assert PairApart(tails[k], tails[i]);
      }
    }
    forall j, k | 0 <= j < k < |rest|
      ensures PairApart(rest[j], rest[k])
    {
      assert PairApart(tails[if j < i then j else j + 1], tails[if k < i then k else k + 1]);
    }
  }

  lemma {:induction false} WithoutCounts(tails: seq<Item>, i: nat)
    requires i < |tails|
    ensures multiset(tails) == multiset(Without(tails, i)) + multiset{tails[i]}
  {
    assert tails == tails[..i] + [tails[i]] + tails[i + 1..];
  }

  lemma {:induction false} WithoutTwo(tails: seq<Item>, i: nat)
    requires i < |tails| - 1
    ensures Without(tails, i) == Without(tails[..|tails| - 1], i) + [tails[|tails| - 1]]
  {
  }

  lemma {:induction false} MoveStep(entry: Json, front: seq<Item>, start: seq<Item>, x: Item, y: Item)
    requires ApplyTails(entry, front) == ApplyTails(entry, start + [x])
    requires Fit(entry, start) && ApartFrom(start, ReadPath(x.0)) && ApartFrom(start, ReadPath(y.0))
    requires Apart(ReadPath(x.0), ReadPath(y.0)) && HasParents(entry, ReadPath(x.0)) && HasParents(entry, ReadPath(y.0))
    ensures ApplyTails(entry, front + [y]) == ApplyTails(entry, start + [y] + [x])
  {
    ApplyLast(entry, front, start + [x], y);
    Exchange(entry, start, x, y);
  }

  lemma {:induction false} MoveFits(entry: Json, tails: seq<Item>, i: nat, front: seq<Item>)
    requires i < |front| == |tails| - 1 && front == tails[..|tails| - 1] && Fit(entry, tails)
    ensures var x, y := tails[i], tails[|tails| - 1];
            && Fit(entry, Without(front, i))
            && ApartFrom(Without(front, i), ReadPath(x.0)) && ApartFrom(Without(front, i), ReadPath(y.0))
            && Apart(ReadPath(x.0), ReadPath(y.0)) && HasParents(entry, ReadPath(x.0)) && HasParents(entry, ReadPath(y.0))
  {
    FrontFits(entry, tails);
    WithoutFits(entry, front, i);
    assert PairApart(tails[i], tails[|tails| - 1]);
    forall k | 0 <= k < |Without(front, i)|
      ensures Apart(ReadPath(Without(front, i)[k].0), ReadPath(tails[|tails| - 1].0))
    {
      assert PairApart(tails[if k < i then k else k + 1], tails[|tails| - 1]);
    }
  }

  lemma {:induction false} MoveWhole(entry: Json, tails: seq<Item>, i: nat, front: seq<Item>)
    requires i < |front| == |tails| - 1 && front == tails[..|tails| - 1] && Fit(entry, tails)
    requires ApplyTails(entry, front) == ApplyTails(entry, Without(front, i) + [tails[i]])
    ensures ApplyTails(entry, front + [tails[|tails| - 1]]) == ApplyTails(entry, Without(tails, i) + [tails[i]])
  {
    MoveFits(entry, tails, i, front);
    MoveStep(entry, front, Without(front, i), tails[i], tails[|tails| - 1]);
    WithoutTwo(tails, i);
  }

  /** Any item can go to the end. */
  lemma {:induction false} MoveLast(entry: Json, tails: seq<Item>, i: nat)
    requires i < |tails| && Fit(entry, tails)
    ensures ApplyTails(entry, tails) == ApplyTails(entry, Without(tails, i) + [tails[i]])
    decreases |tails|
  {
    var front := tails[..|tails| - 1];
    if i == |front| {
      assert Without(tails, i) + [tails[i]] == tails;
    } else {
      FrontFits(entry, tails);
      MoveLast(entry, front, i);
      MoveWhole(entry, tails, i, front);
      assert front + [tails[|tails| - 1]] == tails;
    }
  }

  /** They have one outcome in every order. */
  lemma {:induction false} OneOutcome(entry: Json, a: seq<Item>, b: seq<Item>)
    requires multiset(a) == multiset(b) && Fit(entry, a) && Fit(entry, b)
    ensures ApplyTails(entry, a) == ApplyTails(entry, b)
    decreases |a|
  {
    if a == [] {
      assert |b| == |multiset(b)| == 0;
    } else {
      var front, x := a[..|a| - 1], a[|a| - 1];
      FrontFits(entry, a);
      assert x in multiset(b);
      var i :| 0 <= i < |b| && b[i] == x;
      WithoutFits(entry, b, i);
      WithoutCounts(b, i);
      MoveLast(entry, b, i);
      OutcomeStep(entry, front, Without(b, i), x);
    }
  }

  lemma {:induction false} OutcomeStep(entry: Json, front: seq<Item>, rest: seq<Item>, x: Item)
    requires multiset(front) + multiset{x} == multiset(rest) + multiset{x}
    requires Fit(entry, front) && Fit(entry, rest)
    ensures ApplyTails(entry, front + [x]) == ApplyTails(entry, rest + [x])
    decreases |front| + 1, 0
  {
    assert multiset(front) == (multiset(front) + multiset{x}) - multiset{x};
    assert multiset(rest) == (multiset(rest) + multiset{x}) - multiset{x};
    OneOutcome(entry, front, rest);
    ApplyLast(entry, front, rest, x);
  }

  // ---------------------------------------------------------------------------
  // A map of paths

  /** Each path finds its parents, and none is a prefix of another. */
  ghost predicate Acceptable(entry: Json, changes: map<string, Json>) {
    && (forall t :: t in changes ==> HasParents(entry, ReadPath(t)))
    && (forall t, u :: t in changes && u in changes && t != u ==> Apart(ReadPath(t), ReadPath(u)))
  }

  ghost predicate ApartFromAll(changes: map<string, Json>, q: seq<string>) {
    forall t :: t in changes ==> Apart(ReadPath(t), q)
  }

  /** Each changed path reads its new value, and everything apart from them reads as before. */
  ghost predicate Changed(entry: Json, changes: map<string, Json>, after: Json) {
    && (forall t :: t in changes ==> At(after, ReadPath(t)) == Written(changes[t]))
    && (forall q :: ApartFromAll(changes, q) ==> At(after, q) == At(entry, q))
    && (changes == map[] ==> after == entry)
    && (entry.Object? ==> after.Object?)
  }

  predicate NoRepeat(tails: seq<Item>) {
    forall i, j :: 0 <= i < j < |tails| ==> tails[i] != tails[j]
  }

  /** The items are the changes, each once, in some order. */
  ghost predicate ListsChanges(tails: seq<Item>, changes: map<string, Json>) {
    && NoRepeat(tails)
    && forall t, v :: (t, v) in tails <==> t in changes && changes[t] == v
  }

  lemma {:induction false} ListedFit(entry: Json, changes: map<string, Json>, tails: seq<Item>)
    requires Acceptable(entry, changes) && ListsChanges(tails, changes)
    ensures Fit(entry, tails)
  {
    forall i | 0 <= i < |tails|
      ensures tails[i].0 in changes && changes[tails[i].0] == tails[i].1
    {
      assert (tails[i].0, tails[i].1) in tails;
    }
    forall i, j | 0 <= i < j < |tails|
      ensures tails[i].0 != tails[j].0
    {
      assert tails[i] != tails[j];
    }
  }

  lemma {:induction false} ChangeReads(entry: Json, changes: map<string, Json>, tails: seq<Item>, t: string)
    requires Fit(entry, tails) && ListsChanges(tails, changes) && t in changes
    ensures ApplyTails(entry, tails).Some? && At(ApplyTails(entry, tails).value, ReadPath(t)) == Written(changes[t])
  {
    assert (t, changes[t]) in tails;
    var i :| 0 <= i < |tails| && tails[i] == (t, changes[t]);
    TailsRead(entry, tails, i);
  }

  lemma {:induction false} RestReads(entry: Json, changes: map<string, Json>, tails: seq<Item>, q: seq<string>)
    requires Fit(entry, tails) && ListsChanges(tails, changes) && ApartFromAll(changes, q)
    ensures ApplyTails(entry, tails).Some? && At(ApplyTails(entry, tails).value, q) == At(entry, q)
  {
    forall i | 0 <= i < |tails|
      ensures tails[i].0 in changes
    {
      assert (tails[i].0, tails[i].1) in tails;
    }
    TailsElsewhere(entry, tails, q);
  }

  lemma {:induction false} StaysObject(entry: Json, tails: seq<Item>)
    requires ApplyTails(entry, tails).Some?
    ensures entry.Object? ==> ApplyTails(entry, tails).value.Object?
  {
  }

  /** In every order the changes are taken and make what they say, and nothing else. */
  lemma {:induction false} ChangesApply(entry: Json, changes: map<string, Json>, tails: seq<Item>)
    requires Acceptable(entry, changes) && ListsChanges(tails, changes)
    ensures ApplyTails(entry, tails).Some? && Changed(entry, changes, ApplyTails(entry, tails).value)
  {
    ListedFit(entry, changes, tails);
    TailsApply(entry, tails);
    StaysObject(entry, tails);
    forall t | t in changes {
      ChangeReads(entry, changes, tails, t);
    }
    forall q | ApartFromAll(changes, q) {
      RestReads(entry, changes, tails, q);
    }
    assert changes == map[] ==> tails == [] by {
      assert tails != [] ==> (tails[0].0, tails[0].1) in tails;
    }
  }

  /** Different plain names inside an object can always be changed. */
  lemma {:induction false} PlainAcceptable(entry: Json, changes: map<string, Json>)
    requires entry.Object? && forall t :: t in changes ==> Plain(t)
    ensures Acceptable(entry, changes)
  {
    forall t | t in changes
      ensures ReadPath(t) == [t]
    {
      PlainReads(t, t);
    }
    forall t, u | t in changes && u in changes && t != u
      ensures Apart(ReadPath(t), ReadPath(u))
    {
      assert [t][0] != [u][0];
    }
  }

  /** What a change of plain names makes of each member. */
  lemma {:induction false} MemberAfter(entry: Json, changes: map<string, Json>, after: Json, name: string)
    requires entry.Object? && (forall t :: t in changes ==> Plain(t)) && Changed(entry, changes, after)
    ensures after.Object?
    ensures Lookup(after.members, name) == if name in changes then Written(changes[name]) else Lookup(entry.members, name)
  {
    forall t | t in changes
      ensures ReadPath(t) == [t]
    {
      PlainReads(t, t);
    }
    MemberAt(entry, name);
    MemberAt(after, name);
    if name !in changes {
      assert ApartFromAll(changes, [name]);
    }
  }

  lemma {:induction false} MemberAt(entry: Json, name: string)
    requires entry.Object?
    ensures At(entry, [name]) == Lookup(entry.members, name)
  {
    assert [name][1..] == [];
  }

  lemma {:induction false} CountOnce(tails: seq<Item>, x: Item)
    requires NoRepeat(tails)
    ensures multiset(tails)[x] == if x in tails then 1 else 0
    decreases |tails|
  {
    if tails != [] {
      var n := |tails| - 1;
      CountOnce(tails[..n], x);
      assert tails == tails[..n] + [tails[n]];
    }
  }

  lemma {:induction false} ChangesOneOutcome(entry: Json, changes: map<string, Json>, a: seq<Item>, b: seq<Item>)
    requires Acceptable(entry, changes) && ListsChanges(a, changes) && ListsChanges(b, changes)
    ensures ApplyTails(entry, a) == ApplyTails(entry, b)
  {
    ListedFit(entry, changes, a);
    ListedFit(entry, changes, b);
    forall x
      ensures multiset(a)[x] == multiset(b)[x]
    {
      CountOnce(a, x);
      CountOnce(b, x);
      assert x == (x.0, x.1);
    }
    OneOutcome(entry, a, b);
  }
}
