/**
 The patch of a keyed map of a contact card (emails, phones, addresses, nicknames and the like).

 A vCard states only some entries of such a map. `diff_entries` compares the entries that it can
 state with the edited ones and writes a patch: a changed entry member by member, a removed entry
 as null, a new entry whole, under a key that no entry holds.
 */
module EntryPatch {
  import opened Digits
  import opened JsonPointer
  import opened Options

  type Entries = map<string, Json>

  // ---------------------------------------------------------------------------
  // The paths of a patch

  /** Where a patch writes inside the property: all of it, one entry, or a path inside an entry. */
  datatype EntryPath = Whole | Entry(key: string) | Inside(key: string, tail: string)

  function PathText(property: string, path: EntryPath): (text: string) {
    match path
    case Whole => property
    case Entry(key) => property + "/" + Escape(key)
    case Inside(key, tail) => property + "/" + (Escape(key) + "/" + tail)
  }

  function Keys(property: string, path: EntryPath): (keys: seq<string>) {
    match path
    case Whole => [property]
    case Entry(key) => [property, key]
    case Inside(key, tail) => [property, key] + ReadPath(tail)
  }

  lemma {:induction false} SplitTwo(property: string, key: string, tail: string)
    requires '/' !in property && '/' !in key
    ensures Segments(property + "/" + (key + "/" + tail)) == [property, key] + Segments(tail)
    ensures Segments(property + "/" + key) == [property, key]
  {
    SegmentsFirst(property, key + "/" + tail);
    SegmentsFirst(property, key);
    SegmentsFirst(key, tail);
  }

  lemma {:induction false} PathSplits(property: string, path: EntryPath)
    requires Plain(property)
    ensures path.Whole? ==> Segments(PathText(property, path)) == [property]
    ensures path.Entry? ==> Segments(PathText(property, path)) == [property, Escape(path.key)]
    ensures path.Inside? ==> Segments(PathText(property, path)) == [property, Escape(path.key)] + Segments(path.tail)
  {
    SegmentsFirst(property, "");
    if !path.Whole? {
      EscapeHasNoSlash(path.key);
      SplitTwo(property, Escape(path.key), if path.Inside? then path.tail else "");
    }
  }

  /** The server reads back from the text of a path exactly the property, the key and the rest. */
  lemma {:induction false} PathReads(property: string, path: EntryPath)
    requires Plain(property)
    ensures ReadPath(PathText(property, path)) == Keys(property, path)
  {
    PlainUnescapes(property);
    PathSplits(property, path);
    if !path.Whole? {
      SegmentRoundTrip(path.key);
      ReadsAfterTwo(property, path.key, if path.Inside? then Segments(path.tail) else []);
    }
  }

  lemma {:induction false} ReadsAfterTwo(property: string, key: string, rest: seq<string>)
    requires Unescape(property) == property && Unescape(Escape(key)) == key
    ensures UnescapeAll([property, Escape(key)] + rest) == [property, key] + UnescapeAll(rest)
  {
  }

  /** Two paths never share a text, so no part of the patch overwrites another. */
  lemma {:induction false} PathsDiffer(property: string, p: EntryPath, q: EntryPath)
    requires Plain(property)
    requires PathText(property, p) == PathText(property, q)
    ensures p == q
  {
    PathSplits(property, p);
    PathSplits(property, q);
    if p.Entry? && q.Entry? {
      SegmentRoundTrip(p.key);
      SegmentRoundTrip(q.key);
      assert [property, Escape(p.key)][1] == [property, Escape(q.key)][1];
    } else if p.Inside? && q.Inside? {
      SegmentRoundTrip(p.key);
      SegmentRoundTrip(q.key);
      assert Segments(PathText(property, p))[1] == Escape(p.key) == Escape(q.key);
      var prefix := property + "/" + Escape(p.key) + "/";
      assert PathText(property, p)[|prefix|..] == p.tail;
      assert PathText(property, q)[|prefix|..] == q.tail;
    }
  }

  // ---------------------------------------------------------------------------
  // The server

  type Patch = map<EntryPath, Json>

  /** The object after the items of a patch, in the order in which they are listed. */
  function ApplyAll(target: Json, property: string, items: seq<(EntryPath, Json)>): (r: Option<Json>) {
    if items == [] then Some(target)
    else
      var (path, value) := items[|items| - 1];
      match ApplyAll(target, property, items[..|items| - 1])
      case None => None
      case Some(before) => Put(before, ReadPath(PathText(property, path)), value)
  }

  /** `items` lists the patch, each path once, in some order. */
  predicate Lists(items: seq<(EntryPath, Json)>, patch: Patch) {
    && |items| == |patch|
    && (forall i :: 0 <= i < |items| ==> items[i].0 in patch && patch[items[i].0] == items[i].1)
    && (forall i, j :: 0 <= i < j < |items| ==> items[i].0 != items[j].0)
    && (forall path :: path in patch ==> exists i :: 0 <= i < |items| && items[i].0 == path)
  }

  // ---------------------------------------------------------------------------
  // The difference

  type Visible = Json -> bool

  /** What the edit does to a kept entry: it goes, or paths inside it get new values. */
  datatype Change = Drop | Tails(tails: map<string, Json>)

  type DiffEntry = (Json, Json) -> Change

  function OrEmpty(entries: Option<Entries>): (r: Entries) {
    if entries.None? then map[] else entries.value
  }

  predicate Shown(current: Entries, key: string, visible: Visible) {
    key in current && visible(current[key])
  }

  /** An edited entry that the patch adds: it is not shown, and it is not a hidden entry that the
      reader gave back unchanged. */
  predicate IsAdded(current: Entries, edited: Entries, key: string, visible: Visible) {
    key in edited && !Shown(current, key, visible) && !(key in current && current[key] == edited[key])
  }

  function Variant(wanted: string, index: nat): (key: string) {
    wanted + "-" + Decimal(index)
  }

  lemma {:induction false} VariantsDiffer(wanted: string, i: nat, j: nat)
    requires Variant(wanted, i) == Variant(wanted, j)
    ensures i == j
  {
    var prefix := wanted + "-";
    assert Variant(wanted, i)[|prefix|..] == Decimal(i) && Variant(wanted, j)[|prefix|..] == Decimal(j);
    DecimalReads(i);
    DecimalReads(j);
  }

  ghost function Variants(wanted: string, n: nat): (keys: set<string>) {
    set m: nat | m < n :: Variant(wanted, m)
  }

  lemma {:induction false} VariantsCount(wanted: string, n: nat)
    ensures |Variants(wanted, n)| == n
  {
    if n > 0 {
      VariantsCount(wanted, n - 1);
      var key := Variant(wanted, n - 1);
      if key in Variants(wanted, n - 1) {
        var m: nat :| m < n - 1 && key == Variant(wanted, m);
        VariantsDiffer(wanted, m, n - 1);
      }
      assert Variants(wanted, n) == Variants(wanted, n - 1) + {key};
    }
  }

  /** The variants tried so far are among the taken keys, so there are not more of them. */
  lemma {:induction false} VariantsBound(wanted: string, n: nat, taken: set<string>)
    requires forall m :: 2 <= m < n ==> Variant(wanted, m) in taken
    ensures n <= |taken| + 2
  {
    VariantsCount(wanted, n);
    var first := {Variant(wanted, 0), Variant(wanted, 1)};
    assert Variants(wanted, n) <= taken + first;
    Fewer(Variants(wanted, n), taken + first);
    assert |taken + first| <= |taken| + |first| <= |taken| + 2;
  }

  /** Looks for a key that nothing uses: the wanted one, else the wanted one with the least number from 2 on. */
  method FreeKey(wanted: string, taken: set<string>) returns (key: string)
    ensures key !in taken
    ensures wanted !in taken ==> key == wanted
    ensures wanted in taken ==> exists n: nat :: n >= 2 && key == Variant(wanted, n) &&
                                                 forall m :: 2 <= m < n ==> Variant(wanted, m) in taken
  {
    if wanted !in taken {
      return wanted;
    }
    var index: nat := 2;
    while Variant(wanted, index) in taken
      invariant index >= 2 && forall m :: 2 <= m < index ==> Variant(wanted, m) in taken
      decreases |taken| + 2 - index
    {
      VariantsBound(wanted, index + 1, taken);
      index := index + 1;
    }
    key := Variant(wanted, index);
  }

  lemma {:induction false} Fewer(a: set<string>, b: set<string>)
    requires a <= b
    ensures |a| <= |b|
    decreases |a|
  {
    if a != {} {
      var x :| x in a;
      Fewer(a - {x}, b - {x});
    }
  }

  ghost predicate Injective(place: map<string, string>) {
    forall a, b :: a in place && b in place && place[a] == place[b] ==> a == b
  }

  function Removed(current: Entries, edited: Entries, visible: Visible): (keys: set<string>) {
    set key | key in current && visible(current[key]) && key !in edited
  }

  /** A shown entry under `done` that the comparison drops. */
  predicate IsDropped(current: Entries, edited: Entries, visible: Visible, diffEntry: DiffEntry, key: string) {
    key in edited && Shown(current, key, visible) && diffEntry(current[key], edited[key]).Drop?
  }

  function Dropped(current: Entries, edited: Entries, visible: Visible, diffEntry: DiffEntry, done: set<string>): (keys: set<string>) {
    set key | key in done && IsDropped(current, edited, visible, diffEntry, key)
  }

  /** The changes inside a kept entry, none for one that goes. */
  function ChangesOf(diffEntry: DiffEntry, old': Json, new': Json): (changes: map<string, Json>) {
    var change := diffEntry(old', new');
    if change.Drop? then map[] else change.tails
  }

  /** Inside the shown entries under `done`, the patch is what the comparison finds. */
  ghost predicate InsideDiff(current: Entries, edited: Entries, visible: Visible, diffEntry: DiffEntry, done: set<string>, patch: Patch)
    requires done <= edited.Keys
  {
    forall key, tail :: Inside(key, tail) in patch <==>
      key in done && Shown(current, key, visible) && tail in ChangesOf(diffEntry, current[key], edited[key])
  }

  ghost predicate InsideValues(current: Entries, edited: Entries, diffEntry: DiffEntry, patch: Patch) {
    forall key, tail :: Inside(key, tail) in patch ==>
      && key in current && key in edited && tail in ChangesOf(diffEntry, current[key], edited[key])
      && patch[Inside(key, tail)] == ChangesOf(diffEntry, current[key], edited[key])[tail]
  }

  /** As whole entries, the patch nulls the keys `gone` and writes the added entries under `done`.
      `place` says under which key each added entry goes. */
  ghost predicate WholeEntries(current: Entries, edited: Entries, visible: Visible,
                               done: set<string>, gone: set<string>, patch: Patch, place: map<string, string>)
    requires done <= edited.Keys
  {
    && (forall key :: Entry(key) in patch <==> key in gone || key in place.Values)
    && (forall key :: key in gone ==> patch[Entry(key)] == Null)
    && (forall key :: key in place <==> key in done && IsAdded(current, edited, key, visible))
    && (forall key :: key in place ==> place[key] !in current && Entry(place[key]) in patch && patch[Entry(place[key])] == edited[key])
    && Injective(place)
  }

  /** The part of the patch that the edited entries under `done` and the removed keys `gone` make. */
  ghost predicate PathDiff(current: Entries, edited: Entries, visible: Visible, diffEntry: DiffEntry,
                           done: set<string>, gone: set<string>, patch: Patch, place: map<string, string>)
    requires done <= edited.Keys
  {
    && Whole !in patch
    && InsideDiff(current, edited, visible, diffEntry, done, patch)
    && InsideValues(current, edited, diffEntry, patch)
    && WholeEntries(current, edited, visible, done, gone, patch, place)
  }

  ghost predicate Shows(current: Entries, visible: Visible) {
    exists key :: Shown(current, key, visible)
  }

  ghost predicate Hides(current: Entries, visible: Visible) {
    exists key :: key in current && !visible(current[key])
  }

  /** The keys whose entries go: those that the edit leaves out, and those that the comparison drops. */
  function Gone(current: Entries, edited: Entries, visible: Visible, diffEntry: DiffEntry): (keys: set<string>) {
    Dropped(current, edited, visible, diffEntry, edited.Keys) + Removed(current, edited, visible)
  }

  /** The patch by paths. */
  ghost predicate ByPaths(current: Entries, edited: Entries, visible: Visible, diffEntry: DiffEntry,
                          patch: Patch, place: map<string, string>) {
    PathDiff(current, edited, visible, diffEntry, edited.Keys, Gone(current, edited, visible, diffEntry), patch, place)
  }

  /** The patch that turns the shown entries into the edited ones. */
  ghost predicate EntryDiff(current: Entries, edited: Entries, visible: Visible, diffEntry: DiffEntry,
                            patch: Patch, place: map<string, string>) {
    if edited == map[] && !Shows(current, visible) then
      patch == map[] && place == map[]
    else if current == map[] then
      patch == map[Whole := Object(edited)] && place == map key | key in edited :: key
    else if edited == map[] && !Hides(current, visible) then
      patch == map[Whole := Null] && place == map[]
    else
      ByPaths(current, edited, visible, diffEntry, patch, place)
  }

  method RemoveKeys(current: Entries, edited: Entries, visible: Visible, ghost diffEntry: DiffEntry, ghost dropped: set<string>,
                    keys: set<string>, before: Patch, ghost place: map<string, string>) returns (patch: Patch)
    requires keys <= current.Keys
    requires PathDiff(current, edited, visible, diffEntry, edited.Keys, dropped, before, place)
    ensures PathDiff(current, edited, visible, diffEntry, edited.Keys, dropped + keys, patch, place)
  {
    patch := before;
    var rest := keys;
    ghost var done: set<string> := {};
    while rest != {}
      invariant done + rest == keys
      invariant PathDiff(current, edited, visible, diffEntry, edited.Keys, dropped + done, patch, place)
      decreases rest
    {
      var key :| key in rest;
      NullStep(current, edited, visible, diffEntry, edited.Keys, dropped + done, key, patch, place);
      patch := patch[Entry(key) := Null];
      rest := rest - {key};
      done := done + {key};
      assert dropped + done == dropped + (done - {key}) + {key};
    }
  }

  lemma {:induction false} NullStep(current: Entries, edited: Entries, visible: Visible, diffEntry: DiffEntry,
                                    done: set<string>, gone: set<string>, key: string, patch: Patch, place: map<string, string>)
    requires done <= edited.Keys && key in current
    requires PathDiff(current, edited, visible, diffEntry, done, gone, patch, place)
    ensures PathDiff(current, edited, visible, diffEntry, done, gone + {key}, patch[Entry(key) := Null], place)
  {
    var next := patch[Entry(key) := Null];
    assert forall k :: Entry(k) in next <==> Entry(k) in patch || k == key;
    assert forall k :: k in place ==> place[k] != key;
    assert InsideDiff(current, edited, visible, diffEntry, done, next);
    assert InsideValues(current, edited, diffEntry, next);
  }

  lemma {:induction false} ValuesGrow(place: map<string, string>, key: string, value: string)
    requires key !in place
    ensures place[key := value].Values == place.Values + {value}
  {
    var grown := place[key := value];
    assert grown[key] == value;
    forall v | v in place.Values
      ensures v in grown.Values
    {
      var k :| k in place && place[k] == v;
      assert grown[k] == v;
    }
  }

  /** `next` is the patch with the changes inside the entry under `key`. */
  predicate WithChanges(patch: Patch, next: Patch, key: string, changes: map<string, Json>) {
    next == patch + map tail | tail in changes :: Inside(key, tail) := changes[tail]
  }

  lemma {:induction false} ChangesAt(patch: Patch, next: Patch, key: string, changes: map<string, Json>, path: EntryPath)
    requires WithChanges(patch, next, key, changes)
    ensures path in next <==> path in patch || (path.Inside? && path.key == key && path.tail in changes)
    ensures path in next ==>
              next[path] == if path.Inside? && path.key == key && path.tail in changes then changes[path.tail] else patch[path]
  {
  }

  lemma {:induction false} KeptInside(current: Entries, edited: Entries, visible: Visible, diffEntry: DiffEntry,
                                      done: set<string>, key: string, changes: map<string, Json>, patch: Patch, next: Patch)
    requires done <= edited.Keys && key in edited && key !in done && Shown(current, key, visible)
    requires InsideDiff(current, edited, visible, diffEntry, done, patch) && InsideValues(current, edited, diffEntry, patch)
    requires changes == ChangesOf(diffEntry, current[key], edited[key])
    requires forall k, tail :: Inside(k, tail) in next <==> Inside(k, tail) in patch || (k == key && tail in changes)
    requires forall k, tail :: k != key && Inside(k, tail) in patch ==> next[Inside(k, tail)] == patch[Inside(k, tail)]
    requires forall tail :: tail in changes ==> next[Inside(key, tail)] == changes[tail]
    ensures InsideDiff(current, edited, visible, diffEntry, done + {key}, next)
    ensures InsideValues(current, edited, diffEntry, next)
  {
  }

  lemma {:induction false} KeptStep(current: Entries, edited: Entries, visible: Visible, diffEntry: DiffEntry,
                                    done: set<string>, gone: set<string>, key: string, patch: Patch, next: Patch, place: map<string, string>)
    requires done <= edited.Keys && key in edited && key !in done && Shown(current, key, visible)
    requires PathDiff(current, edited, visible, diffEntry, done, gone, patch, place)
    requires WithChanges(patch, next, key, ChangesOf(diffEntry, current[key], edited[key]))
    ensures PathDiff(current, edited, visible, diffEntry, done + {key}, gone, next, place)
  {
    var changes := ChangesOf(diffEntry, current[key], edited[key]);
    forall path {
      ChangesAt(patch, next, key, changes, path);
    }
    KeptInside(current, edited, visible, diffEntry, done, key, changes, patch, next);
    EntriesKeep(current, edited, visible, done, gone, key, patch, next, place);
  }

  /** A key that adds no entry changes nothing about the whole entries. */
  lemma {:induction false} EntriesKeep(current: Entries, edited: Entries, visible: Visible, done: set<string>, gone: set<string>,
                                       key: string, patch: Patch, next: Patch, place: map<string, string>)
    requires done <= edited.Keys && key in edited && !IsAdded(current, edited, key, visible)
    requires WholeEntries(current, edited, visible, done, gone, patch, place)
    requires forall k :: Entry(k) in next <==> Entry(k) in patch
    requires forall k :: Entry(k) in patch ==> next[Entry(k)] == patch[Entry(k)]
    ensures WholeEntries(current, edited, visible, done + {key}, gone, next, place)
  {
  }

  /** A shown entry without changes, or a hidden one given back, leaves the patch as it is. */
  lemma {:induction false} SameStep(current: Entries, edited: Entries, visible: Visible, diffEntry: DiffEntry,
                                    done: set<string>, gone: set<string>, key: string, patch: Patch, place: map<string, string>)
    requires done <= edited.Keys && key in edited && key !in done && !IsAdded(current, edited, key, visible)
    requires Shown(current, key, visible) ==> ChangesOf(diffEntry, current[key], edited[key]) == map[]
    requires PathDiff(current, edited, visible, diffEntry, done, gone, patch, place)
    ensures PathDiff(current, edited, visible, diffEntry, done + {key}, gone, patch, place)
  {
    EntriesKeep(current, edited, visible, done, gone, key, patch, patch, place);
    assert InsideDiff(current, edited, visible, diffEntry, done + {key}, patch);
  }

  lemma {:induction false} AddedEntries(current: Entries, edited: Entries, visible: Visible, done: set<string>, gone: set<string>,
                                        key: string, patch: Patch, place: map<string, string>, free: string)
    requires done <= edited.Keys && key !in done && IsAdded(current, edited, key, visible) && gone <= current.Keys
    requires WholeEntries(current, edited, visible, done, gone, patch, place)
    requires free !in current && free !in place.Values
    ensures WholeEntries(current, edited, visible, done + {key}, gone, patch[Entry(free) := edited[key]], place[key := free])
  {
    ValuesGrow(place, key, free);
    var next := patch[Entry(free) := edited[key]];
    forall k | k in place
      ensures place[k] != free && Entry(place[k]) in next && next[Entry(place[k])] == edited[k]
    {
      assert place[k] in place.Values;
    }
  }

  lemma {:induction false} AddedStep(current: Entries, edited: Entries, visible: Visible, diffEntry: DiffEntry, done: set<string>,
                                     gone: set<string>, key: string, patch: Patch, place: map<string, string>, free: string)
    requires done <= edited.Keys && key !in done && IsAdded(current, edited, key, visible) && gone <= current.Keys
    requires PathDiff(current, edited, visible, diffEntry, done, gone, patch, place)
    requires free !in current && free !in place.Values
    ensures PathDiff(current, edited, visible, diffEntry, done + {key}, gone, patch[Entry(free) := edited[key]], place[key := free])
    ensures place[key := free].Values == place.Values + {free}
  {
    ValuesGrow(place, key, free);
    AddedEntries(current, edited, visible, done, gone, key, patch, place, free);
    var next := patch[Entry(free) := edited[key]];
    assert InsideDiff(current, edited, visible, diffEntry, done + {key}, next);
    assert InsideValues(current, edited, diffEntry, next);
  }

  lemma {:induction false} DroppedGrows(current: Entries, edited: Entries, visible: Visible, diffEntry: DiffEntry, done: set<string>, key: string)
    ensures Dropped(current, edited, visible, diffEntry, done + {key}) ==
            Dropped(current, edited, visible, diffEntry, done) + (if IsDropped(current, edited, visible, diffEntry, key) then {key} else {})
  {
  }

  /** A shown entry: it goes, or the patch gets its changes. */
  method DiffShown(current: Entries, edited: Entries, visible: Visible, diffEntry: DiffEntry, key: string, before: Patch,
                   ghost done: set<string>, ghost gone: set<string>, ghost place: map<string, string>) returns (patch: Patch)
    requires done <= edited.Keys && key in edited && key !in done && Shown(current, key, visible)
    requires PathDiff(current, edited, visible, diffEntry, done, gone, before, place)
    ensures PathDiff(current, edited, visible, diffEntry, done + {key},
                     gone + (if IsDropped(current, edited, visible, diffEntry, key) then {key} else {}), patch, place)
  {
    patch := before;
    match diffEntry(current[key], edited[key]) {
      case Drop =>
        SameStep(current, edited, visible, diffEntry, done, gone, key, patch, place);
        NullStep(current, edited, visible, diffEntry, done + {key}, gone, key, patch, place);
        patch := patch[Entry(key) := Null];
      case Tails(changes) =>
        patch := patch + map tail | tail in changes :: Inside(key, tail) := changes[tail];
        KeptStep(current, edited, visible, diffEntry, done, gone, key, before, patch, place);
        assert gone + {} == gone;
    }
  }

  /** One edited entry: its changes, nothing, or a new entry under a free key. */
  method DiffEdited(current: Entries, edited: Entries, visible: Visible, diffEntry: DiffEntry, key: string,
                    before: Patch, taken: set<string>, ghost done: set<string>, ghost place: map<string, string>)
    returns (patch: Patch, nowTaken: set<string>, ghost nowPlace: map<string, string>)
    requires done <= edited.Keys && key in edited && key !in done
    requires taken == current.Keys + place.Values
    requires PathDiff(current, edited, visible, diffEntry, done, Dropped(current, edited, visible, diffEntry, done), before, place)
    ensures nowTaken == current.Keys + nowPlace.Values
    ensures PathDiff(current, edited, visible, diffEntry, done + {key}, Dropped(current, edited, visible, diffEntry, done + {key}), patch, nowPlace)
  {
    patch, nowTaken, nowPlace := before, taken, place;
    ghost var gone := Dropped(current, edited, visible, diffEntry, done);
    DroppedGrows(current, edited, visible, diffEntry, done, key);
    if key in current && visible(current[key]) {
      patch := DiffShown(current, edited, visible, diffEntry, key, before, done, gone, place);
    } else if key in current && current[key] == edited[key] {
      SameStep(current, edited, visible, diffEntry, done, gone, key, patch, place);
    } else {
      var free := FreeKey(key, taken);
      AddedStep(current, edited, visible, diffEntry, done, gone, key, patch, place, free);
      patch := patch[Entry(free) := edited[key]];
      nowPlace := place[key := free];
      nowTaken := taken + {free};
    }
  }

  method DiffEditedEntries(current: Entries, edited: Entries, visible: Visible, diffEntry: DiffEntry)
    returns (patch: Patch, ghost place: map<string, string>)
    ensures PathDiff(current, edited, visible, diffEntry, edited.Keys, Dropped(current, edited, visible, diffEntry, edited.Keys), patch, place)
  {
    patch := map[];
    place := map[];
    var taken := current.Keys;
    var rest := edited.Keys;
    ghost var done: set<string> := {};
    while rest != {}
      invariant done !! rest && done + rest == edited.Keys
      invariant taken == current.Keys + place.Values
      invariant PathDiff(current, edited, visible, diffEntry, done, Dropped(current, edited, visible, diffEntry, done), patch, place)
      decreases rest
    {
      var key :| key in rest;
      patch, taken, place := DiffEdited(current, edited, visible, diffEntry, key, patch, taken, done, place);
      rest := rest - {key};
      done := done + {key};
    }
  }

  /** Some placement of the added entries makes it the patch. */
  ghost predicate IsEntryDiff(current: Entries, edited: Entries, visible: Visible, diffEntry: DiffEntry, patch: Patch) {
    exists place :: EntryDiff(current, edited, visible, diffEntry, patch, place)
  }

  /** Compares the entries of a property on the server with the edited ones. */
  method DiffEntries(current: Option<Entries>, edited: Option<Entries>, visible: Visible, diffEntry: DiffEntry) returns (patch: Patch)
    ensures IsEntryDiff(OrEmpty(current), OrEmpty(edited), visible, diffEntry, patch)
  {
    var cur, new' := OrEmpty(current), OrEmpty(edited);
    var shown := map key | key in cur && visible(cur[key]) :: cur[key];
    var hidesSomething := |shown| < |cur|;
    assert hidesSomething == Hides(cur, visible) by {
      HiddenCount(cur, visible);
    }
    assert forall key :: Shown(cur, key, visible) ==> key in shown;
    if shown == map[] && new' == map[] {
      assert EntryDiff(cur, new', visible, diffEntry, map[], map[]);
      return map[];
    }
    assert shown != map[] ==> Shows(cur, visible) by {
      if shown != map[] {
        var key :| key in shown;
        assert Shown(cur, key, visible);
      }
    }
    if shown == map[] && !hidesSomething {
      assert cur == map[];
      assert EntryDiff(cur, new', visible, diffEntry, map[Whole := Object(new')], map key | key in new' :: key);
      return map[Whole := Object(new')];
    }
    if new' == map[] && !hidesSomething {
      assert EntryDiff(cur, new', visible, diffEntry, map[Whole := Null], map[]);
      return map[Whole := Null];
    }
    ghost var place;
    patch, place := DiffEditedEntries(cur, new', visible, diffEntry);
    ghost var dropped := Dropped(cur, new', visible, diffEntry, new'.Keys);
    patch := RemoveKeys(cur, new', visible, diffEntry, dropped, Removed(cur, new', visible), patch, place);
    assert EntryDiff(cur, new', visible, diffEntry, patch, place);
  }

  lemma {:induction false} HiddenCount(current: Entries, visible: Visible)
    ensures |map key | key in current && visible(current[key]) :: current[key]| < |current| <==> Hides(current, visible)
  {
    var shown := map key | key in current && visible(current[key]) :: current[key];
    assert |shown| == |shown.Keys| && |current| == |current.Keys|;
    if Hides(current, visible) {
      var hidden :| hidden in current && !visible(current[hidden]);
      Fewer(shown.Keys, current.Keys - {hidden});
    } else {
      assert shown.Keys == current.Keys;
    }
  }

  // ---------------------------------------------------------------------------
  // What a save does to the card on the server

  /** The items that go inside the entry under `key`, in their order. */
  function TailItems(items: seq<(EntryPath, Json)>, key: string): (tails: seq<(string, Json)>) {
    if items == [] then []
    else
      var (path, value) := items[|items| - 1];
      var before := TailItems(items[..|items| - 1], key);
      if path.Inside? && path.key == key then before + [(path.tail, value)] else before
  }

  /** What the items state for the whole entry under `key`. */
  function EntryItem(items: seq<(EntryPath, Json)>, key: string): (r: Option<Json>) {
    if items == [] then None
    else if items[|items| - 1].0 == Entry(key) then Some(items[|items| - 1].1)
    else EntryItem(items[..|items| - 1], key)
  }

  lemma {:induction false} EntryItemIs(items: seq<(EntryPath, Json)>, patch: Patch, key: string)
    requires forall i :: 0 <= i < |items| ==> items[i].0 in patch && patch[items[i].0] == items[i].1
    ensures EntryItem(items, key).Some? <==> exists i :: 0 <= i < |items| && items[i].0 == Entry(key)
    ensures EntryItem(items, key).Some? ==> Entry(key) in patch && EntryItem(items, key).value == patch[Entry(key)]
  {
    if items != [] && items[|items| - 1].0 != Entry(key) {
      EntryItemIs(items[..|items| - 1], patch, key);
    }
  }

  /** The items inside an entry are exactly its listed changes. */
  lemma {:induction false} TailItemsAre(items: seq<(EntryPath, Json)>, key: string, tail: string, value: Json)
    ensures (tail, value) in TailItems(items, key) <==> (Inside(key, tail), value) in items
  {
    if items != [] {
      var last := items[|items| - 1];
      var before := items[..|items| - 1];
      TailItemsAre(before, key, tail, value);
      assert items == before + [last];
      assert last == (last.0, last.1);
      assert TailItems(items, key) == if last.0.Inside? && last.0.key == key then TailItems(before, key) + [(last.0.tail, last.1)] else TailItems(before, key);
    }
  }

  /** The entry that the server holds under `key` after the items. */
  function Entered(current: Entries, items: seq<(EntryPath, Json)>, key: string): (r: Option<Json>) {
    match EntryItem(items, key)
    case Some(value) => if value.Null? then None else Some(value)
    case None => if key in current then ApplyTails(current[key], TailItems(items, key)) else None
  }

  /** Items that the server can take: none for the whole property, none both for an entry and inside
      it, and each entry takes what goes inside it. */
  predicate Applicable(current: Entries, items: seq<(EntryPath, Json)>) {
    && (forall i :: 0 <= i < |items| ==> !items[i].0.Whole?)
    && (forall i, j :: 0 <= i < |items| && 0 <= j < |items| && items[i].0.Inside? ==> items[j].0 != Entry(items[i].0.key))
    && (forall i :: 0 <= i < |items| && items[i].0.Inside? ==> items[i].0.key in current)
    && (forall key :: key in current ==> ApplyTails(current[key], TailItems(items, key)).Some?)
  }

  lemma {:induction false} ApplicablePrefix(current: Entries, items: seq<(EntryPath, Json)>)
    requires items != [] && Applicable(current, items)
    ensures Applicable(current, items[..|items| - 1])
  {
  }

  lemma {:induction false} TailStep(entry: Json, items: seq<(EntryPath, Json)>, key: string)
    requires items != []
    ensures var (path, value) := items[|items| - 1];
            var before := ApplyTails(entry, TailItems(items[..|items| - 1], key));
            ApplyTails(entry, TailItems(items, key)) ==
            if path.Inside? && path.key == key then
              if before.None? then None else Put(before.value, ReadPath(path.tail), value)
            else before
  {
  }

  lemma {:induction false} EnteredStep(current: Entries, items: seq<(EntryPath, Json)>, m: Entries, next: Entries)
    requires items != [] && Applicable(current, items)
    requires forall key :: Lookup(m, key) == Entered(current, items[..|items| - 1], key)
    requires var (path, value) := items[|items| - 1];
             match path
             case Entry(key) => next == if value.Null? then m - {key} else m[key := value]
             case Inside(key, tail) => key in m && Put(m[key], ReadPath(tail), value).Some? && next == m[key := Put(m[key], ReadPath(tail), value).value]
             case Whole => false
    ensures forall key :: Lookup(next, key) == Entered(current, items, key)
  {
    var (path, value) := items[|items| - 1];
    forall key
      ensures Lookup(next, key) == Entered(current, items, key)
    {
      assert Lookup(m, key) == Entered(current, items[..|items| - 1], key);
      if key in current {
        TailStep(current[key], items, key);
      }
      if path == Entry(key) {
        assert EntryItem(items, key) == Some(value);
      } else {
        assert EntryItem(items, key) == EntryItem(items[..|items| - 1], key);
        if path.Inside? && path.key == key {
          EntryItemAbsent(items, key);
        }
      }
    }
  }

  lemma {:induction false} EntryItemAbsent(items: seq<(EntryPath, Json)>, key: string)
    requires forall j :: 0 <= j < |items| ==> items[j].0 != Entry(key)
    ensures EntryItem(items, key) == None
  {
    if items != [] {
      EntryItemAbsent(items[..|items| - 1], key);
    }
  }

  lemma {:induction false} PutEntry(members: map<string, Json>, property: string, m: Entries, key: string, value: Json)
    requires Lookup(members, property) == Some(Object(m))
    ensures Put(Object(members), [property, key], value) ==
            Some(Object(members[property := Object(if value.Null? then m - {key} else m[key := value])]))
  {
  }

  lemma {:induction false} PutInside(members: map<string, Json>, property: string, m: Entries, key: string, tail: seq<string>, value: Json)
    requires Lookup(members, property) == Some(Object(m)) && key in m && tail != []
    requires Put(m[key], tail, value).Some?
    ensures Put(Object(members), [property, key] + tail, value) ==
            Some(Object(members[property := Object(m[key := Put(m[key], tail, value).value])]))
  {
  }

  /** The last item goes inside an entry that the items before it keep. */
  lemma {:induction false} InsideStep(current: Entries, items: seq<(EntryPath, Json)>, before: Entries)
    requires items != [] && Applicable(current, items) && items[|items| - 1].0.Inside?
    requires forall key :: Lookup(before, key) == Entered(current, items[..|items| - 1], key)
    ensures var (path, value) := items[|items| - 1];
            path.key in before && Put(before[path.key], ReadPath(path.tail), value).Some?
  {
    var (path, value) := items[|items| - 1];
    EntryItemAbsent(items[..|items| - 1], path.key);
    assert Lookup(before, path.key) == Entered(current, items[..|items| - 1], path.key);
    ApplicablePrefix(current, items);
    TailStep(current[path.key], items, path.key);
  }

  lemma {:induction false} PutItem(members: map<string, Json>, property: string, before: Entries, path: EntryPath, value: Json)
    returns (m: Entries)
    requires Plain(property) && Lookup(members, property) == Some(Object(before)) && !path.Whole?
    requires path.Inside? ==> path.key in before && Put(before[path.key], ReadPath(path.tail), value).Some?
    ensures Put(Object(members), ReadPath(PathText(property, path)), value) == Some(Object(members[property := Object(m)]))
    ensures path.Entry? ==> m == if value.Null? then before - {path.key} else before[path.key := value]
    ensures path.Inside? ==> m == before[path.key := Put(before[path.key], ReadPath(path.tail), value).value]
  {
    PathReads(property, path);
    if path.Entry? {
      m := if value.Null? then before - {path.key} else before[path.key := value];
      PutEntry(members, property, before, path.key, value);
    } else {
      m := before[path.key := Put(before[path.key], ReadPath(path.tail), value).value];
      PutInside(members, property, before, path.key, ReadPath(path.tail), value);
    }
  }

  lemma {:induction false} LastItem(current: Entries, members: map<string, Json>, property: string, items: seq<(EntryPath, Json)>, before: Entries)
    returns (m: Entries)
    requires Plain(property) && items != [] && Applicable(current, items)
    requires forall key :: Lookup(before, key) == Entered(current, items[..|items| - 1], key)
    ensures var (path, value) := items[|items| - 1];
            Put(Object(members[property := Object(before)]), ReadPath(PathText(property, path)), value) ==
            Some(Object(members[property := Object(m)]))
    ensures forall key :: Lookup(m, key) == Entered(current, items, key)
  {
    var (path, value) := items[|items| - 1];
    if path.Inside? {
      InsideStep(current, items, before);
    }
    var old' := members[property := Object(before)];
    m := PutItem(old', property, before, path, value);
    assert old'[property := Object(m)] == members[property := Object(m)];
    EnteredStep(current, items, before, m);
  }

  /** The server takes applicable items, changes only this property, and gives each key its entry. */
  lemma {:induction false} ItemsApply(target: Json, property: string, current: Entries, items: seq<(EntryPath, Json)>)
    returns (m: Entries)
    requires Plain(property) && target.Object? && Lookup(target.members, property) == Some(Object(current))
    requires Applicable(current, items)
    ensures ApplyAll(target, property, items) == Some(Object(target.members[property := Object(m)]))
    ensures forall key :: Lookup(m, key) == Entered(current, items, key)
  {
    if items == [] {
      m := current;
      assert target.members[property := Object(m)] == target.members;
    } else {
      ApplicablePrefix(current, items);
      var before := ItemsApply(target, property, current, items[..|items| - 1]);
      m := LastItem(current, target.members, property, items, before);
    }
  }

  // ---------------------------------------------------------------------------
  // The save as a whole

  /** The entries of the property on the server, none if it is absent. */
  predicate Holds(target: Json, property: string, current: Option<Entries>) {
    && target.Object?
    && Lookup(target.members, property) == (if current.None? then None else Some(Object(current.value)))
  }

  /** The entries after a save: hidden entries as they were, kept ones with their own changes, added
      ones under their new keys, and nothing else. */
  ghost predicate Merged(result: Entries, current: Entries, edited: Entries, visible: Visible, diffEntry: DiffEntry,
                         place: map<string, string>) {
    && (forall key :: key in current && !visible(current[key]) ==> Lookup(result, key) == Some(current[key]))
    && (forall key :: Stays(current, edited, visible, diffEntry, key) ==>
          key in result && Changed(current[key], ChangesOf(diffEntry, current[key], edited[key]), result[key]))
    && (forall key :: key in place <==> IsAdded(current, edited, key, visible))
    && (forall key :: key in place ==> place[key] !in current && Lookup(result, place[key]) == Some(edited[key]))
    && Injective(place)
    && (forall key :: key in result ==>
          key in place.Values || (key in current && !visible(current[key])) || Stays(current, edited, visible, diffEntry, key))
  }

  /** A shown entry that the edit keeps. */
  predicate Stays(current: Entries, edited: Entries, visible: Visible, diffEntry: DiffEntry, key: string) {
    Shown(current, key, visible) && key in edited && !diffEntry(current[key], edited[key]).Drop?
  }

  /** What the comparison finds inside a shown entry, the server can take: each path finds its parents
      in that entry, and none is a prefix of another. */
  ghost predicate Sound(visible: Visible, diffEntry: DiffEntry) {
    forall old', new' :: visible(old') ==> Acceptable(old', ChangesOf(diffEntry, old', new'))
  }

  lemma {:induction false} NoTails(items: seq<(EntryPath, Json)>, key: string)
    requires forall i :: 0 <= i < |items| ==> !(items[i].0.Inside? && items[i].0.key == key)
    ensures TailItems(items, key) == []
  {
    if items != [] {
      NoTails(items[..|items| - 1], key);
    }
  }

  lemma {:induction false} TailItemsNoRepeat(items: seq<(EntryPath, Json)>, key: string)
    requires forall i, j :: 0 <= i < j < |items| ==> items[i].0 != items[j].0
    ensures NoRepeat(TailItems(items, key))
    decreases |items|
  {
    if items != [] {
      var before, last := items[..|items| - 1], items[|items| - 1];
      TailItemsNoRepeat(before, key);
      if last.0.Inside? && last.0.key == key {
        TailItemsAre(before, key, last.0.tail, last.1);
        assert forall i :: 0 <= i < |before| ==> before[i].0 != last.0;
      }
    }
  }

  /** What goes inside a kept entry is what the comparison found for that entry, and nothing else. */
  lemma {:induction false} TailsAreTheEntryDiff(current: Entries, edited: Entries, visible: Visible, diffEntry: DiffEntry, patch: Patch,
                                                place: map<string, string>, items: seq<(EntryPath, Json)>, key: string)
    requires ByPaths(current, edited, visible, diffEntry, patch, place)
    requires Lists(items, patch) && Shown(current, key, visible) && key in edited
    ensures ListsChanges(TailItems(items, key), ChangesOf(diffEntry, current[key], edited[key]))
  {
    TailItemsNoRepeat(items, key);
    forall tail, value
      ensures (tail, value) in TailItems(items, key) <==>
              var changes := ChangesOf(diffEntry, current[key], edited[key]); tail in changes && changes[tail] == value
    {
      TailItemsAre(items, key, tail, value);
      ItemListed(items, patch, Inside(key, tail), value);
    }
  }

  lemma {:induction false} ItemListed(items: seq<(EntryPath, Json)>, patch: Patch, path: EntryPath, value: Json)
    requires Lists(items, patch)
    ensures (path, value) in items <==> path in patch && patch[path] == value
  {
    if path in patch {
      var i :| 0 <= i < |items| && items[i].0 == path;
      assert items[i] == (path, patch[path]);
    }
    if (path, value) in items {
      var i :| 0 <= i < |items| && items[i] == (path, value);
      assert items[i].0 in patch && patch[items[i].0] == items[i].1;
    }
  }

  /** Nothing goes inside an entry that is hidden or left out. */
  lemma {:induction false} NoTailsElsewhere(current: Entries, edited: Entries, visible: Visible, diffEntry: DiffEntry, patch: Patch,
                                            place: map<string, string>, items: seq<(EntryPath, Json)>, key: string)
    requires ByPaths(current, edited, visible, diffEntry, patch, place)
    requires Lists(items, patch) && !(Shown(current, key, visible) && key in edited)
    ensures TailItems(items, key) == []
  {
    forall i | 0 <= i < |items|
      ensures !(items[i].0.Inside? && items[i].0.key == key)
    {
      if items[i].0.Inside? {
        assert Inside(items[i].0.key, items[i].0.tail) in patch;
      }
    }
    NoTails(items, key);
  }

  lemma {:induction false} TailsTaken(current: Entries, edited: Entries, visible: Visible, diffEntry: DiffEntry, patch: Patch,
                                      place: map<string, string>, items: seq<(EntryPath, Json)>, key: string)
    requires ByPaths(current, edited, visible, diffEntry, patch, place)
    requires Lists(items, patch) && Sound(visible, diffEntry) && key in current
    ensures ApplyTails(current[key], TailItems(items, key)).Some?
    ensures Shown(current, key, visible) && key in edited ==>
              Changed(current[key], ChangesOf(diffEntry, current[key], edited[key]), ApplyTails(current[key], TailItems(items, key)).value)
  {
    if Shown(current, key, visible) && key in edited {
      TailsAreTheEntryDiff(current, edited, visible, diffEntry, patch, place, items, key);
      ChangesApply(current[key], ChangesOf(diffEntry, current[key], edited[key]), TailItems(items, key));
    } else {
      NoTailsElsewhere(current, edited, visible, diffEntry, patch, place, items, key);
    }
  }

  lemma {:induction false} InsideOnly(current: Entries, edited: Entries, visible: Visible, diffEntry: DiffEntry,
                                      patch: Patch, place: map<string, string>, path: EntryPath)
    requires ByPaths(current, edited, visible, diffEntry, patch, place)
    requires path in patch && path.Inside?
    ensures Entry(path.key) !in patch && path.key in current
  {
    assert Inside(path.key, path.tail) in patch;
  }

  lemma {:induction false} PathDiffApplicable(current: Entries, edited: Entries, visible: Visible, diffEntry: DiffEntry,
                                              patch: Patch, place: map<string, string>, items: seq<(EntryPath, Json)>)
    requires ByPaths(current, edited, visible, diffEntry, patch, place)
    requires Lists(items, patch) && Sound(visible, diffEntry)
    ensures Applicable(current, items)
  {
    forall i, j | 0 <= i < |items| && 0 <= j < |items| && items[i].0.Inside?
      ensures items[j].0 != Entry(items[i].0.key) && items[i].0.key in current
    {
      InsideOnly(current, edited, visible, diffEntry, patch, place, items[i].0);
    }
    forall key | key in current
      ensures ApplyTails(current[key], TailItems(items, key)).Some?
    {
      TailsTaken(current, edited, visible, diffEntry, patch, place, items, key);
    }
  }

  predicate NoNulls(edited: Entries) {
    forall key :: key in edited ==> edited[key] != Null
  }

  lemma {:induction false} EnteredMerges(current: Entries, edited: Entries, visible: Visible, diffEntry: DiffEntry, patch: Patch,
                                         place: map<string, string>, items: seq<(EntryPath, Json)>, key: string)
    requires ByPaths(current, edited, visible, diffEntry, patch, place)
    requires Lists(items, patch) && Sound(visible, diffEntry) && NoNulls(edited)
    ensures key in current && !visible(current[key]) ==> Entered(current, items, key) == Some(current[key])
    ensures Stays(current, edited, visible, diffEntry, key) ==>
              Entered(current, items, key) == ApplyTails(current[key], TailItems(items, key))
    ensures key in place ==> Entered(current, items, place[key]) == Some(edited[key])
    ensures Entered(current, items, key).Some? ==>
              key in place.Values || (key in current && !visible(current[key])) || Stays(current, edited, visible, diffEntry, key)
  {
    EntryItemIs(items, patch, key);
    if key in current && !visible(current[key]) {
      NoTailsElsewhere(current, edited, visible, diffEntry, patch, place, items, key);
      assert Entry(key) !in patch;
    }
    if key in current && visible(current[key]) {
      assert Entry(key) in patch <==> key in Gone(current, edited, visible, diffEntry);
    }
    if key in place {
      EntryItemIs(items, patch, place[key]);
    }
  }

  /** What a merge says of one key. */
  ghost predicate MergedAt(m: Entries, current: Entries, edited: Entries, visible: Visible, diffEntry: DiffEntry,
                           place: map<string, string>, key: string) {
    && (key in current && !visible(current[key]) ==> Lookup(m, key) == Some(current[key]))
    && (Stays(current, edited, visible, diffEntry, key) ==>
          key in m && Changed(current[key], ChangesOf(diffEntry, current[key], edited[key]), m[key]))
    && (key in place ==> key in edited && Lookup(m, place[key]) == Some(edited[key]))
    && (key in m ==>
          key in place.Values || (key in current && !visible(current[key])) || Stays(current, edited, visible, diffEntry, key))
  }

  lemma {:induction false} EnteredAt(m: Entries, current: Entries, edited: Entries, visible: Visible, diffEntry: DiffEntry,
                                     patch: Patch, place: map<string, string>, items: seq<(EntryPath, Json)>, key: string)
    requires ByPaths(current, edited, visible, diffEntry, patch, place)
    requires Lists(items, patch) && Sound(visible, diffEntry) && NoNulls(edited)
    requires Lookup(m, key) == Entered(current, items, key)
    requires key in place ==> Lookup(m, place[key]) == Entered(current, items, place[key])
    ensures MergedAt(m, current, edited, visible, diffEntry, place, key)
  {
    EnteredMerges(current, edited, visible, diffEntry, patch, place, items, key);
    if Stays(current, edited, visible, diffEntry, key) {
      TailsTaken(current, edited, visible, diffEntry, patch, place, items, key);
    }
  }

  lemma {:induction false} EnteredIsMerged(m: Entries, current: Entries, edited: Entries, visible: Visible, diffEntry: DiffEntry,
                                           patch: Patch, place: map<string, string>, items: seq<(EntryPath, Json)>)
    requires ByPaths(current, edited, visible, diffEntry, patch, place)
    requires Lists(items, patch) && Sound(visible, diffEntry) && NoNulls(edited)
    requires forall key :: Lookup(m, key) == Entered(current, items, key)
    ensures Merged(m, current, edited, visible, diffEntry, place)
  {
    forall key
      ensures MergedAt(m, current, edited, visible, diffEntry, place, key)
    {
      EnteredAt(m, current, edited, visible, diffEntry, patch, place, items, key);
    }
    PlaceIs(current, edited, visible, diffEntry, patch, place);
    EachIsAll(m, current, edited, visible, diffEntry, place);
  }

  lemma {:induction false} PlaceIs(current: Entries, edited: Entries, visible: Visible, diffEntry: DiffEntry,
                                   patch: Patch, place: map<string, string>)
    requires ByPaths(current, edited, visible, diffEntry, patch, place)
    ensures forall key :: key in place <==> IsAdded(current, edited, key, visible)
    ensures forall key :: key in place ==> place[key] !in current
    ensures Injective(place)
  {
  }

  lemma {:induction false} EachIsAll(m: Entries, current: Entries, edited: Entries, visible: Visible, diffEntry: DiffEntry,
                                     place: map<string, string>)
    requires forall key :: key in place <==> IsAdded(current, edited, key, visible)
    requires forall key :: key in place ==> place[key] !in current
    requires Injective(place)
    requires forall key :: MergedAt(m, current, edited, visible, diffEntry, place, key)
    ensures Merged(m, current, edited, visible, diffEntry, place)
  {
    forall key
      ensures key in current && !visible(current[key]) ==> Lookup(m, key) == Some(current[key])
      ensures Stays(current, edited, visible, diffEntry, key) ==>
                key in m && Changed(current[key], ChangesOf(diffEntry, current[key], edited[key]), m[key])
      ensures key in place ==> Lookup(m, place[key]) == Some(edited[key])
      ensures key in m ==>
                key in place.Values || (key in current && !visible(current[key])) || Stays(current, edited, visible, diffEntry, key)
    {
      assert MergedAt(m, current, edited, visible, diffEntry, place, key);
    }
  }

  lemma {:induction false} SavedByPaths(target: Json, property: string, current: Entries, edited: Entries, visible: Visible,
                                        diffEntry: DiffEntry, patch: Patch, place: map<string, string>, items: seq<(EntryPath, Json)>)
    returns (result: Json, m: Entries)
    requires Plain(property) && target.Object? && Lookup(target.members, property) == Some(Object(current))
    requires ByPaths(current, edited, visible, diffEntry, patch, place)
    requires Lists(items, patch) && Sound(visible, diffEntry) && NoNulls(edited)
    ensures ApplyAll(target, property, items) == Some(result)
    ensures result == Object(target.members[property := Object(m)])
    ensures Merged(m, current, edited, visible, diffEntry, place)
  {
    PathDiffApplicable(current, edited, visible, diffEntry, patch, place, items);
    m := ItemsApply(target, property, current, items);
    result := Object(target.members[property := Object(m)]);
    EnteredIsMerged(m, current, edited, visible, diffEntry, patch, place, items);
  }

  lemma {:induction false} SavedWhole(target: Json, property: string, value: Json, items: seq<(EntryPath, Json)>)
    requires Plain(property) && target.Object? && Lists(items, map[Whole := value])
    ensures ApplyAll(target, property, items) ==
            Some(Object(if value.Null? then target.members - {property} else target.members[property := value]))
    ensures forall key :: TailItems(items, key) == []
  {
    assert Whole in map[Whole := value];
    assert items == [(Whole, value)] by {
      assert items[0].0 == Whole && items[0] == (Whole, value);
    }
    PathReads(property, Whole);
    assert ApplyAll(target, property, items[..0]) == Some(target);
    forall key
      ensures TailItems(items, key) == []
    {
      NoTails(items, key);
    }
  }

  /** The server took the items, holds these entries now, and has every other property as before. */
  predicate Took(target: Json, property: string, items: seq<(EntryPath, Json)>, result: Json, entries: Option<Entries>) {
    && ApplyAll(target, property, items) == Some(result)
    && Holds(result, property, entries)
    && target.Object? && result.members - {property} == target.members - {property}
  }

  lemma {:induction false} OthersStay(members: map<string, Json>, property: string, value: Json)
    ensures members[property := value] - {property} == members - {property}
    ensures (members - {property}) - {property} == members - {property}
  {
  }

  lemma {:induction false} NothingMerges(current: Entries, visible: Visible, diffEntry: DiffEntry)
    requires !Shows(current, visible)
    ensures Merged(current, current, map[], visible, diffEntry, map[])
  {
    assert forall key :: key in current ==> !Shown(current, key, visible);
  }

  lemma {:induction false} WholeMerges(edited: Entries, visible: Visible, diffEntry: DiffEntry)
    ensures Merged(edited, map[], edited, visible, diffEntry, map key | key in edited :: key)
  {
    var place := map key | key in edited :: key;
    assert forall key :: key in edited ==> place[key] == key;
    assert forall key :: IsAdded(map[], edited, key, visible) <==> key in edited;
  }

  lemma {:induction false} RemovalMerges(current: Entries, visible: Visible, diffEntry: DiffEntry)
    requires !Hides(current, visible)
    ensures Merged(map[], current, map[], visible, diffEntry, map[])
  {
  }

  lemma {:induction false} TookWhole(target: Json, property: string, value: Json, items: seq<(EntryPath, Json)>)
    returns (result: Json, entries: Option<Entries>)
    requires Plain(property) && target.Object? && Lists(items, map[Whole := value]) && (value.Null? || value.Object?)
    ensures Took(target, property, items, result, entries)
    ensures entries == if value.Null? then None else Some(value.members)
  {
    SavedWhole(target, property, value, items);
    OthersStay(target.members, property, value);
    if value.Null? {
      result, entries := Object(target.members - {property}), None;
    } else {
      result, entries := Object(target.members[property := value]), Some(value.members);
    }
  }

  lemma {:induction false} TookPaths(target: Json, property: string, current: Entries, edited: Entries, visible: Visible,
                                     diffEntry: DiffEntry, patch: Patch, place: map<string, string>, items: seq<(EntryPath, Json)>)
    returns (result: Json, m: Entries)
    requires Plain(property) && Holds(target, property, Some(current))
    requires ByPaths(current, edited, visible, diffEntry, patch, place)
    requires Lists(items, patch) && Sound(visible, diffEntry) && NoNulls(edited)
    ensures Took(target, property, items, result, Some(m))
    ensures Merged(m, current, edited, visible, diffEntry, place)
  {
    result, m := SavedByPaths(target, property, current, edited, visible, diffEntry, patch, place, items);
    OthersStay(target.members, property, Object(m));
  }

  /** A save, in whatever order the server takes its patch, is accepted, leaves every other property
      alone, keeps each hidden entry, removes the shown entries that the edit or the comparison drops,
      gives each kept entry exactly its own changes, and puts each new entry under a key of its own
      that no entry held. */
  lemma {:induction false} SaveMerges(target: Json, property: string, current: Option<Entries>, edited: Entries, visible: Visible,
                                      diffEntry: DiffEntry, patch: Patch, place: map<string, string>, items: seq<(EntryPath, Json)>)
    returns (result: Json, entries: Option<Entries>)
    requires Plain(property) && Holds(target, property, current)
    requires EntryDiff(OrEmpty(current), edited, visible, diffEntry, patch, place)
    requires Lists(items, patch) && Sound(visible, diffEntry) && NoNulls(edited)
    ensures Took(target, property, items, result, entries)
    ensures Merged(OrEmpty(entries), OrEmpty(current), edited, visible, diffEntry, place)
  {
    var cur := OrEmpty(current);
    if edited == map[] && !Shows(cur, visible) {
      NothingMerges(cur, visible, diffEntry);
      result, entries := target, current;
    } else if cur == map[] {
      WholeMerges(edited, visible, diffEntry);
      result, entries := TookWhole(target, property, Object(edited), items);
    } else if edited == map[] && !Hides(cur, visible) {
      RemovalMerges(cur, visible, diffEntry);
      result, entries := TookWhole(target, property, Null, items);
    } else {
      var m;
      result, m := TookPaths(target, property, cur, edited, visible, diffEntry, patch, place, items);
      entries := Some(m);
    }
  }

  lemma {:induction false} TailsOnce(current: Entries, edited: Entries, visible: Visible, diffEntry: DiffEntry, patch: Patch,
                                     place: map<string, string>, a: seq<(EntryPath, Json)>, b: seq<(EntryPath, Json)>, key: string)
    requires ByPaths(current, edited, visible, diffEntry, patch, place)
    requires Lists(a, patch) && Lists(b, patch) && Sound(visible, diffEntry) && key in current
    ensures ApplyTails(current[key], TailItems(a, key)) == ApplyTails(current[key], TailItems(b, key))
  {
    if Shown(current, key, visible) && key in edited {
      TailsAreTheEntryDiff(current, edited, visible, diffEntry, patch, place, a, key);
      TailsAreTheEntryDiff(current, edited, visible, diffEntry, patch, place, b, key);
      ChangesOneOutcome(current[key], ChangesOf(diffEntry, current[key], edited[key]), TailItems(a, key), TailItems(b, key));
    } else {
      NoTailsElsewhere(current, edited, visible, diffEntry, patch, place, a, key);
      NoTailsElsewhere(current, edited, visible, diffEntry, patch, place, b, key);
    }
  }

  /** Two orders of the same patch enter the same under each key. */
  lemma {:induction false} EnteredOnce(current: Entries, edited: Entries, visible: Visible, diffEntry: DiffEntry, patch: Patch,
                                       place: map<string, string>, a: seq<(EntryPath, Json)>, b: seq<(EntryPath, Json)>, key: string)
    requires ByPaths(current, edited, visible, diffEntry, patch, place)
    requires Lists(a, patch) && Lists(b, patch) && Sound(visible, diffEntry)
    ensures Entered(current, a, key) == Entered(current, b, key)
  {
    if key in current {
      TailsOnce(current, edited, visible, diffEntry, patch, place, a, b, key);
    }
    EnteredSame(current, patch, a, b, key);
  }

  lemma {:induction false} EnteredSame(current: Entries, patch: Patch, a: seq<(EntryPath, Json)>, b: seq<(EntryPath, Json)>, key: string)
    requires Lists(a, patch) && Lists(b, patch)
    requires key in current ==> ApplyTails(current[key], TailItems(a, key)) == ApplyTails(current[key], TailItems(b, key))
    ensures Entered(current, a, key) == Entered(current, b, key)
  {
    EntryItemIs(a, patch, key);
    EntryItemIs(b, patch, key);
  }

  /** The order in which the server takes the patch makes no difference to the card. */
  lemma {:induction false} SaveHasOneOutcome(target: Json, property: string, current: Option<Entries>, edited: Entries, visible: Visible,
                                             diffEntry: DiffEntry, patch: Patch, place: map<string, string>,
                                             a: seq<(EntryPath, Json)>, b: seq<(EntryPath, Json)>)
    requires Plain(property) && Holds(target, property, current)
    requires EntryDiff(OrEmpty(current), edited, visible, diffEntry, patch, place)
    requires Lists(a, patch) && Lists(b, patch) && Sound(visible, diffEntry)
    ensures ApplyAll(target, property, a) == ApplyAll(target, property, b)
  {
    var cur := OrEmpty(current);
    if edited == map[] && !Shows(cur, visible) {
      assert a == b == [];
    } else if cur == map[] {
      SavedWhole(target, property, Object(edited), a);
      SavedWhole(target, property, Object(edited), b);
    } else if edited == map[] && !Hides(cur, visible) {
      SavedWhole(target, property, Null, a);
      SavedWhole(target, property, Null, b);
    } else {
      PathDiffApplicable(cur, edited, visible, diffEntry, patch, place, a);
      PathDiffApplicable(cur, edited, visible, diffEntry, patch, place, b);
      var m := ItemsApply(target, property, cur, a);
      var n := ItemsApply(target, property, cur, b);
      forall key
        ensures Lookup(m, key) == Lookup(n, key)
      {
        EnteredOnce(cur, edited, visible, diffEntry, patch, place, a, b, key);
      }
      SameEntries(m, n);
    }
  }

  lemma {:induction false} SameEntries(m: Entries, n: Entries)
    requires forall key :: Lookup(m, key) == Lookup(n, key)
    ensures m == n
  {
    forall key
      ensures key in m <==> key in n
      ensures key in m ==> m[key] == n[key]
    {
      assert Lookup(m, key) == Lookup(n, key);
    }
  }

  /** A save of an unchanged card writes nothing, whatever the card hides. */
  lemma {:induction false} UnchangedWritesNothing(current: Entries, visible: Visible, diffEntry: DiffEntry, patch: Patch, place: map<string, string>)
    requires forall key :: Shown(current, key, visible) ==> diffEntry(current[key], current[key]) == Tails(map[])
    requires EntryDiff(current, current, visible, diffEntry, patch, place)
    ensures patch == map[]
  {
    if current != map[] {
      assert place.Values == {} by {
        assert forall key :: key !in place;
      }
      assert Gone(current, current, visible, diffEntry) == {};
      assert forall key, tail :: Inside(key, tail) !in patch;
      assert forall key :: Entry(key) !in patch;
      forall path
        ensures path !in patch
      {
        match path { case Whole => case Entry(key) => case Inside(key, tail) => }
      }
    }
  }
}
