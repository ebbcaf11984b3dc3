/**
 Every pair of cards has a comparison, and every patch of a card an order.

 What is proved of all comparisons and all orders is therefore not empty.
 */
module CardDiffs {
  import opened CardMerge
  import opened EntryPatch
  import opened JsonPointer
  import opened Options

  // ---------------------------------------------------------------------------
  // Keys for the added entries

  lemma {:induction false} SomeFreeKey(wanted: string, taken: set<string>) returns (key: string)
    ensures key !in taken
  {
    var n := |taken| + 1;
    VariantsCount(wanted, n);
    if Variants(wanted, n) <= taken {
      Fewer(Variants(wanted, n), taken);
      assert false;
    }
    key :| key in Variants(wanted, n) && key !in taken;
  }

  /** Each key gets a place of its own that is not taken. */
  lemma {:induction false} SomePlace(keys: set<string>, taken: set<string>) returns (place: map<string, string>)
    ensures place.Keys == keys && Injective(place)
    ensures forall key :: key in place ==> place[key] !in taken
    decreases |keys|
  {
    if keys == {} {
      place := map[];
    } else {
      var key :| key in keys;
      var rest := SomePlace(keys - {key}, taken);
      var free := SomeFreeKey(key, taken + rest.Values);
      place := rest[key := free];
    }
  }

  // ---------------------------------------------------------------------------
  // The comparison of a property

  /** The paths that the comparison of the entries writes. */
  function InsidePaths(current: Entries, edited: Entries, c: Comparison): (paths: set<EntryPath>) {
    set key, tail | key in edited && Shown(current, key, c.visible) && tail in ChangesOf(c.diffEntry, current[key], edited[key]) ::
      Inside(key, tail)
  }

  function EntryPaths(keys: set<string>): (paths: set<EntryPath>) {
    set key | key in keys :: Entry(key)
  }

  /** What goes to a path: the change, or null, or the entry that has its place there. */
  ghost function ValueAt(current: Entries, edited: Entries, c: Comparison, gone: set<string>, place: map<string, string>, path: EntryPath): (value: Json)
    requires place.Keys <= edited.Keys && path in InsidePaths(current, edited, c) + EntryPaths(gone + place.Values)
  {
    match path
    case Inside(key, tail) => ChangesOf(c.diffEntry, current[key], edited[key])[tail]
    case Entry(at) =>
      if at in gone then Null
      else
        var key :| key in place && place[key] == at;
        edited[key]
  }

  ghost function PathPatch(current: Entries, edited: Entries, c: Comparison, gone: set<string>, place: map<string, string>): (patch: Patch)
    requires place.Keys <= edited.Keys
  {
    map path | path in InsidePaths(current, edited, c) + EntryPaths(gone + place.Values) ::
      ValueAt(current, edited, c, gone, place, path)
  }

  lemma {:induction false} EntriesWritten(current: Entries, edited: Entries, c: Comparison, gone: set<string>, place: map<string, string>)
    requires place.Keys <= edited.Keys && gone <= current.Keys && Injective(place)
    requires forall key :: key in place <==> IsAdded(current, edited, key, c.visible)
    requires forall key :: key in place ==> place[key] !in current
    ensures WholeEntries(current, edited, c.visible, edited.Keys, gone, PathPatch(current, edited, c, gone, place), place)
  {
    var patch := PathPatch(current, edited, c, gone, place);
    forall key | key in place
      ensures Entry(place[key]) in patch && patch[Entry(place[key])] == edited[key]
    {
      assert place[key] in place.Values && Entry(place[key]) in EntryPaths(gone + place.Values);
    }
  }

  lemma {:induction false} InsideWritten(current: Entries, edited: Entries, c: Comparison, gone: set<string>, place: map<string, string>)
    requires place.Keys <= edited.Keys
    ensures var patch := PathPatch(current, edited, c, gone, place);
            && Whole !in patch
            && InsideDiff(current, edited, c.visible, c.diffEntry, edited.Keys, patch)
            && InsideValues(current, edited, c.diffEntry, patch)
  {
  }

  lemma {:induction false} SomePathDiff(current: Entries, edited: Entries, c: Comparison) returns (patch: Patch, place: map<string, string>)
    ensures ByPaths(current, edited, c.visible, c.diffEntry, patch, place)
  {
    var gone := Gone(current, edited, c.visible, c.diffEntry);
    var added := set key | key in edited && IsAdded(current, edited, key, c.visible);
    place := SomePlace(added, current.Keys);
    patch := PathPatch(current, edited, c, gone, place);
    InsideWritten(current, edited, c, gone, place);
    EntriesWritten(current, edited, c, gone, place);
  }

  lemma {:induction false} SomeEntryDiff(current: Entries, edited: Entries, c: Comparison) returns (patch: Patch)
    ensures IsEntryDiff(current, edited, c.visible, c.diffEntry, patch)
  {
    var place: map<string, string>;
    if edited == map[] && !Shows(current, c.visible) {
      patch, place := map[], map[];
    } else if current == map[] {
      patch, place := map[Whole := Object(edited)], map key | key in edited :: key;
    } else if edited == map[] && !Hides(current, c.visible) {
      patch, place := map[Whole := Null], map[];
    } else {
      patch, place := SomePathDiff(current, edited, c);
    }
    assert EntryDiff(current, edited, c.visible, c.diffEntry, patch, place);
  }

  // ---------------------------------------------------------------------------
  // The comparison of a card

  ghost function PartDiff(current: Entries, edited: Entries, c: Comparison): (patch: Patch)
    ensures IsEntryDiff(current, edited, c.visible, c.diffEntry, patch)
  {
    DiffExists(current, edited, c);
    var patch :| IsEntryDiff(current, edited, c.visible, c.diffEntry, patch);
    patch
  }

  lemma {:induction false} DiffExists(current: Entries, edited: Entries, c: Comparison)
    ensures exists patch :: IsEntryDiff(current, edited, c.visible, c.diffEntry, patch)
  {
    var patch := SomeEntryDiff(current, edited, c);
  }

  ghost function PartBetween(cs: Comparisons, a: Card, b: Card, property: string): (patch: Patch)
    requires property in cs
  {
    PartDiff(Given(Lookup(a, property)), Given(Lookup(b, property)), cs[property])
  }

  ghost function CardDiff(cs: Comparisons, a: Card, b: Card): (patch: CardPatch) {
    map property | property in cs && PartBetween(cs, a, b, property) != map[] :: PartBetween(cs, a, b, property)
  }

  lemma {:induction false} PartIsDiff(cs: Comparisons, a: Card, b: Card, property: string)
    requires property in cs
    ensures PartOf(CardDiff(cs, a, b), property) == PartBetween(cs, a, b, property)
    ensures IsEntryDiff(Given(Lookup(a, property)), Given(Lookup(b, property)),
                        cs[property].visible, cs[property].diffEntry, PartBetween(cs, a, b, property))
  {
  }

  lemma {:induction false} CardDiffIs(cs: Comparisons, a: Card, b: Card)
    ensures IsCardDiff(cs, a, b, CardDiff(cs, a, b))
  {
    forall property | property in cs {
      PartIsDiff(cs, a, b, property);
    }
  }

  // ---------------------------------------------------------------------------
  // An order

  lemma {:induction false} SomeListing(patch: Patch) returns (items: seq<(EntryPath, Json)>)
    ensures Lists(items, patch)
    decreases |patch|
  {
    if patch == map[] {
      items := [];
    } else {
      var path :| path in patch;
      var rest := patch - {path};
      var front := SomeListing(rest);
      items := front + [(path, patch[path])];
      ListsOneMore(front, rest, path, patch);
    }
  }

  lemma {:induction false} OneFewer(patch: Patch, path: EntryPath)
    requires path in patch
    ensures |patch| == |patch - {path}| + 1
  {
    assert (patch - {path}).Keys == patch.Keys - {path};
  }

  lemma {:induction false} ListedSomewhere(front: seq<(EntryPath, Json)>, rest: Patch, last: (EntryPath, Json), path: EntryPath)
    requires Lists(front, rest) && (path in rest || path == last.0)
    ensures exists i :: 0 <= i < |front + [last]| && (front + [last])[i].0 == path
  {
    var items := front + [last];
    if path in rest {
      var i :| 0 <= i < |front| && front[i].0 == path;
      assert items[i].0 == path;
    } else {
      assert items[|front|].0 == path;
    }
  }

  lemma {:induction false} ListedOnce(front: seq<(EntryPath, Json)>, rest: Patch, last: (EntryPath, Json), i: nat, j: nat)
    requires Lists(front, rest) && last.0 !in rest && i < j <= |front|
    ensures (front + [last])[i].0 != (front + [last])[j].0
  {
    assert front[i].0 in rest;
  }

  lemma {:induction false} ListedRight(front: seq<(EntryPath, Json)>, rest: Patch, path: EntryPath, patch: Patch, i: nat)
    requires path in patch && rest == patch - {path} && Lists(front, rest) && i <= |front|
    ensures var item := (front + [(path, patch[path])])[i]; item.0 in patch && patch[item.0] == item.1
  {
    if i < |front| {
      assert front[i].0 in rest;
    }
  }

  lemma {:induction false} ListsOneMore(front: seq<(EntryPath, Json)>, rest: Patch, path: EntryPath, patch: Patch)
    requires path in patch && rest == patch - {path} && Lists(front, rest)
    ensures Lists(front + [(path, patch[path])], patch)
  {
    OneFewer(patch, path);
    var last := (path, patch[path]);
    var items := front + [last];
    forall p | p in patch
      ensures exists i :: 0 <= i < |items| && items[i].0 == p
    {
      ListedSomewhere(front, rest, last, p);
    }
    forall i | 0 <= i < |items|
      ensures items[i].0 in patch && patch[items[i].0] == items[i].1
    {
      ListedRight(front, rest, path, patch, i);
    }
    forall i, j | 0 <= i < j < |items|
      ensures items[i].0 != items[j].0
    {
      ListedOnce(front, rest, last, i, j);
    }
  }

  function Tagged(property: string, items: seq<(EntryPath, Json)>): (r: seq<CardItem>) {
    seq(|items|, i requires 0 <= i < |items| => CardItem(property, items[i].0, items[i].1))
  }

  lemma {:induction false} OfTagged(property: string, items: seq<(EntryPath, Json)>, q: string)
    ensures Of(Tagged(property, items), q) == if q == property then items else []
    decreases |items|
  {
    if items != [] {
      var front, last := items[..|items| - 1], items[|items| - 1];
      OfTagged(property, front, q);
      var tagged := Tagged(property, items);
      assert tagged[..|tagged| - 1] == Tagged(property, front);
      assert front + [last] == items;
    }
  }

  lemma {:induction false} OfConcat(a: seq<CardItem>, b: seq<CardItem>, q: string)
    ensures Of(a + b, q) == Of(a, q) + Of(b, q)
    decreases |b|
  {
    if b == [] {
      assert a + b == a;
    } else {
      var all := a + b;
      assert all[..|all| - 1] == a + b[..|b| - 1];
      OfConcat(a, b[..|b| - 1], q);
    }
  }

  lemma {:induction false} SomeOrder(patch: CardPatch) returns (items: seq<CardItem>)
    ensures ListsCard(items, patch)
    decreases |patch|
  {
    if patch == map[] {
      items := [];
    } else {
      var property :| property in patch;
      var rest := patch - {property};
      var front := SomeOrder(rest);
      var own := SomeListing(patch[property]);
      items := front + Tagged(property, own);
      forall q
        ensures Lists(Of(items, q), PartOf(patch, q))
      {
        OrderOneMore(front, rest, property, own, patch, q);
      }
    }
  }

  lemma {:induction false} OrderOneMore(front: seq<CardItem>, rest: CardPatch, property: string, own: seq<(EntryPath, Json)>,
                                        patch: CardPatch, q: string)
    requires property in patch && rest == patch - {property}
    requires Lists(Of(front, q), PartOf(rest, q)) && Lists(own, patch[property])
    ensures Lists(Of(front + Tagged(property, own), q), PartOf(patch, q))
  {
    OfConcat(front, Tagged(property, own), q);
    OfTagged(property, own, q);
    if q == property {
      assert Of(front, q) == [];
      assert Of(front, q) + own == own;
    } else {
      assert PartOf(patch, q) == PartOf(rest, q);
      assert Of(front, q) + [] == Of(front, q);
    }
  }

  ghost function CardOrder(patch: CardPatch): (items: seq<CardItem>)
    ensures ListsCard(items, patch)
  {
    OrderExists(patch);
    var items :| ListsCard(items, patch);
    items
  }

  lemma {:induction false} OrderExists(patch: CardPatch)
    ensures exists items :: ListsCard(items, patch)
  {
    var items := SomeOrder(patch);
  }

  /** For all comparisons of entries there are a comparison of cards and an order of the server. */
  lemma {:induction false} SomeCompares(cs: Comparisons) returns (diff: (Card, Card) -> CardPatch, order: CardPatch -> seq<CardItem>)
    ensures Compares(cs, diff, order)
  {
    diff := (a, b) => CardDiff(cs, a, b);
    order := patch => CardOrder(patch);
    forall a, b {
      CardDiffIs(cs, a, b);
    }
  }
}
