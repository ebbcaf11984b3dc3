/**
 The save of a whole contact card.

 A card has several keyed maps of entries, each with its own comparison. The patch of a card is made of
 the patches of its maps, and the server takes the items of all of them in one order. This is a mapping
 in the sense of the three-way merge, so every save of a card in every interleaving merges entry by entry.
 */
module CardMerge {
  import opened AnniversaryCompare
  import opened EntryCompare
  import opened EntryPatch
  import opened JsonPointer
  import opened Options
  import SaveMerge
  import opened ServiceCompare

  type Card = map<string, Json>

  /** How the entries of one property are compared. */
  datatype Comparison = Comparison(visible: Visible, diffEntry: DiffEntry)

  /** The properties that hold keyed maps. */
  type Comparisons = map<string, Comparison>

  ghost predicate Usable(cs: Comparisons) {
    forall property :: property in cs ==> Plain(property) && Sound(cs[property].visible, cs[property].diffEntry)
  }

  function EntriesOf(part: Option<Json>): (entries: Option<Entries>) {
    if part.Some? && part.value.Object? then Some(part.value.members) else None
  }

  function Given(part: Option<Json>): (entries: Entries) {
    OrEmpty(EntriesOf(part))
  }

  /** A property with a comparison is absent or a map. */
  predicate IsCard(cs: Comparisons, card: Card) {
    forall property :: property in cs && property in card ==> card[property].Object?
  }

  predicate HasNoNulls(cs: Comparisons, card: Card) {
    forall property :: property in cs ==> NoNulls(Given(Lookup(card, property)))
  }

  // ---------------------------------------------------------------------------
  // When a comparison finds nothing

  /** The edited entries show what the current ones show: each shown entry is in the edit without a
      change, and the edit has no other entry but hidden ones as they are. */
  ghost predicate ShowSame(current: Entries, edited: Entries, visible: Visible, diffEntry: DiffEntry) {
    && (forall key :: Shown(current, key, visible) ==> key in edited && diffEntry(current[key], edited[key]) == Tails(map[]))
    && (forall key :: !IsAdded(current, edited, key, visible))
  }

  lemma {:induction false} SameWritesNothing(current: Entries, edited: Entries, visible: Visible, diffEntry: DiffEntry,
                                             patch: Patch, place: map<string, string>)
    requires ByPaths(current, edited, visible, diffEntry, patch, place) && ShowSame(current, edited, visible, diffEntry)
    ensures patch == map[]
  {
    assert place.Values == {} by {
      assert forall key :: key !in place;
    }
    assert Gone(current, edited, visible, diffEntry) == {};
    forall path
      ensures path !in patch
    {
      match path { case Whole => case Entry(key) => case Inside(key, tail) => }
    }
  }

  lemma {:induction false} NothingMeansSame(current: Entries, edited: Entries, visible: Visible, diffEntry: DiffEntry,
                                            patch: Patch, place: map<string, string>)
    requires ByPaths(current, edited, visible, diffEntry, patch, place) && patch == map[]
    ensures ShowSame(current, edited, visible, diffEntry)
  {
    forall key | Shown(current, key, visible)
      ensures key in edited && diffEntry(current[key], edited[key]) == Tails(map[])
    {
      assert key !in Gone(current, edited, visible, diffEntry);
      var changes := ChangesOf(diffEntry, current[key], edited[key]);
      forall tail
        ensures tail !in changes
      {
        assert Inside(key, tail) !in patch;
      }
      assert changes == map[];
    }
    forall key
      ensures !IsAdded(current, edited, key, visible)
    {
      assert key !in place;
    }
  }

  /** The patch of a property is empty exactly if both sides show the same. */
  lemma {:induction false} EmptyExactly(current: Entries, edited: Entries, visible: Visible, diffEntry: DiffEntry, patch: Patch)
    requires IsEntryDiff(current, edited, visible, diffEntry, patch)
    ensures patch == map[] <==> ShowSame(current, edited, visible, diffEntry)
  {
    var place :| EntryDiff(current, edited, visible, diffEntry, patch, place);
    if edited == map[] && !Shows(current, visible) {
      assert forall key :: !Shown(current, key, visible);
    } else if current == map[] {
      assert Whole in patch;
      var key :| key in edited;
      assert IsAdded(current, edited, key, visible);
    } else if edited == map[] && !Hides(current, visible) {
      assert Whole in patch;
      var key :| key in current;
      assert Shown(current, key, visible);
    } else {
      if patch == map[] {
        NothingMeansSame(current, edited, visible, diffEntry, patch, place);
      } else if ShowSame(current, edited, visible, diffEntry) {
        SameWritesNothing(current, edited, visible, diffEntry, patch, place);
      }
    }
  }

  // ---------------------------------------------------------------------------
  // The patch of a card

  type CardPatch = map<string, Patch>

  function PartOf(patch: CardPatch, property: string): (part: Patch) {
    if property in patch then patch[property] else map[]
  }

  /** The patch has, for each property with a comparison, what the comparison finds. */
  ghost predicate IsCardDiff(cs: Comparisons, current: Card, edited: Card, patch: CardPatch) {
    && (forall property :: property in patch ==> property in cs && patch[property] != map[])
    && (forall property :: property in cs ==>
          IsEntryDiff(Given(Lookup(current, property)), Given(Lookup(edited, property)),
                      cs[property].visible, cs[property].diffEntry, PartOf(patch, property)))
  }

  /** An item of the patch of a card. */
  datatype CardItem = CardItem(property: string, path: EntryPath, value: Json)

  /** The card after the items, in the order in which they are listed. */
  function ApplyCard(card: Json, items: seq<CardItem>): (r: Option<Json>) {
    if items == [] then Some(card)
    else
      var last := items[|items| - 1];
      match ApplyCard(card, items[..|items| - 1])
      case None => None
      case Some(before) => Put(before, ReadPath(PathText(last.property, last.path)), last.value)
  }

  /** The items of one property, in order. */
  function Of(items: seq<CardItem>, property: string): (r: seq<(EntryPath, Json)>) {
    if items == [] then []
    else
      var last := items[|items| - 1];
      Of(items[..|items| - 1], property) + (if last.property == property then [(last.path, last.value)] else [])
  }

  /** `items` lists the patch in some order, the properties mixed at will. */
  ghost predicate ListsCard(items: seq<CardItem>, patch: CardPatch) {
    forall property :: Lists(Of(items, property), PartOf(patch, property))
  }

  lemma {:induction false} ItemOf(items: seq<CardItem>, i: nat)
    requires i < |items|
    ensures Of(items, items[i].property) != []
  {
    if i < |items| - 1 {
      ItemOf(items[..|items| - 1], i);
    }
  }

  /** A write under a property reads and changes only that property. */
  lemma {:induction false} PutInOne(x: Card, y: Card, keys: seq<string>, v: Json)
    requires keys != [] && Lookup(x, keys[0]) == Lookup(y, keys[0])
    ensures Put(Object(x), keys, v).Some? <==> Put(Object(y), keys, v).Some?
    ensures Put(Object(x), keys, v).Some? ==>
              var (r, s) := (Put(Object(x), keys, v).value, Put(Object(y), keys, v).value);
              && r.Object? && s.Object? && Lookup(r.members, keys[0]) == Lookup(s.members, keys[0])
              && forall k :: k != keys[0] ==> Lookup(r.members, k) == Lookup(x, k)
  {
  }

  /** The card after the items has, in each property, what its own items make of it. */
  ghost predicate PropertyByProperty(card: Card, items: seq<CardItem>, result: Card) {
    forall property ::
      && ApplyAll(Object(card), property, Of(items, property)).Some?
      && ApplyAll(Object(card), property, Of(items, property)).value.Object?
      && Lookup(result, property) == Lookup(ApplyAll(Object(card), property, Of(items, property)).value.members, property)
  }

  ghost predicate AllTaken(card: Card, items: seq<CardItem>) {
    forall property :: ApplyAll(Object(card), property, Of(items, property)).Some?
  }

  predicate PlainItems(items: seq<CardItem>) {
    forall i :: 0 <= i < |items| ==> Plain(items[i].property)
  }

  lemma {:induction false} FrontTaken(card: Card, items: seq<CardItem>, front: seq<CardItem>)
    requires items != [] && front == items[..|items| - 1] && AllTaken(card, items)
    ensures AllTaken(card, front)
  {
    forall property
      ensures ApplyAll(Object(card), property, Of(front, property)).Some?
    {
      var all, last := Of(items, property), items[|items| - 1];
      assert ApplyAll(Object(card), property, all).Some?;
      if last.property == property {
        assert all[..|all| - 1] == Of(front, property);
      } else {
        assert all == Of(front, property);
      }
    }
  }

  lemma {:induction false} OneItem(card: Card, items: seq<CardItem>, before: Card) returns (result: Card)
    requires items != [] && PlainItems(items) && AllTaken(card, items)
    requires PropertyByProperty(card, items[..|items| - 1], before)
    ensures var last := items[|items| - 1];
            Put(Object(before), ReadPath(PathText(last.property, last.path)), last.value) == Some(Object(result))
    ensures PropertyByProperty(card, items, result)
  {
    var last := items[|items| - 1];
    var keys := ReadPath(PathText(last.property, last.path));
    PathReads(last.property, last.path);
    assert keys[0] == last.property;
    var front, all := Of(items[..|items| - 1], last.property), Of(items, last.property);
    assert all[..|all| - 1] == front && all[|all| - 1] == (last.path, last.value);
    var own := ApplyAll(Object(card), last.property, front).value;
    PutInOne(own.members, before, keys, last.value);
    PutInOne(before, own.members, keys, last.value);
    result := Put(Object(before), keys, last.value).value.members;
    forall property
      ensures && ApplyAll(Object(card), property, Of(items, property)).Some?
              && ApplyAll(Object(card), property, Of(items, property)).value.Object?
              && Lookup(result, property) == Lookup(ApplyAll(Object(card), property, Of(items, property)).value.members, property)
    {
      if property != last.property {
        assert Of(items, property) == Of(items[..|items| - 1], property);
      }
    }
  }

  /** In whatever order the items of several properties are mixed, the server takes them if it takes
      those of each property alone, and the properties do not disturb one another. */
  lemma {:induction false} CardApplies(card: Card, items: seq<CardItem>) returns (result: Card)
    requires PlainItems(items) && AllTaken(card, items)
    ensures ApplyCard(Object(card), items) == Some(Object(result))
    ensures PropertyByProperty(card, items, result)
    decreases |items|
  {
    if items == [] {
      result := card;
    } else {
      FrontTaken(card, items, items[..|items| - 1]);
      var before := CardApplies(card, items[..|items| - 1]);
      result := OneItem(card, items, before);
    }
  }

  // ---------------------------------------------------------------------------
  // The law of a card

  /** The two values of a property show the same. A property without a comparison shows nothing. */
  ghost predicate Same(cs: Comparisons, property: string, a: Option<Json>, b: Option<Json>) {
    property in cs ==> ShowSame(Given(a), Given(b), cs[property].visible, cs[property].diffEntry)
  }

  /** The entries are merged under some placement of the added ones. */
  ghost predicate MergesTo(now: Entries, was: Entries, wanted: Entries, c: Comparison) {
    exists place :: Merged(now, was, wanted, c.visible, c.diffEntry, place)
  }

  /** The entries of a property after a save: hidden ones as they were, kept ones with the changes of
      the edit and no other, dropped ones gone, new ones under keys of their own. */
  ghost predicate SavedPart(cs: Comparisons, property: string, was: Option<Json>, wanted: Option<Json>, now: Option<Json>) {
    && property in cs
    && (now.Some? ==> now.value.Object?)
    && MergesTo(Given(now), Given(was), Given(wanted), cs[property])
  }

  lemma {:induction false} MergesBy(now: Entries, was: Entries, wanted: Entries, c: Comparison, place: map<string, string>)
    requires Merged(now, was, wanted, c.visible, c.diffEntry, place)
    ensures MergesTo(now, was, wanted, c)
  {
  }

  lemma {:induction false} TookPart(card: Card, property: string, part: seq<(EntryPath, Json)>, after: Json, entries: Option<Entries>)
    requires Took(Object(card), property, part, after, entries)
    ensures after.Object? && ApplyAll(Object(card), property, part) == Some(after)
    ensures Lookup(after.members, property).Some? ==> Lookup(after.members, property).value.Object?
    ensures Given(Lookup(after.members, property)) == OrEmpty(entries)
  {
  }

  lemma {:induction false} PartMergesAt(card: Card, property: string, c: Comparison, was: Option<Entries>, wanted: Entries,
                                        patch: Patch, place: map<string, string>, part: seq<(EntryPath, Json)>) returns (result: Card)
    requires Plain(property) && Holds(Object(card), property, was) && Sound(c.visible, c.diffEntry) && NoNulls(wanted)
    requires EntryDiff(OrEmpty(was), wanted, c.visible, c.diffEntry, patch, place) && Lists(part, patch)
    ensures ApplyAll(Object(card), property, part) == Some(Object(result))
    ensures Lookup(result, property).Some? ==> Lookup(result, property).value.Object?
    ensures MergesTo(Given(Lookup(result, property)), OrEmpty(was), wanted, c)
  {
    var after, entries := SaveMerges(Object(card), property, was, wanted, c.visible, c.diffEntry, patch, place, part);
    TookPart(card, property, part, after, entries);
    result := after.members;
    MergesBy(OrEmpty(entries), OrEmpty(was), wanted, c, place);
  }

  lemma {:induction false} PartMerges(card: Card, property: string, c: Comparison, was: Option<Entries>, wanted: Entries,
                                      patch: Patch, part: seq<(EntryPath, Json)>) returns (result: Card)
    requires Plain(property) && Holds(Object(card), property, was) && Sound(c.visible, c.diffEntry) && NoNulls(wanted)
    requires IsEntryDiff(OrEmpty(was), wanted, c.visible, c.diffEntry, patch) && Lists(part, patch)
    ensures ApplyAll(Object(card), property, part) == Some(Object(result))
    ensures Lookup(result, property).Some? ==> Lookup(result, property).value.Object?
    ensures MergesTo(Given(Lookup(result, property)), OrEmpty(was), wanted, c)
  {
    var place :| EntryDiff(OrEmpty(was), wanted, c.visible, c.diffEntry, patch, place);
    result := PartMergesAt(card, property, c, was, wanted, patch, place, part);
  }

  lemma {:induction false} PartSaved(cs: Comparisons, card: Card, edited: Card, diff: CardPatch, property: string,
                                     part: seq<(EntryPath, Json)>) returns (result: Card)
    requires Usable(cs) && IsCard(cs, card) && HasNoNulls(cs, edited) && IsCardDiff(cs, card, edited, diff)
    requires property in diff && Lists(part, diff[property])
    ensures ApplyAll(Object(card), property, part) == Some(Object(result))
    ensures SavedPart(cs, property, Lookup(card, property), Lookup(edited, property), Lookup(result, property))
  {
    assert PartOf(diff, property) == diff[property];
    result := PartMerges(card, property, cs[property], EntriesOf(Lookup(card, property)), Given(Lookup(edited, property)),
                         diff[property], part);
  }

  /** What a part of the patch of a card makes of one property. */
  ghost predicate PartDone(cs: Comparisons, card: Card, edited: Card, diff: CardPatch, names: set<string>, property: string, now: Option<Json>) {
    if property in names && property in diff
    then SavedPart(cs, property, Lookup(card, property), Lookup(edited, property), now)
    else now == Lookup(card, property)
  }

  lemma {:induction false} AnyPart(cs: Comparisons, card: Card, edited: Card, diff: CardPatch, names: set<string>,
                                   items: seq<CardItem>, property: string) returns (result: Card)
    requires Usable(cs) && IsCard(cs, card) && HasNoNulls(cs, edited) && IsCardDiff(cs, card, edited, diff)
    requires ListsCard(items, SaveMerge.Only(diff, names))
    ensures ApplyAll(Object(card), property, Of(items, property)) == Some(Object(result))
    ensures PartDone(cs, card, edited, diff, names, property, Lookup(result, property))
  {
    var part := Of(items, property);
    assert Lists(part, PartOf(SaveMerge.Only(diff, names), property));
    if property in names && property in diff {
      result := PartSaved(cs, card, edited, diff, property, part);
    } else {
      assert part == [];
      result := card;
    }
  }

  lemma {:induction false} StillCard(cs: Comparisons, card: Card, edited: Card, diff: CardPatch, names: set<string>, result: Card)
    requires IsCard(cs, card) && forall property :: PartDone(cs, card, edited, diff, names, property, Lookup(result, property))
    ensures IsCard(cs, result)
  {
    forall property | property in cs && property in result
      ensures result[property].Object?
    {
      assert PartDone(cs, card, edited, diff, names, property, Lookup(result, property));
    }
  }

  lemma {:induction false} OnlyPlainItems(cs: Comparisons, diff: CardPatch, names: set<string>, items: seq<CardItem>)
    requires Usable(cs) && ListsCard(items, SaveMerge.Only(diff, names)) && forall property :: property in diff ==> property in cs
    ensures PlainItems(items)
  {
    forall i | 0 <= i < |items|
      ensures Plain(items[i].property)
    {
      ItemOf(items, i);
      assert Lists(Of(items, items[i].property), PartOf(SaveMerge.Only(diff, names), items[i].property));
    }
  }

  /** In whatever order the server takes any part of the patch of a card, it accepts it, saves each
      property that the part names, and leaves every other property as it was. */
  lemma {:induction false} CardSaved(cs: Comparisons, card: Card, edited: Card, diff: CardPatch, names: set<string>, items: seq<CardItem>)
    returns (result: Card)
    requires Usable(cs) && IsCard(cs, card) && HasNoNulls(cs, edited) && IsCardDiff(cs, card, edited, diff)
    requires ListsCard(items, SaveMerge.Only(diff, names))
    ensures ApplyCard(Object(card), items) == Some(Object(result)) && IsCard(cs, result)
    ensures forall property :: PartDone(cs, card, edited, diff, names, property, Lookup(result, property))
  {
    OnlyPlainItems(cs, diff, names, items);
    forall property
      ensures ApplyAll(Object(card), property, Of(items, property)).Some?
    {
      var part := AnyPart(cs, card, edited, diff, names, items, property);
    }
    result := CardApplies(card, items);
    forall property
      ensures PartDone(cs, card, edited, diff, names, property, Lookup(result, property))
    {
      var part := AnyPart(cs, card, edited, diff, names, items, property);
    }
    StillCard(cs, card, edited, diff, names, result);
  }

  function CardMapping(diff: (Card, Card) -> CardPatch, order: CardPatch -> seq<CardItem>): (m: SaveMerge.Mapping) {
    SaveMerge.Mapping(diff, (card: Card, patch: CardPatch) =>
      match ApplyCard(Object(card), order(patch))
      case Some(Object(members)) => Some(members)
      case _ => None)
  }

  ghost function CardLaw(cs: Comparisons): (law: SaveMerge.Law) {
    SaveMerge.Law(card => IsCard(cs, card), card => HasNoNulls(cs, card),
                  (property, a, b) => Same(cs, property, a, b),
                  (property, was, wanted, now) => SavedPart(cs, property, was, wanted, now))
  }

  /** The comparison of two cards names exactly the properties that do not show the same. */
  lemma {:induction false} CardNames(cs: Comparisons, a: Card, b: Card, diff: CardPatch, property: string)
    requires IsCardDiff(cs, a, b, diff)
    ensures property in diff <==> !Same(cs, property, Lookup(a, property), Lookup(b, property))
  {
    if property in cs {
      EmptyExactly(Given(Lookup(a, property)), Given(Lookup(b, property)), cs[property].visible, cs[property].diffEntry,
                   PartOf(diff, property));
    }
  }

  lemma {:induction false} SavedIsLawful(cs: Comparisons, a: Card, b: Card, diff: CardPatch, names: set<string>, result: Card,
                                         law: SaveMerge.Law)
    requires law == CardLaw(cs)
    requires forall property :: PartDone(cs, a, b, diff, names, property, Lookup(result, property))
    ensures forall property ::
              if property in names && property in diff
              then law.saved(property, Lookup(a, property), Lookup(b, property), Lookup(result, property))
              else Lookup(result, property) == Lookup(a, property)
  {
    forall property
      ensures if property in names && property in diff
              then law.saved(property, Lookup(a, property), Lookup(b, property), Lookup(result, property))
              else Lookup(result, property) == Lookup(a, property)
    {
      assert PartDone(cs, a, b, diff, names, property, Lookup(result, property));
    }
  }

  /** The comparison of cards and the order of the server. */
  ghost predicate Compares(cs: Comparisons, diff: (Card, Card) -> CardPatch, order: CardPatch -> seq<CardItem>) {
    && (forall a, b :: IsCard(cs, a) && IsCard(cs, b) ==> IsCardDiff(cs, a, b, diff(a, b)))
    && (forall patch :: ListsCard(order(patch), patch))
  }

  /** The cards with their comparisons are a mapping of the three-way merge, in whatever order the
      server takes a patch. */
  lemma {:induction false} CardsAreLawful(cs: Comparisons, diff: (Card, Card) -> CardPatch, order: CardPatch -> seq<CardItem>)
    requires Usable(cs) && Compares(cs, diff, order)
    ensures SaveMerge.Lawful(CardMapping(diff, order), CardLaw(cs))
  {
    var m, law := CardMapping(diff, order), CardLaw(cs);
    forall a: Card, b: Card | IsCard(cs, a) && IsCard(cs, b)
      ensures SaveMerge.NamesDifferences(m, law, a, b)
    {
      forall property: string
        ensures property in m.diff(a, b) <==> !law.same(property, Lookup(a, property), Lookup(b, property))
      {
        CardNames(cs, a, b, diff(a, b), property);
      }
    }
    forall a: Card, b: Card, names: set<string> | IsCard(cs, a) && IsCard(cs, b) && HasNoNulls(cs, b)
      ensures SaveMerge.SavesNamed(m, law, a, b, names)
    {
      var patch := SaveMerge.Only(diff(a, b), names);
      assert ListsCard(order(patch), patch);
      var result := CardSaved(cs, a, b, diff(a, b), names, order(patch));
      assert m.apply(a, patch) == Some(result);
      SavedIsLawful(cs, a, b, diff(a, b), names, result, law);
    }
  }

  // ---------------------------------------------------------------------------
  // Cards with addresses, services and anniversaries

  const EMAILS := "emails"
  const SERVICES := "onlineServices"
  const ANNIVERSARIES := "anniversaries"

  function CardComparisons(u: Unicode): (cs: Comparisons) {
    map[EMAILS := Comparison(StatesEmail, DiffEmail),
        SERVICES := Comparison(ShownServices(u), ComparedServices(u)),
        ANNIVERSARIES := Comparison(StatesAnniversary, DiffAnniversary)]
  }

  lemma {:induction false} NamesArePlain()
    ensures Plain(EMAILS) && Plain(SERVICES) && Plain(ANNIVERSARIES)
    ensures EMAILS != SERVICES && EMAILS != ANNIVERSARIES && SERVICES != ANNIVERSARIES
  {
    assert |EMAILS| == 6 && |SERVICES| == 14 && |ANNIVERSARIES| == 13;
  }

  lemma {:induction false} CardComparisonsAre(u: Unicode)
    ensures var cs := CardComparisons(u);
            && cs[EMAILS] == Comparison(StatesEmail, DiffEmail)
            && cs[SERVICES] == Comparison(ShownServices(u), ComparedServices(u))
            && cs[ANNIVERSARIES] == Comparison(StatesAnniversary, DiffAnniversary)
  {
    NamesArePlain();
  }

  lemma {:induction false} CardComparisonsAreUsable(u: Unicode)
    ensures Usable(CardComparisons(u))
  {
    NamesArePlain();
    CardComparisonsAre(u);
    EmailsAreSound();
    ServicesAreSound(u);
    AnniversariesAreSound();
  }

  /** The addresses after a save. */
  ghost predicate AddressesSaved(was: Option<Json>, wanted: Option<Json>, now: Option<Json>) {
    exists place :: EmailsMerged(Given(was), Given(wanted), Given(now), place)
  }

  lemma {:induction false} SavedAddresses(cs: Comparisons, was: Option<Json>, wanted: Option<Json>, now: Option<Json>)
    requires EMAILS in cs && cs[EMAILS] == Comparison(StatesEmail, DiffEmail) && SavedPart(cs, EMAILS, was, wanted, now)
    ensures AddressesSaved(was, wanted, now)
  {
    var place :| Merged(Given(now), Given(was), Given(wanted), StatesEmail, DiffEmail, place);
    MergedEmails(Given(was), Given(wanted), Given(now), place);
  }

  /** The entry of a property under a key. */
  function EntryAt(card: Card, property: string, key: string): (entry: Option<Json>) {
    Lookup(Given(Lookup(card, property)), key)
  }

  /** The property has an entry under the key that no line states. */
  predicate IsHidden(cs: Comparisons, card: Card, property: string, key: string) {
    && property in cs && EntryAt(card, property, key).Some?
    && !cs[property].visible(EntryAt(card, property, key).value)
  }

  /** What a save makes of a card: a property that the user did not change, and one without a
      comparison, is as the server had it; one of which the server's value does not stand is saved
      entry by entry; an entry that no line states is as it was in either case. */
  ghost predicate CardMerged(cs: Comparisons, law: SaveMerge.Law, base: Card, onConflict: SaveMerge.OnConflict,
                             was: Card, wanted: Card, now: Card) {
    && (forall property :: property !in cs || Same(cs, property, Lookup(base, property), Lookup(wanted, property)) ==>
          Lookup(now, property) == Lookup(was, property))
    && (forall property :: !SaveMerge.ServerStands(law, base, onConflict, was, wanted, property) ==>
          SavedPart(cs, property, Lookup(was, property), Lookup(wanted, property), Lookup(now, property)))
    && (forall property, key :: IsHidden(cs, was, property, key) ==> EntryAt(now, property, key) == EntryAt(was, property, key))
  }

  lemma {:induction false} HiddenStays(cs: Comparisons, property: string, was: Option<Json>, wanted: Option<Json>, now: Option<Json>, key: string)
    requires SavedPart(cs, property, was, wanted, now) && key in Given(was) && !cs[property].visible(Given(was)[key])
    ensures Lookup(Given(now), key) == Some(Given(was)[key])
  {
    var place :| Merged(Given(now), Given(was), Given(wanted), cs[property].visible, cs[property].diffEntry, place);
  }

  lemma {:induction false} MergedCard(cs: Comparisons, law: SaveMerge.Law, base: Card, onConflict: SaveMerge.OnConflict,
                                      was: Card, wanted: Card, now: Card)
    requires law == CardLaw(cs) && SaveMerge.Merged(law, base, onConflict, was, wanted, now)
    ensures CardMerged(cs, law, base, onConflict, was, wanted, now)
  {
    forall property | property !in cs || Same(cs, property, Lookup(base, property), Lookup(wanted, property))
      ensures Lookup(now, property) == Lookup(was, property)
    {
      assert SaveMerge.ServerStands(law, base, onConflict, was, wanted, property);
    }
    forall property, key | IsHidden(cs, was, property, key)
      ensures EntryAt(now, property, key) == EntryAt(was, property, key)
    {
      if !SaveMerge.ServerStands(law, base, onConflict, was, wanted, property) {
        HiddenStays(cs, property, Lookup(was, property), Lookup(wanted, property), Lookup(now, property), key);
      }
    }
  }

  /** In every interleaving of saves of a card and of other writers, in whatever order the server takes
      a patch: a save that comes in time is taken and merges the card, and an address is saved member
      by member. */
  lemma {:induction false} CardWritesMerge(u: Unicode, diff: (Card, Card) -> CardPatch, order: CardPatch -> seq<CardItem>,
                                           cs: Comparisons, m: SaveMerge.Mapping, law: SaveMerge.Law,
                                           card: Card, steps: seq<SaveMerge.Step>, id: nat)
    requires cs == CardComparisons(u) && m == CardMapping(diff, order) && law == CardLaw(cs) && Compares(cs, diff, order)
    requires IsCard(cs, card) && SaveMerge.Legal(m, law, card, steps)
    requires SaveMerge.Enabled(law, SaveMerge.Run(m, law, card, steps), SaveMerge.Send(id))
    requires SaveMerge.InTime(SaveMerge.Run(m, law, card, steps), id)
    requires SaveMerge.Run(m, law, card, steps).savers[id].edit.base.Some?
    ensures var w := SaveMerge.Run(m, law, card, steps);
            var edit := w.savers[id].edit;
            var base, was, wanted := edit.base.value, w.server.item, edit.edited;
            var now := SaveMerge.After(m, law, w, SaveMerge.Send(id)).server.item;
            && CardMerged(cs, law, base, edit.onConflict, was, wanted, now)
            && (!SaveMerge.ServerStands(law, base, edit.onConflict, was, wanted, EMAILS) ==>
                  AddressesSaved(Lookup(was, EMAILS), Lookup(wanted, EMAILS), Lookup(now, EMAILS)))
  {
    CardComparisonsAreUsable(u);
    CardComparisonsAre(u);
    CardsAreLawful(cs, diff, order);
    SaveMerge.WritesMergeWithTheCurrentObject(m, law, card, steps, id);
    var w := SaveMerge.Run(m, law, card, steps);
    var edit := w.savers[id].edit;
    var base, was, wanted := edit.base.value, w.server.item, edit.edited;
    var now := SaveMerge.After(m, law, w, SaveMerge.Send(id)).server.item;
    MergedCard(cs, law, base, edit.onConflict, was, wanted, now);
    if !SaveMerge.ServerStands(law, base, edit.onConflict, was, wanted, EMAILS) {
      SavedAddresses(cs, Lookup(was, EMAILS), Lookup(wanted, EMAILS), Lookup(now, EMAILS));
    }
  }

  /** No save changes or removes an anniversary of a kind that no line states, or a service that has no
      line. */
  lemma {:induction false} UnmappedStays(u: Unicode, law: SaveMerge.Law, base: Card, onConflict: SaveMerge.OnConflict,
                                         was: Card, wanted: Card, now: Card, key: string, entry: Json)
    requires CardMerged(CardComparisons(u), law, base, onConflict, was, wanted, now)
    ensures EntryAt(was, ANNIVERSARIES, key) == Some(entry) && !MapsKind(Kind(entry)) ==> EntryAt(now, ANNIVERSARIES, key) == Some(entry)
    ensures EntryAt(was, SERVICES, key) == Some(entry) && !NamesMapped(u, entry) ==> EntryAt(now, SERVICES, key) == Some(entry)
  {
    CardComparisonsAre(u);
    var cs := CardComparisons(u);
    assert EntryAt(was, ANNIVERSARIES, key) == Some(entry) && !MapsKind(Kind(entry)) ==> IsHidden(cs, was, ANNIVERSARIES, key);
    assert EntryAt(was, SERVICES, key) == Some(entry) && !NamesMapped(u, entry) ==> IsHidden(cs, was, SERVICES, key);
  }

  /** The entry names a service that a line can state. */
  predicate NamesMapped(u: Unicode, entry: Json) {
    TextField(entry, "service").Some? && MapsService(u, TextField(entry, "service").value)
  }
}
