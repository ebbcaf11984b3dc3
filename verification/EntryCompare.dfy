/**
 How the entries of a keyed map are compared, and the email addresses of a card.

 A vCard line states only part of an entry. The comparison changes the part that the line states and
 leaves the rest, so that a member that no line can state survives an edit.
 */
module EntryCompare {
  import opened EntryPatch
  import opened JsonPointer
  import opened Options

  /** A member that is present and not null. */
  function Field(entry: Json, name: string): (r: Option<Json>) {
    if entry.Object? && name in entry.members && !entry.members[name].Null? then Some(entry.members[name]) else None
  }

  function TextOf(field: Option<Json>): (r: Option<string>) {
    if field.Some? && field.value.Text? then Some(field.value.text) else None
  }

  function TextField(entry: Json, name: string): (r: Option<string>) {
    TextOf(Field(entry, name))
  }

  function OrNull(text: Option<string>): (r: Json) {
    if text.None? then Null else Text(text.value)
  }

  function OrNothing(value: Option<Json>): (r: Json) {
    if value.None? then Null else value.value
  }

  /** The members with this one set, if there is something to set. */
  function With(changes: map<string, Json>, name: string, value: Option<Json>): (r: map<string, Json>) {
    if value.None? then changes else changes[name := value.value]
  }

  // ---------------------------------------------------------------------------
  // Flags and ranks

  function Flags(value: Option<Json>): (flags: map<string, Json>) {
    if value.Some? && value.value.Object? then value.value.members else map[]
  }

  /** The flags that no line stated stay; the flags that a line can state are the edited ones. */
  function MergedFlags(current: map<string, Json>, edited: map<string, Json>, mapped: string -> bool, stated: string -> bool): (r: map<string, Json>) {
    (map k | k in current && !stated(k) :: current[k]) + (map k | k in edited && mapped(k) :: edited[k])
  }

  /** An edited flag that the mapping can read wins; an absent one removes what the line stated; every
      other flag stays. */
  lemma {:induction false} MergedFlagsAt(current: map<string, Json>, edited: map<string, Json>, mapped: string -> bool, stated: string -> bool, k: string)
    ensures Lookup(MergedFlags(current, edited, mapped, stated), k) ==
            if mapped(k) && k in edited then Some(edited[k]) else if stated(k) then None else Lookup(current, k)
  {
  }

  function OrAbsent(flags: map<string, Json>): (r: Option<Json>) {
    if flags == map[] then None else Some(Object(flags))
  }

  /** What to write for a map of flags, if anything. */
  function DiffFlags(current: Option<Json>, edited: Option<Json>, mapped: string -> bool, stated: string -> bool): (r: Option<Json>) {
    var merged := MergedFlags(Flags(current), Flags(edited), mapped, stated);
    if OrAbsent(Flags(current)) == OrAbsent(merged) then None else Some(OrNothing(OrAbsent(merged)))
  }

  const U32 := 0x1_0000_0000

  /** The rank that an entry states, as an unsigned number of 32 bits. */
  function Rank(field: Option<Json>): (r: Option<int>) {
    if field.Some? && field.value.Number? && 0 <= field.value.number < U32 then Some(field.value.number) else None
  }

  /** A line has only a flag for the rank, so a rank of the server stays. */
  function MergedRank(current: Option<int>, edited: Option<int>): (r: Option<int>) {
    if edited.None? then None else if current.Some? then current else edited
  }

  function OrNoNumber(rank: Option<int>): (r: Json) {
    if rank.None? then Null else Number(rank.value)
  }

  function DiffRank(current: Option<int>, edited: Option<int>): (r: Option<Json>) {
    if MergedRank(current, edited) == current then None else Some(OrNoNumber(MergedRank(current, edited)))
  }

  // ---------------------------------------------------------------------------
  // Email addresses

  predicate MapsContext(key: string) {
    key == "work" || key == "private"
  }

  function Address(entry: Json): (text: string) {
    var text := TextOf(Field(entry, "address"));
    if text.None? then "" else text.value
  }

  predicate StatesEmail(entry: Json) {
    entry.Object? && Address(entry) != ""
  }

  function AddressChange(old': Json, new': Json): (r: Option<Json>) {
    if Address(old') == Address(new') then None else Some(Text(Address(new')))
  }

  function EmailChanges(old': Json, new': Json): (changes: map<string, Json>) {
    With(With(With(map[], "address", AddressChange(old', new')),
              "contexts", DiffFlags(Field(old', "contexts"), Field(new', "contexts"), MapsContext, MapsContext)),
         "pref", DiffRank(Rank(Field(old', "pref")), Rank(Field(new', "pref"))))
  }

  /** Of three different names, each is changed as it was set. */
  lemma {:induction false} ThreeChanges(a: string, x: Option<Json>, b: string, y: Option<Json>, c: string, z: Option<Json>, name: string)
    requires a != b && a != c && b != c
    ensures var changes := With(With(With(map[], a, x), b, y), c, z);
            && Lookup(changes, a) == x && Lookup(changes, b) == y && Lookup(changes, c) == z
            && (name != a && name != b && name != c ==> name !in changes)
  {
  }

  lemma {:induction false} EmailNames()
    ensures Plain("address") && Plain("contexts") && Plain("pref")
    ensures "address" != "contexts" && "address" != "pref" && "contexts" != "pref"
  {
    assert |"address"| == 7 && |"contexts"| == 8 && |"pref"| == 4;
  }

  lemma {:induction false} EmailChangesAt(old': Json, new': Json, name: string)
    ensures var changes := EmailChanges(old', new');
            && Lookup(changes, "address") == AddressChange(old', new')
            && Lookup(changes, "contexts") == DiffFlags(Field(old', "contexts"), Field(new', "contexts"), MapsContext, MapsContext)
            && Lookup(changes, "pref") == DiffRank(Rank(Field(old', "pref")), Rank(Field(new', "pref")))
            && (name in changes ==> name == "address" || name == "contexts" || name == "pref")
            && (name in changes ==> Plain(name))
  {
    EmailNames();
    ThreeChanges("address", AddressChange(old', new'),
                 "contexts", DiffFlags(Field(old', "contexts"), Field(new', "contexts"), MapsContext, MapsContext),
                 "pref", DiffRank(Rank(Field(old', "pref")), Rank(Field(new', "pref"))), name);
  }

  function DiffEmail(old': Json, new': Json): (change: Change) {
    Tails(EmailChanges(old', new'))
  }

  /** The server can take what the comparison of two addresses finds. */
  lemma {:induction false} EmailsAreSound()
    ensures Sound(StatesEmail, DiffEmail)
  {
    forall old', new' | StatesEmail(old')
      ensures Acceptable(old', ChangesOf(DiffEmail, old', new'))
    {
      EmailChangesPlain(old', new');
      PlainAcceptable(old', EmailChanges(old', new'));
    }
  }

  /** What a change of a member makes of the field. */
  function FieldAfter(field: Option<Json>, change: Option<Json>): (r: Option<Json>) {
    if change.None? then field else Written(change.value)
  }

  lemma {:induction false} FieldChanged(entry: Json, changes: map<string, Json>, after: Json, name: string)
    requires entry.Object? && (forall t :: t in changes ==> Plain(t)) && Changed(entry, changes, after)
    ensures Field(after, name) == FieldAfter(Field(entry, name), Lookup(changes, name))
  {
    MemberAfter(entry, changes, after, name);
  }

  lemma {:induction false} FlagsAfter(old': Option<Json>, new': Option<Json>, mapped: string -> bool, stated: string -> bool)
    ensures Flags(FieldAfter(old', DiffFlags(old', new', mapped, stated))) == MergedFlags(Flags(old'), Flags(new'), mapped, stated)
  {
  }

  /** After a save the entry states the edited address, context by context what the edit says where a
      line has a word for it and what the server said where not, a rank exactly if the edit has one,
      and of every other member what it stated before. */
  lemma {:induction false} EmailSaved(old': Json, new': Json, after: Json, name: string)
    requires StatesEmail(old') && Changed(old', EmailChanges(old', new'), after)
    ensures after.Object? && Address(after) == Address(new')
    ensures Flags(Field(after, "contexts")) ==
            MergedFlags(Flags(Field(old', "contexts")), Flags(Field(new', "contexts")), MapsContext, MapsContext)
    ensures Rank(Field(after, "pref")) == MergedRank(Rank(Field(old', "pref")), Rank(Field(new', "pref")))
    ensures name != "address" && name != "contexts" && name != "pref" ==>
              Lookup(after.members, name) == Lookup(old'.members, name)
  {
    var changes := EmailChanges(old', new');
    EmailChangesPlain(old', new');
    EmailChangesAt(old', new', name);
    EmailFields(old', changes, after);
    FlagsAfter(Field(old', "contexts"), Field(new', "contexts"), MapsContext, MapsContext);
    MemberAfter(old', changes, after, name);
  }

  lemma {:induction false} EmailChangesPlain(old': Json, new': Json)
    ensures forall t :: t in EmailChanges(old', new') ==> Plain(t)
  {
    forall t {
      EmailChangesAt(old', new', t);
    }
  }

  lemma {:induction false} EmailFields(old': Json, changes: map<string, Json>, after: Json)
    requires old'.Object? && (forall t :: t in changes ==> Plain(t)) && Changed(old', changes, after)
    ensures Field(after, "address") == FieldAfter(Field(old', "address"), Lookup(changes, "address"))
    ensures Field(after, "contexts") == FieldAfter(Field(old', "contexts"), Lookup(changes, "contexts"))
    ensures Field(after, "pref") == FieldAfter(Field(old', "pref"), Lookup(changes, "pref"))
  {
    FieldChanged(old', changes, after, "address");
    FieldChanged(old', changes, after, "contexts");
    FieldChanged(old', changes, after, "pref");
  }

  /** The entry after a save, as `EmailSaved` describes it. */
  ghost predicate IsSavedEmail(old': Json, new': Json, after: Json) {
    && old'.Object? && after.Object?
    && Address(after) == Address(new')
    && Flags(Field(after, "contexts")) ==
       MergedFlags(Flags(Field(old', "contexts")), Flags(Field(new', "contexts")), MapsContext, MapsContext)
    && Rank(Field(after, "pref")) == MergedRank(Rank(Field(old', "pref")), Rank(Field(new', "pref")))
    && forall name :: name != "address" && name != "contexts" && name != "pref" ==>
         Lookup(after.members, name) == Lookup(old'.members, name)
  }

  lemma {:induction false} KeptEmailSaved(old': Json, new': Json, after: Json)
    requires StatesEmail(old') && Changed(old', EmailChanges(old', new'), after)
    ensures IsSavedEmail(old', new', after)
  {
    EmailSaved(old', new', after, "");
    forall name {
      EmailSaved(old', new', after, name);
    }
  }

  /** The addresses after a save: no hidden one changed, each kept one is saved member by member, each
      new one is there as it was typed, under a key of its own, each that the edit leaves out is gone,
      and there are no others. */
  ghost predicate EmailsMerged(was: Entries, edited: Entries, now: Entries, place: map<string, string>) {
    && (forall key :: key in was && !StatesEmail(was[key]) ==> Lookup(now, key) == Some(was[key]))
    && (forall key :: Shown(was, key, StatesEmail) && key in edited ==> key in now && IsSavedEmail(was[key], edited[key], now[key]))
    && (forall key :: key in place <==> IsAdded(was, edited, key, StatesEmail))
    && (forall key :: key in place ==> place[key] !in was && Lookup(now, place[key]) == Some(edited[key]))
    && Injective(place)
    && (forall key :: Shown(was, key, StatesEmail) && key !in edited ==> key !in now)
    && (forall key :: key in now ==> key in was || key in place.Values)
  }

  lemma {:induction false} MergedEmails(was: Entries, edited: Entries, now: Entries, place: map<string, string>)
    requires Merged(now, was, edited, StatesEmail, DiffEmail, place)
    ensures EmailsMerged(was, edited, now, place)
  {
    forall key | Shown(was, key, StatesEmail) && key in edited
      ensures key in now && IsSavedEmail(was[key], edited[key], now[key])
    {
      assert Stays(was, edited, StatesEmail, DiffEmail, key);
      KeptEmailSaved(was[key], edited[key], now[key]);
    }
  }

  /** In whatever order the server takes the patch of the addresses of a card, it accepts it, leaves
      every other property alone, and merges the addresses. */
  lemma {:induction false} EmailsSaved(target: Json, current: Option<Entries>, edited: Entries,
                                       patch: Patch, place: map<string, string>, items: seq<(EntryPath, Json)>)
    returns (result: Json, entries: Option<Entries>)
    requires Holds(target, "emails", current) && NoNulls(edited)
    requires EntryDiff(OrEmpty(current), edited, StatesEmail, DiffEmail, patch, place) && Lists(items, patch)
    ensures Took(target, "emails", items, result, entries)
    ensures EmailsMerged(OrEmpty(current), edited, OrEmpty(entries), place)
  {
    EmailsAreSound();
    result, entries := SaveMerges(target, "emails", current, edited, StatesEmail, DiffEmail, patch, place, items);
    MergedEmails(OrEmpty(current), edited, OrEmpty(entries), place);
  }
}
