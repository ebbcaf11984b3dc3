/**
 How the anniversaries of a card are compared.

 A line states the kind and the day. The server may hold the day as a point in time or by its parts,
 with further members beside them.
 */
module AnniversaryCompare {
  import opened Digits
  import opened EntryCompare
  import opened EntryPatch
  import opened JsonPointer
  import opened Options

  datatype Day = Day(year: int, month: int, day: int)

  const EARLIEST_YEAR := 1000

  predicate IsDate(day: Day) {
    1 <= day.year <= 9999 && 1 <= day.month <= 12 && 1 <= day.day <= 31
  }

  /** The text before the time of day. */
  function BeforeTime(text: string): (r: string) {
    if text == "" || text[0] == 'T' || text[0] == 't' then "" else [text[0]] + BeforeTime(text[1..])
  }

  function WithoutDashes(text: string): (r: string) {
    if text == "" then "" else (if text[0] == '-' then "" else [text[0]]) + WithoutDashes(text[1..])
  }

  /** The day of a point in time: eight digits, with dashes anywhere, up to the time of day. */
  function ReadDay(text: string): (r: Option<Day>) {
    var digits := WithoutDashes(BeforeTime(text));
    if |digits| != 8 || exists i :: 0 <= i < 8 && !IsDigit(digits[i]) then None
    else
      var day := Day(DecimalValue(digits[..4]), DecimalValue(digits[4..6]), DecimalValue(digits[6..]));
      if IsDate(day) then Some(day) else None
  }

  function NumberAt(date: Json, name: string): (r: Option<int>) {
    var field := Field(date, name);
    if field.Some? && field.value.Number? then Some(field.value.number) else None
  }

  function DayOfParts(y: Option<int>, m: Option<int>, n: Option<int>): (r: Option<Day>) {
    if y.Some? && m.Some? && n.Some? && IsDate(Day(y.value, m.value, n.value)) then Some(Day(y.value, m.value, n.value)) else None
  }

  /** A line cannot state the days of the first centuries. */
  function Stated(day: Option<Day>): (r: Option<Day>) {
    if day.Some? && day.value.year >= EARLIEST_YEAR then day else None
  }

  /** The day that a date states: that of its point in time, or its own year, month and day. */
  function DayOf(date: Json): (r: Option<Day>) {
    var utc := TextField(date, "utc");
    Stated(if utc.Some? then ReadDay(utc.value)
           else DayOfParts(NumberAt(date, "year"), NumberAt(date, "month"), NumberAt(date, "day")))
  }

  function DateOf(entry: Json): (date: Json) {
    OrNothing(Field(entry, "date"))
  }

  function Kind(entry: Json): (kind: string) {
    var text := TextField(entry, "kind");
    if text.None? then "" else text.value
  }

  predicate MapsKind(kind: string) {
    kind == "birth" || kind == "wedding"
  }

  predicate StatesAnniversary(entry: Json) {
    entry.Object? && MapsKind(Kind(entry)) && DayOf(DateOf(entry)).Some?
  }

  predicate IsPointInTime(date: Json) {
    date.Object? && "utc" in date.members
  }

  function KindChange(old': Json, new': Json): (r: Option<Json>) {
    if Kind(old') == Kind(new') then None else Some(Text(Kind(new')))
  }

  /** A member of the day that the edit states and that is another one. */
  function PartChange(old': Json, new': Json, name: string): (r: Option<Json>) {
    if new'.Object? && name in new'.members && !(old'.Object? && name in old'.members && old'.members[name] == new'.members[name])
    then Some(new'.members[name]) else None
  }

  /** A point in time is replaced, a day changes member by member so that its other members stay. */
  function DateChanges(old': Json, new': Json): (changes: map<string, Json>) {
    var was, now := DateOf(old'), DateOf(new');
    if DayOf(was) == DayOf(now) || now.Null? then map[]
    else if IsPointInTime(was) then map["date" := now]
    else With(With(With(map[], "date/year", PartChange(was, now, "year")), "date/month", PartChange(was, now, "month")),
              "date/day", PartChange(was, now, "day"))
  }

  function AnniversaryChanges(old': Json, new': Json): (changes: map<string, Json>) {
    With(DateChanges(old', new'), "kind", KindChange(old', new'))
  }

  function DiffAnniversary(old': Json, new': Json): (change: Change) {
    Tails(AnniversaryChanges(old', new'))
  }

  lemma {:induction false} DateWords()
    ensures Plain("kind") && Plain("date") && Plain("year") && Plain("month") && Plain("day")
  {
  }

  lemma {:induction false} DateTexts()
    ensures "date" + "/" + "year" == "date/year"
    ensures "date" + "/" + "month" == "date/month"
    ensures "date" + "/" + "day" == "date/day"
  {
  }

  lemma {:induction false} PartPath(part: string, text: string)
    requires Plain(part) && Plain("date") && "date" + "/" + part == text
    ensures ReadPath("date") == ["date"] && ReadPath(text) == ["date", part]
  {
    PlainReads("date", part);
  }

  lemma {:induction false} DatePaths()
    ensures ReadPath("kind") == ["kind"] && ReadPath("date") == ["date"]
    ensures ReadPath("date/year") == ["date", "year"]
    ensures ReadPath("date/month") == ["date", "month"]
    ensures ReadPath("date/day") == ["date", "day"]
  {
    DateWords();
    DateTexts();
    PlainReads("kind", "date");
    PartPath("year", "date/year");
    PartPath("month", "date/month");
    PartPath("day", "date/day");
  }

  lemma {:induction false} DateNames()
    ensures "kind"[0] != "date"[0] && "year"[0] != "month"[0] && "year"[0] != "day"[0] && "month"[0] != "day"[0]
    ensures "date/year" != "date/month" && "date/year" != "date/day" && "date/month" != "date/day"
    ensures "kind" != "date" && "kind" != "date/year" && "kind" != "date/month" && "kind" != "date/day"
  {
    assert "date/year"[5] != "date/month"[5] && "date/year"[5] != "date/day"[5] && "date/month"[5] != "date/day"[5];
    assert "date/year"[0] == "date/month"[0] == "date/day"[0] == "date"[0];
  }

  /** The paths that the comparison can write: the kind, and the date or parts of it. */
  predicate WritesParts(changes: map<string, Json>) {
    forall t :: t in changes ==> t == "kind" || t == "date/year" || t == "date/month" || t == "date/day"
  }

  predicate WritesDate(changes: map<string, Json>) {
    forall t :: t in changes ==> t == "kind" || t == "date"
  }

  lemma {:induction false} AnniversaryPaths(old': Json, new': Json)
    ensures IsPointInTime(DateOf(old')) ==> WritesDate(AnniversaryChanges(old', new'))
    ensures !IsPointInTime(DateOf(old')) ==> WritesParts(AnniversaryChanges(old', new'))
  {
  }

  lemma {:induction false} PathsApart(a: seq<string>, b: seq<string>, i: nat)
    requires i < |a| && i < |b| && a[i] != b[i]
    ensures Apart(a, b)
  {
  }

  predicate IsPart(t: string) {
    t == "date/year" || t == "date/month" || t == "date/day"
  }

  lemma {:induction false} PartParents(entry: Json, name: string)
    requires entry.Object? && DateOf(entry).Object?
    ensures HasParents(entry, ["date", name]) && HasParents(entry, ["kind"])
  {
    assert ["date", name][1..] == [name];
  }

  lemma {:induction false} PartIs(t: string)
    requires IsPart(t)
    ensures ReadPath(t) == ["date", t[5..]]
  {
    DatePaths();
    assert "date/year"[5..] == "year" && "date/month"[5..] == "month" && "date/day"[5..] == "day";
  }

  lemma {:induction false} PartsApart(t: string, u: string)
    requires IsPart(t) && (IsPart(u) || u == "kind") && t != u
    ensures Apart(ReadPath(t), ReadPath(u))
  {
    DatePaths();
    DateNames();
    PartIs(t);
    if u == "kind" {
      PathsApart(ReadPath(t), ReadPath(u), 0);
    } else {
      PartIs(u);
      assert t[5] != u[5] && t[5..][0] == t[5] && u[5..][0] == u[5];
      PathsApart(ReadPath(t), ReadPath(u), 1);
    }
  }

  lemma {:induction false} PartsAcceptable(entry: Json, changes: map<string, Json>)
    requires entry.Object? && DateOf(entry).Object? && WritesParts(changes)
    ensures Acceptable(entry, changes)
  {
    forall t | t in changes
      ensures HasParents(entry, ReadPath(t))
    {
      DatePaths();
      if IsPart(t) {
        PartIs(t);
        PartParents(entry, t[5..]);
      } else {
        PartParents(entry, t);
      }
    }
    forall t, u | t in changes && u in changes && t != u
      ensures Apart(ReadPath(t), ReadPath(u))
    {
      if IsPart(t) {
        PartsApart(t, u);
      } else {
        PartsApart(u, t);
        ApartSymmetric(ReadPath(t), ReadPath(u));
      }
    }
  }

  lemma {:induction false} DateAcceptable(entry: Json, changes: map<string, Json>)
    requires entry.Object? && WritesDate(changes)
    ensures Acceptable(entry, changes)
  {
    DateWords();
    PlainAcceptable(entry, changes);
  }

  /** A shown anniversary has a date to write into, so the server can take its parts. */
  lemma {:induction false} AnniversariesAreSound()
    ensures Sound(StatesAnniversary, DiffAnniversary)
  {
    forall old', new' | StatesAnniversary(old')
      ensures Acceptable(old', AnniversaryChanges(old', new'))
    {
      AnniversaryPaths(old', new');
      if IsPointInTime(DateOf(old')) {
        DateAcceptable(old', AnniversaryChanges(old', new'));
      } else {
        PartsAcceptable(old', AnniversaryChanges(old', new'));
      }
    }
  }

  lemma {:induction false} AtTwo(entry: Json, a: string, b: string)
    requires entry.Object?
    ensures At(entry, [a, b]) == if a in entry.members && entry.members[a].Object? then Lookup(entry.members[a].members, b) else None
  {
    assert [a, b][1..] == [b];
    if a in entry.members && entry.members[a].Object? {
      MemberAt(entry.members[a], b);
    }
  }

  /** A changed path reads its value, and one that is apart from all changes as before. */
  lemma {:induction false} ReadAfter(entry: Json, changes: map<string, Json>, after: Json, t: string, keys: seq<string>)
    requires Changed(entry, changes, after) && ReadPath(t) == keys
    requires t !in changes ==> ApartFromAll(changes, keys)
    ensures At(after, keys) == if t in changes then Written(changes[t]) else At(entry, keys)
  {
  }

  lemma {:induction false} FieldReadAfter(entry: Json, changes: map<string, Json>, after: Json, name: string)
    requires entry.Object? && Changed(entry, changes, after) && ReadPath(name) == [name]
    requires name !in changes ==> ApartFromAll(changes, [name])
    ensures after.Object? && Field(after, name) == FieldAfter(Field(entry, name), Lookup(changes, name))
  {
    ReadAfter(entry, changes, after, name, [name]);
    MemberAt(entry, name);
    MemberAt(after, name);
  }

  lemma {:induction false} PartReadAfter(entry: Json, changes: map<string, Json>, after: Json, t: string, name: string)
    requires entry.Object? && DateOf(entry).Object? && Changed(entry, changes, after) && ReadPath(t) == ["date", name]
    requires t !in changes ==> ApartFromAll(changes, ["date", name])
    ensures At(after, ["date", name]) ==
            if t in changes then Written(changes[t]) else Lookup(DateOf(entry).members, name)
  {
    ReadAfter(entry, changes, after, t, ["date", name]);
    AtTwo(entry, "date", name);
  }

  /** What the save of a day member by member makes of the members of the date. */
  lemma {:induction false} PartAfter(old': Json, changes: map<string, Json>, after: Json, now: Json, t: string, name: string)
    requires old'.Object? && DateOf(old').Object? && Changed(old', changes, after) && WritesParts(changes)
    requires IsPart(t) && name == t[5..] && Lookup(changes, t) == PartChange(DateOf(old'), now, name)
    ensures At(after, ["date", name]) == FieldPart(DateOf(old'), now, name)
  {
    PartIs(t);
    if t !in changes {
      UnwrittenPart(changes, t);
    }
    PartReadAfter(old', changes, after, t, name);
  }

  lemma {:induction false} UnwrittenPart(changes: map<string, Json>, t: string)
    requires WritesParts(changes) && IsPart(t) && t !in changes
    ensures ApartFromAll(changes, ReadPath(t))
  {
    forall u | u in changes
      ensures Apart(ReadPath(u), ReadPath(t))
    {
      PartsApart(t, u);
      ApartSymmetric(ReadPath(t), ReadPath(u));
    }
  }

  /** The members of the date that are no parts of the day stay. */
  lemma {:induction false} OtherPartStays(old': Json, new': Json, after: Json, name: string)
    requires old'.Object? && !IsPointInTime(DateOf(old')) && Changed(old', AnniversaryChanges(old', new'), after)
    requires name != "year" && name != "month" && name != "day"
    ensures At(after, ["date", name]) == At(old', ["date", name])
  {
    var changes := AnniversaryChanges(old', new');
    AnniversaryPaths(old', new');
    assert ApartFromAll(changes, ["date", name]) by {
      forall u | u in changes
        ensures Apart(ReadPath(u), ["date", name])
      {
        ApartFromOther(u, name);
      }
    }
  }

  lemma {:induction false} ApartFromOther(u: string, name: string)
    requires (IsPart(u) || u == "kind") && name != "year" && name != "month" && name != "day"
    ensures Apart(ReadPath(u), ["date", name])
  {
    DatePaths();
    DateNames();
    PathsApart(ReadPath(u), ["date", name], if u == "kind" then 0 else 1);
  }

  /** A part of the date after the save. */
  function FieldPart(was: Json, now: Json, name: string): (r: Option<Json>)
    requires was.Object?
  {
    var change := PartChange(was, now, name);
    if change.None? then Lookup(was.members, name) else Written(change.value)
  }

  lemma {:induction false} PartsAt(old': Json, new': Json, t: string)
    requires DayOf(DateOf(old')) != DayOf(DateOf(new')) && !DateOf(new').Null? && !IsPointInTime(DateOf(old')) && IsPart(t)
    ensures Lookup(AnniversaryChanges(old', new'), t) == PartChange(DateOf(old'), DateOf(new'), t[5..])
  {
    DateNames();
    assert "date/year"[5..] == "year" && "date/month"[5..] == "month" && "date/day"[5..] == "day";
    ThreeChanges("date/year", PartChange(DateOf(old'), DateOf(new'), "year"),
                 "date/month", PartChange(DateOf(old'), DateOf(new'), "month"),
                 "date/day", PartChange(DateOf(old'), DateOf(new'), "day"), "kind");
  }

  /** The number that the part of the edit, or else of the server, states. */
  function MergedNumber(was: Json, now: Json, name: string): (r: Option<int>) {
    if now.Object? && name in now.members then NumberAt(now, name) else NumberAt(was, name)
  }

  /** The day that the parts of the edit make with those of the server. */
  function MergedDay(was: Json, now: Json): (r: Option<Day>) {
    Stated(DayOfParts(MergedNumber(was, now, "year"), MergedNumber(was, now, "month"), MergedNumber(was, now, "day")))
  }

  lemma {:induction false} NumberAfter(after: Json, was: Json, now: Json, name: string)
    requires after.Object? && was.Object? && At(after, ["date", name]) == FieldPart(was, now, name)
    ensures NumberAt(DateOf(after), name) == MergedNumber(was, now, name)
  {
    AtTwo(after, "date", name);
  }

  lemma {:induction false} PartTexts()
    ensures "date/year"[5..] == "year" && "date/month"[5..] == "month" && "date/day"[5..] == "day"
  {
  }

  lemma {:induction false} NumberByPart(old': Json, new': Json, after: Json, t: string, name: string)
    requires StatesAnniversary(old') && Changed(old', AnniversaryChanges(old', new'), after)
    requires DayOf(DateOf(old')) != DayOf(DateOf(new')) && !IsPointInTime(DateOf(old')) && !DateOf(new').Null?
    requires IsPart(t) && t[5..] == name
    ensures NumberAt(DateOf(after), name) == MergedNumber(DateOf(old'), DateOf(new'), name)
  {
    AnniversaryPaths(old', new');
    PartsAt(old', new', t);
    PartAfter(old', AnniversaryChanges(old', new'), after, DateOf(new'), t, name);
    NumberAfter(after, DateOf(old'), DateOf(new'), name);
  }

  /** The day that the parts make. */
  lemma {:induction false} DayByParts(old': Json, new': Json, after: Json)
    requires StatesAnniversary(old') && Changed(old', AnniversaryChanges(old', new'), after)
    requires DayOf(DateOf(old')) != DayOf(DateOf(new')) && !IsPointInTime(DateOf(old')) && !DateOf(new').Null?
    ensures DayOf(DateOf(after)) == MergedDay(DateOf(old'), DateOf(new'))
  {
    PartTexts();
    NumberByPart(old', new', after, "date/year", "year");
    NumberByPart(old', new', after, "date/month", "month");
    NumberByPart(old', new', after, "date/day", "day");
    OtherPartStays(old', new', after, "utc");
    AtTwo(after, "date", "utc");
    AtTwo(old', "date", "utc");
  }

  /** The parts that the edit carries make, with those of the server, the day that the edit states. */
  predicate PartsSay(was: Json, now: Json) {
    !now.Null? && !IsPointInTime(was) && MergedDay(was, now) == DayOf(now)
  }

  /** After a save the entry states the edited kind. It states the edited day exactly if the day did not
      change, or the server had a point in time to replace, or the parts of the edit make the day. */
  lemma {:induction false} AnniversarySaved(old': Json, new': Json, after: Json)
    requires StatesAnniversary(old') && Changed(old', AnniversaryChanges(old', new'), after)
    ensures Kind(after) == Kind(new')
    ensures var was, now := DateOf(old'), DateOf(new');
            DayOf(DateOf(after)) == DayOf(now) <==>
              DayOf(was) == DayOf(now) || (IsPointInTime(was) && !now.Null?) || PartsSay(was, now)
  {
    KindSaved(old', new', after);
    var was, now := DateOf(old'), DateOf(new');
    if DayOf(was) != DayOf(now) && !IsPointInTime(was) && !now.Null? {
      DayByParts(old', new', after);
    } else {
      DateSaved(old', new', after);
    }
  }

  /** The date that a line is read as. */
  function LineDate(day: Day): (date: Json) {
    Object(map["@type" := Text("PartialDate"), "year" := Number(day.year), "month" := Number(day.month), "day" := Number(day.day)])
  }

  lemma {:induction false} LineDateStates(day: Day, was: Json)
    requires IsDate(day)
    ensures DayOf(LineDate(day)) == Stated(Some(day)) == MergedDay(was, LineDate(day))
  {
    var date := LineDate(day);
    assert "utc" !in date.members && "year" in date.members && "month" in date.members && "day" in date.members by {
      assert |"utc"| == 3 && |"day"| == 3 && "utc"[0] != "day"[0] && |"@type"| == 5 && |"year"| == 4 && |"month"| == 5;
      assert "@type"[0] != "month"[0];
    }
    assert date.members["year"] == Number(day.year) && date.members["month"] == Number(day.month) && date.members["day"] == Number(day.day);
  }

  /** Every edit of a line is saved, also to a day that no line can state. */
  lemma {:induction false} LineIsSaved(old': Json, new': Json, after: Json, day: Day)
    requires StatesAnniversary(old') && Changed(old', AnniversaryChanges(old', new'), after)
    requires IsDate(day) && DateOf(new') == LineDate(day)
    ensures Kind(after) == Kind(new') && DayOf(DateOf(after)) == Stated(Some(day))
  {
    LineDateStates(day, DateOf(old'));
    AnniversarySaved(old', new', after);
  }

  /** Another point in time is not saved over a day: it has no parts to write. */
  lemma {:induction false} PointInTimeIsLost(old': Json, new': Json, after: Json)
    requires StatesAnniversary(old') && Changed(old', AnniversaryChanges(old', new'), after)
    requires !IsPointInTime(DateOf(old')) && DateOf(new').Object? && DayOf(DateOf(old')) != DayOf(DateOf(new'))
    requires forall name :: name in ["year", "month", "day"] ==> name !in DateOf(new').members
    ensures DayOf(DateOf(after)) == DayOf(DateOf(old')) != DayOf(DateOf(new'))
  {
    var now := DateOf(new');
    assert ["year", "month", "day"][0] !in now.members && ["year", "month", "day"][1] !in now.members && ["year", "month", "day"][2] !in now.members;
    DayByParts(old', new', after);
  }

  lemma {:induction false} KindAt(old': Json, new': Json)
    ensures Lookup(AnniversaryChanges(old', new'), "kind") == KindChange(old', new')
    ensures KindChange(old', new').None? ==> ApartFromAll(AnniversaryChanges(old', new'), ["kind"])
  {
    var changes := AnniversaryChanges(old', new');
    DateNames();
    AnniversaryPaths(old', new');
    if "kind" !in changes {
      forall t | t in changes
        ensures Apart(ReadPath(t), ["kind"])
      {
        DatePaths();
        PathsApart(ReadPath(t), ["kind"], 0);
      }
    }
  }

  lemma {:induction false} KindSaved(old': Json, new': Json, after: Json)
    requires old'.Object? && Changed(old', AnniversaryChanges(old', new'), after)
    ensures after.Object? && Kind(after) == Kind(new')
  {
    KindAt(old', new');
    DatePaths();
    FieldReadAfter(old', AnniversaryChanges(old', new'), after, "kind");
  }

  /** No part of the date is written, as the day is the same, or there is no date, or it is replaced. */
  predicate WritesNoPart(was: Json, now: Json) {
    DayOf(was) == DayOf(now) || now.Null? || IsPointInTime(was)
  }

  lemma {:induction false} DateChangesAt(old': Json, new': Json)
    requires WritesNoPart(DateOf(old'), DateOf(new'))
    ensures Lookup(AnniversaryChanges(old', new'), "date") ==
            if DayOf(DateOf(old')) == DayOf(DateOf(new')) || DateOf(new').Null? then None else Some(DateOf(new'))
    ensures WritesDate(AnniversaryChanges(old', new'))
  {
    assert "kind"[0] != "date"[0];
  }

  lemma {:induction false} DateApart(changes: map<string, Json>)
    requires WritesDate(changes) && "date" !in changes
    ensures ApartFromAll(changes, ["date"])
  {
    DateWords();
    PlainReads("kind", "date");
    assert "kind"[0] != "date"[0];
    PathsApart(["kind"], ["date"], 0);
  }

  lemma {:induction false} DateAfter(old': Json, changes: map<string, Json>, after: Json)
    requires old'.Object? && Changed(old', changes, after) && WritesDate(changes)
    ensures DateOf(after) == if "date" in changes then changes["date"] else DateOf(old')
  {
    DatePaths();
    if "date" !in changes {
      DateApart(changes);
    }
    FieldReadAfter(old', changes, after, "date");
  }

  /** The date stays, or is replaced whole. */
  lemma {:induction false} DateSaved(old': Json, new': Json, after: Json)
    requires old'.Object? && Changed(old', AnniversaryChanges(old', new'), after)
    requires WritesNoPart(DateOf(old'), DateOf(new'))
    ensures DateOf(after) == if DayOf(DateOf(old')) == DayOf(DateOf(new')) || DateOf(new').Null? then DateOf(old') else DateOf(new')
  {
    DateChangesAt(old', new');
    DateAfter(old', AnniversaryChanges(old', new'), after);
  }
}
