/**
 The base of an edit over whole runs of one cached object.

 Each load and each refresh puts the current server version at the front of the extra of the
 cached object, and the object that an editor opens carries the revision of that version as its
 stamp. A save of an edit looks its stamp up in the extra of that moment. The revision function
 is a parameter: what is proved holds for every one of them, collisions included.

 The extra is a C string. A listing replaces each NUL of the version before it is kept, a load drops
 a lone version from its first NUL on, while the stamp is the revision of the text as it came from
 the server. So a version with a NUL can be kept as another text than the one that its stamp names.
 */
module EditProtocol {
  import opened CStrings
  import InfoList
  import opened KeptVersions
  import opened Options

  type Revision = string -> string

  // ---------------------------------------------------------------------------
  // The base of an edit

  datatype Base = Found(base: Option<string>) | OutOfSync

  function FirstWith(versions: seq<string>, stamp: string, revision: Revision): (r: Option<string>) {
    if versions == [] then None
    else if revision(versions[0]) == stamp then Some(versions[0])
    else FirstWith(versions[1..], stamp, revision)
  }

  /** What an edit is compared with: without a stamp the latest version, else the kept one that the
      stamp names, or a refusal. */
  function BaseFor(extra: Option<string>, stamp: Option<string>, revision: Revision): (r: Base) {
    if extra.None? then Found(None)
    else
      var versions := VersionsOf(extra.value);
      if stamp.None? then Found(if versions == [] then None else Some(versions[0]))
      else
        var version := FirstWith(versions, stamp.value, revision);
        if version.None? then OutOfSync else Found(version)
  }

  lemma {:induction false} FirstWithFinds(versions: seq<string>, stamp: string, revision: Revision)
    ensures var r := FirstWith(versions, stamp, revision);
            && (r.Some? ==> r.value in versions && revision(r.value) == stamp)
            && (r.None? <==> forall v :: v in versions ==> revision(v) != stamp)
  {
    if versions != [] {
      FirstWithFinds(versions[1..], stamp, revision);
      assert forall v :: v in versions <==> v == versions[0] || v in versions[1..];
    }
  }

  // ---------------------------------------------------------------------------
  // Most recent first

  function Reverse(texts: seq<string>): (r: seq<string>) {
    if texts == [] then [] else [texts[|texts| - 1]] + Reverse(texts[..|texts| - 1])
  }

  /** The four most recent distinct texts of a history, most recent first. */
  function Recent(history: seq<string>): (r: seq<string>) {
    Take(Distinct(Reverse(history)), KEPT)
  }

  function Without(texts: seq<string>, t: string): (r: seq<string>) {
    if texts == [] then []
    else
      var front, last := texts[..|texts| - 1], texts[|texts| - 1];
      if last == t then Without(front, t) else Without(front, t) + [last]
  }

  predicate NoRepeats(texts: seq<string>) {
    forall i, j :: 0 <= i < j < |texts| ==> texts[i] != texts[j]
  }

  lemma {:induction false} DistinctHasNoRepeats(texts: seq<string>)
    ensures NoRepeats(Distinct(texts))
  {
    if texts != [] {
      DistinctHasNoRepeats(texts[..|texts| - 1]);
    }
  }

  lemma {:induction false} DistinctOfNoRepeats(texts: seq<string>)
    requires NoRepeats(texts)
    ensures Distinct(texts) == texts
  {
    if texts != [] {
      var front, last := texts[..|texts| - 1], texts[|texts| - 1];
      DistinctOfNoRepeats(front);
      assert texts == front + [last];
    }
  }

  lemma {:induction false} DistinctCons(t: string, texts: seq<string>)
    ensures Distinct([t] + texts) == [t] + Without(Distinct(texts), t)
    decreases |texts|
  {
    var all := [t] + texts;
    if texts == [] {
      assert all == [t] && all[..0] == [];
    } else {
      var front, last := texts[..|texts| - 1], texts[|texts| - 1];
      assert texts == front + [last];
      assert all[..|all| - 1] == [t] + front && all[|all| - 1] == last;
      DistinctCons(t, front);
      if last !in front {
        var d := Distinct(front) + [last];
        assert d[..|d| - 1] == Distinct(front);
      }
    }
  }

  lemma {:induction false} WithoutPrefix(texts: seq<string>, n: nat, t: string)
    requires n <= |texts|
    ensures Without(texts[..n], t) <= Without(texts, t)
    decreases |texts|
  {
    if n < |texts| {
      var front := texts[..|texts| - 1];
      assert front[..n] == texts[..n];
      WithoutPrefix(front, n, t);
    } else {
      assert texts[..n] == texts;
    }
  }

  lemma {:induction false} WithoutLength(texts: seq<string>, t: string)
    requires NoRepeats(texts)
    ensures |texts| - 1 <= |Without(texts, t)| <= |texts|
    ensures t !in texts ==> Without(texts, t) == texts
    decreases |texts|
  {
    if texts != [] {
      var front, last := texts[..|texts| - 1], texts[|texts| - 1];
      assert texts == front + [last];
      WithoutLength(front, t);
    }
  }

  /** Keeping four after each version is keeping four in the end. */
  lemma {:induction false} RecentStep(history: seq<string>, t: string)
    ensures Recent(history + [t]) == Take(Distinct([t] + Recent(history)), KEPT)
  {
    var longer := history + [t];
    assert longer[..|longer| - 1] == history;
    var d := Distinct(Reverse(history));
    var four := Take(d, KEPT);
    DistinctHasNoRepeats(Reverse(history));
    DistinctOfNoRepeats(four);
    DistinctCons(t, Reverse(history));
    DistinctCons(t, four);
    WithoutPrefix(d, |four|, t);
    assert d[..|four|] == four;
    WithoutLength(four, t);
    WithoutLength(d, t);
    if |d| <= KEPT {
      assert four == d;
    } else {
      assert [t] + Without(four, t) <= [t] + Without(d, t);
    }
  }

  // ---------------------------------------------------------------------------
  // What is kept of a version

  /** How a version reaches the cache: in a list of objects, or alone. */
  datatype Way = Listed | Loaded

  /** The extra after the version `text` came in. */
  function StoredExtra(way: Way, text: string, extra: Option<string>): (r: string) {
    CText(Extra(if way.Listed? then CString(text) else text, extra))
  }

  /** The version that this extra keeps for `text`. */
  function KeptText(way: Way, text: string, extra: Option<string>): (r: string) {
    if way.Listed? then CString(text) else if |Kept(text, extra)| == 1 then CText(text) else text
  }

  /** A version is kept as it came exactly if it has no NUL, or it is loaded beside another version. */
  lemma {:induction false} KeptAsItCame(way: Way, text: string, extra: Option<string>)
    ensures KeptText(way, text, extra) == text <==> '\0' !in text || (way.Loaded? && |Kept(text, extra)| > 1)
  {
    KeptFromGrows([text], Older(extra));
  }

  /** This is the extra of a node of a listing, after the cached versions were added to it. */
  lemma {:induction false} ListingStores(contact: InfoList.Contact, cached: string -> Option<string>)
    requires contact.vcard != ""
    ensures InfoList.Keeping(InfoList.FieldsOf(contact), cached).extra ==
            Some(StoredExtra(Listed, contact.vcard, cached(CString(contact.uid))))
  {
    KeptFromGrows([CString(contact.vcard)], []);
  }

  /** A rendered object is a calendar or a card: it begins with BEGIN. */
  predicate Rendered(text: string) {
    Readable(text) && text[0] != '\0'
  }

  lemma {:induction false} KeptIsRendered(way: Way, text: string, extra: Option<string>)
    requires Rendered(text)
    ensures Rendered(KeptText(way, text, extra))
  {
    assert CText(text) != "" && CText(text)[0] == text[0];
  }

  /** The extra that holds these versions. */
  predicate Holds(extra: Option<string>, versions: seq<string>) {
    if versions == [] then extra.None?
    else extra == Some(ExtraText(versions)) && '\0' !in ExtraText(versions)
  }

  lemma {:induction false} HeldReads(extra: Option<string>, versions: seq<string>)
    requires Holds(extra, versions) && (forall v :: v in versions ==> Rendered(v))
    ensures Older(extra) == versions
    ensures extra.Some? ==> extra.value != "" && VersionsOf(extra.value) == versions
  {
    if versions != [] {
      assert versions[0] in versions;
      if |versions| > 1 {
        DecodeEncode(versions);
        EncodeIs(versions);
      } else {
        assert versions == [versions[0]];
      }
    }
  }

  /** Storing a version keeps the most recent distinct ones, with the text that is kept of it. */
  lemma {:induction false} StoredHolds(way: Way, text: string, extra: Option<string>, history: seq<string>)
    requires Rendered(text) && (forall v :: v in history ==> Rendered(v)) && Holds(extra, Recent(history))
    ensures Holds(Some(StoredExtra(way, text, extra)), Recent(history + [KeptText(way, text, extra)]))
  {
    var t := if way.Listed? then CString(text) else text;
    forall v | v in Recent(history)
      ensures Rendered(v)
    {
      RecentIsDelivered(history, v);
    }
    HeldReads(extra, Recent(history));
    KeptIsRecent(t, extra);
    KeptFromGrows([t], Older(extra));
    RecentStep(history, t);
    assert Kept(t, extra) == Recent(history + [t]);
    ExtraHasNoNul(t, extra);
    if |Kept(t, extra)| == 1 && way.Loaded? && '\0' in text {
      LoneIsFirst(text, extra, history);
      RecentOfOne(CText(text));
      assert [] + [CText(text)] == [CText(text)];
    }
  }

  lemma {:induction false} OneDistinct(texts: seq<string>, t: string)
    requires NoRepeats(texts) && texts != [] && Take(Distinct([t] + texts), KEPT) == [t]
    ensures texts == [t]
  {
    DistinctCons(t, texts);
    DistinctOfNoRepeats(texts);
    WithoutLength(texts, t);
  }

  lemma {:induction false} RecentHasNoRepeats(history: seq<string>)
    ensures NoRepeats(Recent(history))
  {
    DistinctHasNoRepeats(Reverse(history));
  }

  /** If a text with a NUL is kept alone, nothing was kept before. */
  lemma {:induction false} LoneIsFirst(text: string, extra: Option<string>, history: seq<string>)
    requires Holds(extra, Recent(history)) && Recent(history + [text]) == [text] && '\0' in text
    ensures history == []
  {
    if history != [] {
      RecentIsDelivered(history, text);
      RecentStep(history, text);
      RecentHasNoRepeats(history);
      OneDistinct(Recent(history), text);
    }
  }

  lemma {:induction false} RecentOfOne(t: string)
    ensures Recent([t]) == [t]
  {
    var one := [t];
    assert one[..|one| - 1] == [];
    assert Reverse(one) == one + Reverse([]) == one;
    DistinctOfNoRepeats(one);
  }

  // ---------------------------------------------------------------------------
  // Runs

  /** What a save asked of the server: the stamp of the edit, the base it is diffed against, and
      what the cache held. */
  datatype Write = Write(stamp: Option<string>, base: Option<string>, received: bool, creates: bool, history: seq<string>)

  datatype State = State(
    server: string,                        // the rendered object on the server
    extra: Option<string>,                 // the extra of the cached object
    cached: string,                        // the version that the cached object renders
    history: seq<string>,                  // what was kept of the versions delivered
    editors: map<nat, Option<string>>,     // open editors and their stamps
    origins: map<nat, string>,             // the version that each of them opened
    writes: seq<Write>
  )

  datatype Step =
    | Serve(text: string)                  // the object changes on the server
    | Deliver(way: Way)                    // a load, a listing or a delta
    | Drop                                 // the object leaves the cache
    | Open(editor: nat)
    | OpenUnstamped(editor: nat)           // an object cached before there were stamps
    | Save(editor: nat, received: bool, stored: Option<string>)
    | Create(stored: Option<string>)

  predicate Enabled(s: State, step: Step) {
    match step
    case Serve(text) => Rendered(text)
    case Deliver(_) => true
    case Drop => true
    case Open(e) => e !in s.editors && s.extra.Some?
    case OpenUnstamped(e) => e !in s.editors
    case Save(e, _, stored) => e in s.editors && (stored.Some? ==> Rendered(stored.value))
    case Create(stored) => stored.Some? ==> Rendered(stored.value)
  }

  /** The cache entry after the server version `text` came in. */
  function Delivered(s: State, way: Way, text: string): (r: State) {
    s.(extra := Some(StoredExtra(way, text, s.extra)), cached := text, history := s.history + [KeptText(way, text, s.extra)])
  }

  /** The base that a save chooses: a received change replaces the object and has none. */
  function ChosenBase(s: State, editor: nat, received: bool, revision: Revision): (r: Base)
    requires editor in s.editors
  {
    if received then Found(None) else BaseFor(s.extra, s.editors[editor], revision)
  }

  function AfterWrite(s: State, write: Write, stored: Option<string>): (r: State) {
    var t := s.(writes := s.writes + [write]);
    if stored.None? then t else Delivered(t.(server := stored.value), Loaded, stored.value)
  }

  function After(s: State, step: Step, revision: Revision): (r: State)
    requires Enabled(s, step)
  {
    match step
    case Serve(text) => s.(server := text)
    case Deliver(way) => Delivered(s, way, s.server)
    case Drop => s.(extra := None, history := [])
    case Open(e) =>
      s.(editors := s.editors[e := Some(revision(s.cached))], origins := s.origins[e := s.cached])
    case OpenUnstamped(e) => s.(editors := s.editors[e := None])
    case Save(e, received, stored) =>
      (match ChosenBase(s, e, received, revision)
       case OutOfSync => s
       case Found(base) => AfterWrite(s, Write(s.editors[e], base, received, false, s.history), stored))
    case Create(stored) => AfterWrite(s, Write(None, None, false, true, s.history), stored)
  }

  predicate Legal(server: string, steps: seq<Step>, revision: Revision)
    decreases |steps|, 0
  {
    steps == [] ||
    (&& Legal(server, steps[..|steps| - 1], revision)
     && Enabled(Run(server, steps[..|steps| - 1], revision), steps[|steps| - 1]))
  }

  function Run(server: string, steps: seq<Step>, revision: Revision): (s: State)
    requires Legal(server, steps, revision)
    decreases |steps|, 1
  {
    if steps == [] then State(server, None, server, [], map[], map[], [])
    else After(Run(server, steps[..|steps| - 1], revision), steps[|steps| - 1], revision)
  }

  // ---------------------------------------------------------------------------
  // What every run keeps

  /** The extra holds the four most recent distinct texts that were kept of the versions delivered. */
  predicate HoldsRecent(s: State) {
    && Rendered(s.server)
    && (forall t :: t in s.history ==> Rendered(t))
    && Holds(s.extra, Recent(s.history))
  }

  /** A write of an edit with a stamp, to an object that the cache holds, has as its base a kept
      version with that stamp. A write without a cached version, a received change and a create have
      none. */
  predicate SafeWrite(w: Write, revision: Revision) {
    && (w.received || w.creates || w.history == [] ==> w.base.None?)
    && (!w.received && !w.creates && w.history != [] && w.stamp.Some? ==>
          w.base.Some? && revision(w.base.value) == w.stamp.value && w.base.value in Recent(w.history))
  }

  predicate SafeWrites(s: State, revision: Revision) {
    forall w :: w in s.writes ==> SafeWrite(w, revision)
  }

  lemma {:induction false} DeliveredHoldsRecent(s: State, way: Way, text: string)
    requires HoldsRecent(s) && Rendered(text)
    ensures HoldsRecent(Delivered(s, way, text).(server := text))
  {
    StoredHolds(way, text, s.extra, s.history);
    KeptIsRendered(way, text, s.extra);
    RecentIsDelivered(s.history + [KeptText(way, text, s.extra)], text);
  }

  lemma {:induction false} RecentIsDelivered(history: seq<string>, t: string)
    ensures t in Recent(history) ==> t in history
    ensures history != [] ==> Recent(history) != [] && Recent(history)[0] == history[|history| - 1]
    ensures history == [] ==> Recent(history) == []
  {
    ReverseMembers(history, t);
    if history != [] {
      var last := history[|history| - 1];
      DistinctCons(last, Reverse(history[..|history| - 1]));
    }
  }

  lemma {:induction false} ReverseMembers(texts: seq<string>, t: string)
    ensures t in Reverse(texts) <==> t in texts
  {
    if texts != [] {
      var front, last := texts[..|texts| - 1], texts[|texts| - 1];
      assert texts == front + [last];
      ReverseMembers(front, t);
    }
  }

  /** In such a state the extra reads back as the recent versions. */
  lemma {:induction false} ExtraReads(s: State)
    requires HoldsRecent(s)
    ensures s.extra.None? <==> s.history == []
    ensures s.extra.Some? ==> s.extra.value != "" && VersionsOf(s.extra.value) == Recent(s.history)
  {
    forall v | v in Recent(s.history)
      ensures Rendered(v)
    {
      RecentIsDelivered(s.history, v);
    }
    RecentIsDelivered(s.history, "");
    HeldReads(s.extra, Recent(s.history));
  }

  lemma {:induction false} ChosenBaseIsSafe(s: State, editor: nat, received: bool, revision: Revision)
    requires HoldsRecent(s) && editor in s.editors
    ensures match ChosenBase(s, editor, received, revision)
            case Found(base) => SafeWrite(Write(s.editors[editor], base, received, false, s.history), revision)
            case OutOfSync => !received && s.editors[editor].Some? && s.history != []
  {
    ExtraReads(s);
    if s.extra.Some? && s.editors[editor].Some? {
      FirstWithFinds(VersionsOf(s.extra.value), s.editors[editor].value, revision);
    }
  }

  lemma {:induction false} RunIsSafe(server: string, steps: seq<Step>, revision: Revision)
    requires Rendered(server) && Legal(server, steps, revision)
    ensures HoldsRecent(Run(server, steps, revision)) && SafeWrites(Run(server, steps, revision), revision)
    decreases |steps|
  {
    if steps != [] {
      var before := steps[..|steps| - 1];
      RunIsSafe(server, before, revision);
      StepIsSafe(Run(server, before, revision), steps[|steps| - 1], revision);
    } else {
      RecentIsDelivered([], "");
    }
  }

  lemma {:induction false} StepIsSafe(s: State, step: Step, revision: Revision)
    requires HoldsRecent(s) && SafeWrites(s, revision) && Enabled(s, step)
    ensures HoldsRecent(After(s, step, revision)) && SafeWrites(After(s, step, revision), revision)
  {
    match step {
      case Deliver(way) =>
        DeliveredHoldsRecent(s, way, s.server);
      case Drop =>
        RecentIsDelivered([], "");
      case Save(e, received, stored) =>
        ChosenBaseIsSafe(s, e, received, revision);
        if stored.Some? {
          DeliveredHoldsRecent(s, Loaded, stored.value);
        }
      case Create(stored) =>
        if stored.Some? {
          DeliveredHoldsRecent(s, Loaded, stored.value);
        }
      case _ =>
    }
  }

  /** In every run, a save of a stamped edit is refused exactly when none of the four most recent
      distinct kept versions has the revision of the stamp, and then nothing is sent. */
  lemma {:induction false} RefusedExactly(server: string, steps: seq<Step>, revision: Revision, editor: nat, stored: Option<string>)
    requires Rendered(server) && Legal(server, steps, revision)
    requires var s := Run(server, steps, revision);
             editor in s.editors && s.editors[editor].Some? && s.extra.Some? && Enabled(s, Save(editor, false, stored))
    ensures var s := Run(server, steps, revision);
            var refused := forall v :: v in Recent(s.history) ==> revision(v) != s.editors[editor].value;
            && (ChosenBase(s, editor, false, revision).OutOfSync? <==> refused)
            && (refused ==> After(s, Save(editor, false, stored), revision) == s)
  {
    RunIsSafe(server, steps, revision);
    var s := Run(server, steps, revision);
    ExtraReads(s);
    FirstWithFinds(VersionsOf(s.extra.value), s.editors[editor].value, revision);
  }

  /** The stamp of an open editor is the revision of the version that it opened. */
  lemma {:induction false} StampNamesOpened(server: string, steps: seq<Step>, revision: Revision, editor: nat)
    requires Legal(server, steps, revision)
    requires var s := Run(server, steps, revision); editor in s.editors && s.editors[editor].Some?
    ensures var s := Run(server, steps, revision);
            editor in s.origins && s.editors[editor].value == revision(s.origins[editor])
    decreases |steps|
  {
    var before := steps[..|steps| - 1];
    var s := Run(server, before, revision);
    if editor in s.editors && s.editors[editor].Some? {
      StampNamesOpened(server, before, revision, editor);
    }
  }

  /** No kept version but the one that the editor opened has its revision. */
  predicate NoCollision(s: State, text: string, revision: Revision) {
    forall v :: v in Recent(s.history) && revision(v) == revision(text) ==> v == text
  }

  lemma {:induction false} FoundAmong(versions: seq<string>, text: string, revision: Revision)
    requires forall v :: v in versions && revision(v) == revision(text) ==> v == text
    ensures FirstWith(versions, revision(text), revision) == if text in versions then Some(text) else None
  {
    FirstWithFinds(versions, revision(text), revision);
  }

  lemma {:induction false} OwnVersionIsFound(s: State, editor: nat, text: string, revision: Revision)
    requires HoldsRecent(s) && s.extra.Some? && editor in s.editors
    requires s.editors[editor] == Some(revision(text)) && NoCollision(s, text, revision)
    ensures ChosenBase(s, editor, false, revision) == if text in Recent(s.history) then Found(Some(text)) else OutOfSync
  {
    ExtraReads(s);
    FoundAmong(Recent(s.history), text, revision);
  }

  /** In every run, an editor saves against the version that it opened exactly if that text is among
      the four most recent distinct kept ones, and is refused if not, as long as no other of the four
      has its revision. */
  lemma {:induction false} OwnVersionIsTheBase(server: string, steps: seq<Step>, revision: Revision, editor: nat)
    requires Rendered(server) && Legal(server, steps, revision)
    requires var s := Run(server, steps, revision);
             editor in s.editors && s.editors[editor].Some? && s.extra.Some? &&
             (editor in s.origins ==> NoCollision(s, s.origins[editor], revision))
    ensures var s := Run(server, steps, revision);
            && editor in s.origins
            && ChosenBase(s, editor, false, revision) ==
               if s.origins[editor] in Recent(s.history) then Found(Some(s.origins[editor])) else OutOfSync
  {
    RunIsSafe(server, steps, revision);
    StampNamesOpened(server, steps, revision, editor);
    var s := Run(server, steps, revision);
    OwnVersionIsFound(s, editor, s.origins[editor], revision);
  }

  /** The object came in and an editor opened it. */
  function Editing(s: State, way: Way, editor: nat, revision: Revision): (r: State)
    requires editor !in s.editors
  {
    After(After(s, Deliver(way), revision), Open(editor), revision)
  }

  lemma {:induction false} FreshFinds(s: State, way: Way, editor: nat, revision: Revision)
    requires HoldsRecent(s) && editor !in s.editors && NoCollision(Delivered(s, way, s.server), s.server, revision)
    ensures var t := Editing(s, way, editor, revision);
            && Recent(t.history) != [] && Recent(t.history)[0] == KeptText(way, s.server, s.extra)
            && ChosenBase(t, editor, false, revision) ==
               if s.server in Recent(t.history) then Found(Some(s.server)) else OutOfSync
  {
    DeliveredHoldsRecent(s, way, s.server);
    var t := Editing(s, way, editor, revision);
    RecentIsDelivered(t.history, "");
    OwnVersionIsFound(t, editor, s.server, revision);
  }

  /** After every run, an editor that opens the object right after it came in finds its own version
      exactly if the version has no NUL, or it was loaded beside another version, or an older one of the
      kept versions is the same text. */
  lemma {:induction false} FreshEditorFindsItself(server: string, steps: seq<Step>, revision: Revision, way: Way, editor: nat)
    requires Rendered(server) && Legal(server, steps, revision)
    requires editor !in Run(server, steps, revision).editors
    requires var s := Run(server, steps, revision); NoCollision(Delivered(s, way, s.server), s.server, revision)
    ensures var s := Run(server, steps, revision);
            var t := Editing(s, way, editor, revision);
            && Recent(t.history) != []
            && ChosenBase(t, editor, false, revision) ==
               if '\0' !in s.server || (way.Loaded? && |Kept(s.server, s.extra)| > 1) || s.server in Recent(t.history)[1..]
               then Found(Some(s.server)) else OutOfSync
  {
    RunIsSafe(server, steps, revision);
    var s := Run(server, steps, revision);
    FreshFinds(s, way, editor, revision);
    KeptAsItCame(way, s.server, s.extra);
    var recent := Recent(Editing(s, way, editor, revision).history);
    assert recent == [recent[0]] + recent[1..];
  }

  /** A version that does not find itself: the first listing of any object with a NUL, for every
      revision that tells the object from its kept text. */
  lemma {:induction false} FirstListingIsRefused(text: string, revision: Revision, editor: nat)
    requires Rendered(text) && '\0' in text && revision(CString(text)) != revision(text)
    ensures Legal(text, [], revision)
    ensures ChosenBase(Editing(Run(text, [], revision), Listed, editor, revision), editor, false, revision) == OutOfSync
  {
    RecentOfOne(CString(text));
    assert [] + [CString(text)] == [CString(text)];
    RecentIsDelivered([], "");
    FreshFinds(Run(text, [], revision), Listed, editor, revision);
  }

  const NUL_CARD := "BEGIN:VCARD\0"

  /** Such a text. */
  lemma {:induction false} NulIsRefused(revision: Revision, editor: nat)
    requires revision(CString(NUL_CARD)) != revision(NUL_CARD)
    ensures Legal(NUL_CARD, [], revision)
    ensures ChosenBase(Editing(Run(NUL_CARD, [], revision), Listed, editor, revision), editor, false, revision) == OutOfSync
  {
    var text := NUL_CARD;
    assert text[11] == '\0' && Rendered(text);
    FirstListingIsRefused(text, revision, editor);
  }
}
