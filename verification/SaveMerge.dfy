/**
 The save of an edited object: a three-way merge at the granularity of properties, sent as a
 patch that is guarded by the state it was computed from.

 `base` is the version that the user started from, `current` what the server holds now, and
 `edited` what the user saves. `patch_since` limits the difference from `current` to `edited` to
 the properties that the user changed since `base`, and resolves the properties that both sides
 changed. `write_update` reads, computes, writes with `ifInState`, and on a mismatch does that
 once more.

 How the values of one property are compared is known only by a law: the comparison finds a property
 exactly if the two values show different things, and its patch makes the value on the server the
 saved one. A mapping may hide parts of a value, so neither means equality.
 */
module SaveMerge {
  import EntryPatch
  import JsonPointer
  import opened Options

  type Value = JsonPointer.Json

  /** An object: the value of each property that it has. */
  type Object = map<string, Value>

  /** The changes of one property, by the paths inside it. */
  type Changes = EntryPatch.Patch

  /** A patch: the changes of each property that it names. */
  type Patch = map<string, Changes>

  /** How two objects are compared, and what the server makes of a patch, if it takes it. */
  datatype Mapping = Mapping(diff: (Object, Object) -> Patch, apply: (Object, Patch) -> Option<Object>)

  // ---------------------------------------------------------------------------
  // The patch of an edit

  function Only(patch: Patch, names: set<string>): (r: Patch) {
    map property | property in patch && property in names :: patch[property]
  }

  /** The difference to `edited`, limited to what the user changed since `base`, without `kept`. */
  function DiffSinceExcept(m: Mapping, base: Object, current: Object, edited: Object, kept: set<string>): (patch: Patch) {
    Only(m.diff(current, edited), m.diff(base, edited).Keys - kept)
  }

  /** The properties that the user and someone else both changed, to different values. */
  function Conflicts(m: Mapping, base: Object, current: Object, edited: Object): (names: set<string>) {
    DiffSinceExcept(m, base, current, edited, {}).Keys * m.diff(current, base).Keys
  }

  datatype OnConflict = KeepLocal | KeepServer | Fail

  /** What a save sends. None means that the save is refused; without a base there is nothing to
      merge with and the edited object is sent whole. */
  function PatchSince(m: Mapping, base: Option<Object>, onConflict: OnConflict, current: Object, edited: Object): (r: Option<Patch>) {
    match base
    case None => Some(m.diff(current, edited))
    case Some(base) =>
      var conflicts := Conflicts(m, base, current, edited);
      if conflicts == {} then Some(DiffSinceExcept(m, base, current, edited, {}))
      else match onConflict
        case KeepLocal => Some(DiffSinceExcept(m, base, current, edited, {}))
        case KeepServer => Some(DiffSinceExcept(m, base, current, edited, conflicts))
        case Fail => None
  }

  // ---------------------------------------------------------------------------
  // The law of a mapping

  /** Which objects there are and which can be saved, when two values of a property show the same, and
      which value a save may leave, given the value before and the saved one. */
  datatype Law = Law(valid: Object -> bool, savable: Object -> bool,
                         same: (string, Option<Value>, Option<Value>) -> bool,
                         saved: (string, Option<Value>, Option<Value>, Option<Value>) -> bool)

  /** The comparison names exactly the properties that do not show the same. */
  ghost predicate NamesDifferences(m: Mapping, law: Law, a: Object, b: Object) {
    forall property :: property in m.diff(a, b) <==> !law.same(property, Lookup(a, property), Lookup(b, property))
  }

  /** Any part of the comparison saves the properties that it names and no other. */
  ghost predicate SavesNamed(m: Mapping, law: Law, a: Object, b: Object, names: set<string>) {
    var r := m.apply(a, Only(m.diff(a, b), names));
    && r.Some? && law.valid(r.value)
    && forall property ::
         if property in names && property in m.diff(a, b)
         then law.saved(property, Lookup(a, property), Lookup(b, property), Lookup(r.value, property))
         else Lookup(r.value, property) == Lookup(a, property)
  }

  ghost predicate Lawful(m: Mapping, law: Law) {
    && (forall a, b :: law.valid(a) && law.valid(b) ==> NamesDifferences(m, law, a, b))
    && (forall a, b, names :: law.valid(a) && law.valid(b) && law.savable(b) ==> SavesNamed(m, law, a, b, names))
  }

  // ---------------------------------------------------------------------------
  // What the patch does

  /** Both sides changed `property`, and not in the same way. */
  predicate Contested(law: Law, base: Object, current: Object, edited: Object, property: string) {
    && !law.same(property, Lookup(base, property), Lookup(edited, property))
    && !law.same(property, Lookup(current, property), Lookup(base, property))
    && !law.same(property, Lookup(current, property), Lookup(edited, property))
  }

  /** The server's value of `property` stands: the user did not change it, it is what the user saved,
      or the policy prefers it. */
  predicate ServerStands(law: Law, base: Object, onConflict: OnConflict, current: Object, edited: Object, property: string) {
    || law.same(property, Lookup(base, property), Lookup(edited, property))
    || law.same(property, Lookup(current, property), Lookup(edited, property))
    || (onConflict.KeepServer? && Contested(law, base, current, edited, property))
  }

  /** The value of each property after a three-way merge. */
  ghost predicate Merged(law: Law, base: Object, onConflict: OnConflict, current: Object, edited: Object, result: Object) {
    forall property ::
      if ServerStands(law, base, onConflict, current, edited, property)
      then Lookup(result, property) == Lookup(current, property)
      else law.saved(property, Lookup(current, property), Lookup(edited, property), Lookup(result, property))
  }

  /** The value of each property after a save without a base. */
  ghost predicate Replaced(law: Law, current: Object, edited: Object, result: Object) {
    forall property ::
      if law.same(property, Lookup(current, property), Lookup(edited, property))
      then Lookup(result, property) == Lookup(current, property)
      else law.saved(property, Lookup(current, property), Lookup(edited, property), Lookup(result, property))
  }

  lemma {:induction false} ConflictsAreContested(m: Mapping, law: Law, base: Object, current: Object, edited: Object,
                                                 property: string)
    requires Lawful(m, law) && law.valid(base) && law.valid(current) && law.valid(edited)
    ensures property in Conflicts(m, base, current, edited) <==> Contested(law, base, current, edited, property)
  {
    assert NamesDifferences(m, law, base, edited);
    assert NamesDifferences(m, law, current, base);
    assert NamesDifferences(m, law, current, edited);
  }

  lemma {:induction false} SomeConflict(m: Mapping, law: Law, base: Object, current: Object, edited: Object)
    requires Lawful(m, law) && law.valid(base) && law.valid(current) && law.valid(edited)
    ensures Conflicts(m, base, current, edited) != {} <==> exists property :: Contested(law, base, current, edited, property)
  {
    var conflicts := Conflicts(m, base, current, edited);
    if conflicts != {} {
      var property :| property in conflicts;
      ConflictsAreContested(m, law, base, current, edited, property);
    } else {
      forall property
        ensures !Contested(law, base, current, edited, property)
      {
        ConflictsAreContested(m, law, base, current, edited, property);
      }
    }
  }

  function Kept(m: Mapping, base: Object, onConflict: OnConflict, current: Object, edited: Object): (kept: set<string>) {
    if onConflict.KeepServer? then Conflicts(m, base, current, edited) else {}
  }

  lemma {:induction false} PatchSinceIs(m: Mapping, base: Object, onConflict: OnConflict, current: Object, edited: Object)
    ensures PatchSince(m, Some(base), onConflict, current, edited) ==
            if onConflict.Fail? && Conflicts(m, base, current, edited) != {} then None
            else Some(DiffSinceExcept(m, base, current, edited, Kept(m, base, onConflict, current, edited)))
  {
  }

  lemma {:induction false} DiffSinceMerges(m: Mapping, law: Law, base: Object, onConflict: OnConflict, current: Object,
                                           edited: Object)
    requires Lawful(m, law) && law.valid(base) && law.valid(current) && law.valid(edited) && law.savable(edited)
    ensures var r := m.apply(current, DiffSinceExcept(m, base, current, edited, Kept(m, base, onConflict, current, edited)));
            r.Some? && law.valid(r.value) && Merged(law, base, onConflict, current, edited, r.value)
  {
    var names := m.diff(base, edited).Keys - Kept(m, base, onConflict, current, edited);
    assert SavesNamed(m, law, current, edited, names);
    assert NamesDifferences(m, law, base, edited);
    assert NamesDifferences(m, law, current, edited);
    forall property
      ensures property in names && property in m.diff(current, edited) <==>
              !ServerStands(law, base, onConflict, current, edited, property)
    {
      ConflictsAreContested(m, law, base, current, edited, property);
    }
  }

  /** The patch of an edit is the three-way merge. It fails exactly when the policy is to fail and
      some property is contested. A property that the user did not change keeps the value of the
      server, also where another client changed it. */
  lemma {:induction false} PatchMerges(m: Mapping, law: Law, base: Object, onConflict: OnConflict, current: Object,
                                       edited: Object)
    requires Lawful(m, law) && law.valid(base) && law.valid(current) && law.valid(edited) && law.savable(edited)
    ensures var patch := PatchSince(m, Some(base), onConflict, current, edited);
            && (patch.None? <==> onConflict.Fail? && exists property :: Contested(law, base, current, edited, property))
            && (patch.Some? ==>
                  var r := m.apply(current, patch.value);
                  r.Some? && law.valid(r.value) && Merged(law, base, onConflict, current, edited, r.value))
  {
    SomeConflict(m, law, base, current, edited);
    PatchSinceIs(m, base, onConflict, current, edited);
    DiffSinceMerges(m, law, base, onConflict, current, edited);
  }

  /** Without a base every property that does not show what was saved gets it. */
  lemma {:induction false} PlainDiffReplaces(m: Mapping, law: Law, onConflict: OnConflict, current: Object, edited: Object)
    requires Lawful(m, law) && law.valid(current) && law.valid(edited) && law.savable(edited)
    ensures var patch := PatchSince(m, None, onConflict, current, edited);
            && patch.Some?
            && var r := m.apply(current, patch.value);
               r.Some? && law.valid(r.value) && Replaced(law, current, edited, r.value)
  {
    var patch := m.diff(current, edited);
    assert Only(patch, patch.Keys) == patch;
    assert SavesNamed(m, law, current, edited, patch.Keys);
    assert NamesDifferences(m, law, current, edited);
  }

  /** An edit of nothing writes nothing, whatever happened on the server. */
  lemma {:induction false} NothingWritesNothing(m: Mapping, law: Law, onConflict: OnConflict, current: Object, edited: Object)
    requires Lawful(m, law) && law.valid(edited)
    requires forall property :: law.same(property, Lookup(edited, property), Lookup(edited, property))
    ensures PatchSince(m, Some(edited), onConflict, current, edited) == Some(map[])
  {
    assert NamesDifferences(m, law, edited, edited);
    assert m.diff(edited, edited).Keys == {};
  }

  // ---------------------------------------------------------------------------
  // Properties that are compared and sent as a whole

  /** Writes the whole property, or removes it. */
  function Sent(value: Option<Value>): (changes: Changes) {
    map[EntryPatch.Whole := if value.None? then JsonPointer.Null else value.value]
  }

  function Received(changes: Changes): (value: Option<Value>) {
    if EntryPatch.Whole in changes then JsonPointer.Written(changes[EntryPatch.Whole]) else None
  }

  /** Every property is shown in full and sent in full. */
  function PlainDiff(a: Object, b: Object): (patch: Patch) {
    map property | property in a.Keys + b.Keys && Lookup(a, property) != Lookup(b, property) :: Sent(Lookup(b, property))
  }

  function PlainApply(o: Object, patch: Patch): (r: Object)
    ensures forall property :: Lookup(r, property) == if property in patch then Received(patch[property]) else Lookup(o, property)
  {
    map property | property in o.Keys + patch.Keys && (property in patch ==> Received(patch[property]).Some?) ::
      if property in patch then Received(patch[property]).value else o[property]
  }

  function PlainMapping(): (m: Mapping) {
    Mapping((a, b) => PlainDiff(a, b), (o, patch) => Some(PlainApply(o, patch)))
  }

  predicate HasNoNull(o: Object) {
    forall property :: property in o ==> o[property] != JsonPointer.Null
  }

  function PlainLaw(): (law: Law) {
    Law(_ => true, o => HasNoNull(o), (_, a, b) => a == b, (_, _, wanted, now) => now == wanted)
  }

  /** For such properties the law holds with equality for both of its relations. */
  lemma {:induction false} PlainIsLawful()
    ensures Lawful(PlainMapping(), PlainLaw())
  {
    var m, law := PlainMapping(), PlainLaw();
    forall a: Object, b: Object
      ensures NamesDifferences(m, law, a, b)
    {
      assert m.diff(a, b) == PlainDiff(a, b);
    }
    forall a: Object, b: Object, names: set<string> | HasNoNull(b)
      ensures SavesNamed(m, law, a, b, names)
    {
      assert m.diff(a, b) == PlainDiff(a, b);
      forall property
        ensures Received(Sent(Lookup(b, property))) == Lookup(b, property)
      {
      }
    }
  }

  // ---------------------------------------------------------------------------
  // Concurrent saves

  /** What one save is: its base, its policy and the edited object. */
  datatype Edit = Edit(base: Option<Object>, onConflict: OnConflict, edited: Object)

  datatype Progress =
    | Ready(retry: bool)                                      // about to read the server
    | Computed(retry: bool, patch: Patch, state: nat)      // has a patch for the state it read
    | Saved
    | OutOfSync
    | Refused

  datatype Saver = Saver(edit: Edit, progress: Progress, sent: nat)

  datatype Server = Server(item: Object, state: nat)

  datatype World = World(server: Server, savers: map<nat, Saver>)

  datatype Step =
    | OtherWrite(item: Object)     // another client, or a change of another object of the account
    | Begin(id: nat, edit: Edit)
    | Read(id: nat)
    | Send(id: nat)

  predicate ValidEdit(law: Law, edit: Edit) {
    (edit.base.Some? ==> law.valid(edit.base.value)) && law.valid(edit.edited) && law.savable(edit.edited)
  }

  predicate Enabled(law: Law, w: World, step: Step) {
    match step
    case OtherWrite(item) => law.valid(item)
    case Begin(id, edit) => id !in w.savers && ValidEdit(law, edit)
    case Read(id) => id in w.savers && w.savers[id].progress.Ready?
    case Send(id) => id in w.savers && w.savers[id].progress.Computed?
  }

  function PatchFor(m: Mapping, edit: Edit, current: Object): (r: Option<Patch>) {
    PatchSince(m, edit.base, edit.onConflict, current, edit.edited)
  }

  function AfterRead(m: Mapping, server: Server, saver: Saver): (r: Saver)
    requires saver.progress.Ready?
  {
    match PatchFor(m, saver.edit, server.item)
    case None => saver.(progress := OutOfSync)
    case Some(patch) =>
      if patch.Keys == {} then saver.(progress := Saved)
      else saver.(progress := Computed(saver.progress.retry, patch, server.state))
  }

  /** The patch comes in the state that it was computed from. */
  predicate InTime(w: World, id: nat)
    requires id in w.savers && w.savers[id].progress.Computed?
  {
    w.server.state == w.savers[id].progress.state
  }

  function After(m: Mapping, law: Law, w: World, step: Step): (r: World)
    requires Enabled(law, w, step)
  {
    match step
    case OtherWrite(item) => w.(server := Server(item, w.server.state + 1))
    case Begin(id, edit) => w.(savers := w.savers[id := Saver(edit, Ready(true), 0)])
    case Read(id) => w.(savers := w.savers[id := AfterRead(m, w.server, w.savers[id])])
    case Send(id) =>
      var saver := w.savers[id].(sent := w.savers[id].sent + 1);
      if !InTime(w, id) then
        var next := if saver.progress.retry then Ready(false) else Refused;
        w.(savers := w.savers[id := saver.(progress := next)])
      else match m.apply(w.server.item, saver.progress.patch)
        case None => w.(savers := w.savers[id := saver.(progress := Refused)])
        case Some(item) =>
          World(Server(item, w.server.state + 1), w.savers[id := saver.(progress := Saved)])
  }

  predicate Legal(m: Mapping, law: Law, item: Object, steps: seq<Step>)
    decreases |steps|, 0
  {
    steps == [] ||
    (&& Legal(m, law, item, steps[..|steps| - 1])
     && Enabled(law, Run(m, law, item, steps[..|steps| - 1]), steps[|steps| - 1]))
  }

  function Run(m: Mapping, law: Law, item: Object, steps: seq<Step>): (w: World)
    requires Legal(m, law, item, steps)
    decreases |steps|, 1
  {
    if steps == [] then World(Server(item, 0), map[])
    else After(m, law, Run(m, law, item, steps[..|steps| - 1]), steps[|steps| - 1])
  }

  /** A patch whose state is still current was computed from the object that the server holds now. */
  ghost predicate FreshPatch(m: Mapping, server: Server, saver: Saver) {
    saver.progress.Computed? ==>
      && saver.progress.state <= server.state
      && (saver.progress.state == server.state ==> PatchFor(m, saver.edit, server.item) == Some(saver.progress.patch))
  }

  predicate FewSends(saver: Saver) {
    match saver.progress
    case Ready(retry) => saver.sent == (if retry then 0 else 1)
    case Computed(retry, _, _) => saver.sent == (if retry then 0 else 1)
    case _ => saver.sent <= 2
  }

  ghost predicate InvSaver(m: Mapping, law: Law, server: Server, saver: Saver) {
    FreshPatch(m, server, saver) && FewSends(saver) && ValidEdit(law, saver.edit)
  }

  ghost predicate Inv(m: Mapping, law: Law, w: World) {
    && law.valid(w.server.item)
    && forall id :: id in w.savers ==> InvSaver(m, law, w.server, w.savers[id])
  }

  /** The patch of a saver that comes in time is taken, and merges. */
  lemma {:induction false} InTimeIsTaken(m: Mapping, law: Law, w: World, id: nat)
    requires Lawful(m, law) && Inv(m, law, w) && Enabled(law, w, Send(id)) && InTime(w, id)
    ensures var edit := w.savers[id].edit;
            var r := m.apply(w.server.item, w.savers[id].progress.patch);
            && r.Some? && law.valid(r.value)
            && (edit.base.None? ==> Replaced(law, w.server.item, edit.edited, r.value))
            && (edit.base.Some? ==> Merged(law, edit.base.value, edit.onConflict, w.server.item, edit.edited, r.value))
            && (edit.base.Some? && edit.onConflict.Fail? ==>
                  forall property :: !Contested(law, edit.base.value, w.server.item, edit.edited, property))
  {
    assert InvSaver(m, law, w.server, w.savers[id]);
    var edit := w.savers[id].edit;
    match edit.base {
      case None => PlainDiffReplaces(m, law, edit.onConflict, w.server.item, edit.edited);
      case Some(base) => PatchMerges(m, law, base, edit.onConflict, w.server.item, edit.edited);
    }
  }

  lemma {:induction false} InvStep(m: Mapping, law: Law, w: World, step: Step)
    requires Lawful(m, law) && Inv(m, law, w) && Enabled(law, w, step)
    ensures Inv(m, law, After(m, law, w, step))
  {
    if step.Send? && InTime(w, step.id) {
      InTimeIsTaken(m, law, w, step.id);
    }
    var after := After(m, law, w, step);
    forall id | id in after.savers
      ensures InvSaver(m, law, after.server, after.savers[id])
    {
      assert id in w.savers ==> InvSaver(m, law, w.server, w.savers[id]);
    }
  }

  lemma {:induction false} InvRun(m: Mapping, law: Law, item: Object, steps: seq<Step>)
    requires Lawful(m, law) && law.valid(item) && Legal(m, law, item, steps)
    ensures Inv(m, law, Run(m, law, item, steps))
    decreases |steps|
  {
    if steps != [] {
      InvRun(m, law, item, steps[..|steps| - 1]);
      InvStep(m, law, Run(m, law, item, steps[..|steps| - 1]), steps[|steps| - 1]);
    }
  }

  /** No update is lost: in every interleaving of saves and other writers, a write that comes in time
      is taken and makes the object the three-way merge with what the server held at that moment, so
      nothing that another client wrote before it disappears from a property that this user did
      not change. With the policy to fail, no contested property is ever written. A save sends at
      most two writes. */
  lemma {:induction false} WritesMergeWithTheCurrentObject(m: Mapping, law: Law, item: Object, steps: seq<Step>, id: nat)
    requires Lawful(m, law) && law.valid(item) && Legal(m, law, item, steps)
    requires Enabled(law, Run(m, law, item, steps), Send(id)) && InTime(Run(m, law, item, steps), id)
    ensures var w := Run(m, law, item, steps);
            var edit := w.savers[id].edit;
            var result := After(m, law, w, Send(id)).server.item;
            && (edit.base.None? ==> Replaced(law, w.server.item, edit.edited, result))
            && (edit.base.Some? ==> Merged(law, edit.base.value, edit.onConflict, w.server.item, edit.edited, result))
            && (edit.base.Some? && edit.onConflict.Fail? ==>
                  forall property :: !Contested(law, edit.base.value, w.server.item, edit.edited, property))
            && After(m, law, w, Send(id)).savers[id].progress.Saved?
            && After(m, law, w, Send(id)).savers[id].sent <= 2
  {
    var w := Run(m, law, item, steps);
    InvRun(m, law, item, steps);
    InTimeIsTaken(m, law, w, id);
    assert InvSaver(m, law, w.server, w.savers[id]);
  }
}
