/**
 The menus of the example module, in its C and its Rust version.

 Each extension belongs to one shell view and merges the menus of that view into a UI manager that
 all views of a window share. On every toggle it removes its merge, and merges again if the view is
 active. The C version remembers definitions in a hash table keyed by the identifier of the view's
 UI manager. The Rust version remembers one definition and whether it registered its actions.
 */
module ShellView {
  import opened Options

  datatype Definition = MailMenus | CalendarMenus

  /** The kind of a view. Other views have no menus of this module. */
  datatype Kind = Mail | Calendar | Other(id: string)

  const MAIL_ID := "org.gnome.evolution.mail"
  const CALENDAR_ID := "org.gnome.evolution.calendars"

  predicate Proper(kind: Kind) {
    kind.Other? ==> kind.id != MAIL_ID && kind.id != CALENDAR_ID
  }

  function UiManagerId(kind: Kind): (id: string) {
    match kind
    case Mail => MAIL_ID
    case Calendar => CALENDAR_ID
    case Other(id) => id
  }

  /** What the Rust version finds by the type of the view. */
  function ByType(kind: Kind): (definition: Option<Definition>) {
    if kind.Mail? then Some(MailMenus) else if kind.Calendar? then Some(CalendarMenus) else None
  }

  /** What the C version finds by the identifier. */
  function ById(id: string): (definition: Option<Definition>) {
    if id == MAIL_ID then Some(MailMenus) else if id == CALENDAR_ID then Some(CalendarMenus) else None
  }

  // ---------------------------------------------------------------------------
  // The UI manager

  /** The merges by their identifier, the last identifier given out, and whether a change waits for
      an update. */
  datatype Manager = Manager(merges: map<nat, Definition>, last: nat, pending: bool)

  function Removed(m: Manager, id: nat): (r: Manager) {
    m.(merges := m.merges - {id}, pending := true)
  }

  /** A merge gets a new identifier. A definition that the manager cannot parse leaves no merge. */
  function Added(m: Manager, definition: Definition, parses: bool): (r: (Manager, nat)) {
    if parses then (Manager(m.merges[m.last + 1 := definition], m.last + 1, true), m.last + 1)
    else (m.(last := m.last + 1, pending := true), 0)
  }

  function Updated(m: Manager): (r: Manager) {
    m.(pending := false)
  }

  // ---------------------------------------------------------------------------
  // One toggle

  datatype RustView = RustView(ui: nat, initialized: bool, definition: Option<Definition>, registrations: nat)

  datatype CView = CView(ui: nat, definitions: map<string, Option<Definition>>, registrations: nat)

  function RustToggled(m: Manager, v: RustView, kind: Kind, active: bool, parses: bool): (r: (Manager, RustView)) {
    var cleared := if v.ui != 0 then Removed(m, v.ui) else m;
    if !active then
      (if v.ui != 0 then Updated(cleared) else cleared, v.(ui := 0))
    else
      var found := if v.initialized then v.definition else ByType(kind);
      var registered := v.registrations + (if !v.initialized && found.Some? then 1 else 0);
      var (merged, ui) := if found.Some? then Added(cleared, found.value, parses) else (cleared, 0);
      (Updated(merged), RustView(ui, true, found, registered))
  }

  function CToggled(m: Manager, v: CView, kind: Kind, active: bool, parses: bool): (r: (Manager, CView)) {
    var id := UiManagerId(kind);
    var cleared := if v.ui != 0 then Removed(m, v.ui) else m;
    if !active then
      (if v.ui != 0 then Updated(cleared) else cleared, v.(ui := 0))
    else
      var known := id in v.definitions;
      var table := if known then v.definitions else v.definitions[id := ById(id)];
      var registered := v.registrations + (if !known && ById(id).Some? then 1 else 0);
      var (merged, ui) := if table[id].Some? then Added(cleared, table[id].value, parses) else (cleared, 0);
      var needUpdate := v.ui != 0 || table[id].Some?;
      (if needUpdate then Updated(merged) else merged, CView(ui, table, registered))
  }

  class UiManager {
    var now: Manager

    constructor ()
      ensures now == Manager(map[], 0, false)
    {
      now := Manager(map[], 0, false);
    }

    method RemoveUi(id: nat)
      modifies this
      ensures now == Removed(old(now), id)
    {
      now := now.(merges := now.merges - {id}, pending := true);
    }

    method AddUi(definition: Definition, parses: bool) returns (id: nat)
      modifies this
      ensures (now, id) == Added(old(now), definition, parses)
    {
      now := now.(last := now.last + 1, pending := true);
      if parses {
        now := now.(merges := now.merges[now.last := definition]);
        return now.last;
      }
      return 0;
    }

    method EnsureUpdate()
      modifies this
      ensures now == Updated(old(now))
    {
      now := now.(pending := false);
    }
  }

  /** The Rust extension of one view. */
  class RustExtension {
    const kind: Kind
    var currentUiId: nat
    var actionsInitialized: bool
    var viewUiDef: Option<Definition>
    var registrations: nat

    constructor (kind: Kind)
      ensures this.kind == kind && Now() == RustView(0, false, None, 0)
    {
      this.kind := kind;
      currentUiId, actionsInitialized, viewUiDef, registrations := 0, false, None, 0;
    }

    function Now(): (v: RustView)
      reads this
    {
      RustView(currentUiId, actionsInitialized, viewUiDef, registrations)
    }

    method Toggled(manager: UiManager, active: bool, parses: bool)
      modifies this, manager
      ensures (manager.now, Now()) == RustToggled(old(manager.now), old(Now()), kind, active, parses)
    {
      var needUpdate := currentUiId != 0;
      if currentUiId != 0 {
        manager.RemoveUi(currentUiId);
        currentUiId := 0;
      }
      if !active {
        if needUpdate {
          manager.EnsureUpdate();
        }
        return;
      }
      if !actionsInitialized {
        viewUiDef := ByType(kind);
        if viewUiDef.Some? {
          registrations := registrations + 1;
        }
        actionsInitialized := true;
      }
      if viewUiDef.Some? {
        currentUiId := manager.AddUi(viewUiDef.value, parses);
      }
      manager.EnsureUpdate();
    }
  }

  /** The C extension of one view. */
  class CExtension {
    const kind: Kind
    var currentUiId: nat
    var uiDefinitions: map<string, Option<Definition>>
    var registrations: nat

    constructor (kind: Kind)
      ensures this.kind == kind && Now() == CView(0, map[], 0)
    {
      this.kind := kind;
      currentUiId, uiDefinitions, registrations := 0, map[], 0;
    }

    function Now(): (v: CView)
      reads this
    {
      CView(currentUiId, uiDefinitions, registrations)
    }

    method Toggled(manager: UiManager, active: bool, parses: bool)
      modifies this, manager
      ensures (manager.now, Now()) == CToggled(old(manager.now), old(Now()), kind, active, parses)
    {
      var needUpdate := currentUiId != 0;
      if currentUiId != 0 {
        manager.RemoveUi(currentUiId);
        currentUiId := 0;
      }
      if !active {
        if needUpdate {
          manager.EnsureUpdate();
        }
        return;
      }
      var id := UiManagerId(kind);
      if id !in uiDefinitions {
        var definition := ById(id);
        if definition.Some? {
          registrations := registrations + 1;
        }
        uiDefinitions := uiDefinitions[id := definition];
      }
      if uiDefinitions[id].Some? {
        currentUiId := manager.AddUi(uiDefinitions[id].value, parses);
        needUpdate := true;
      }
      if needUpdate {
        manager.EnsureUpdate();
      }
    }
  }

  // ---------------------------------------------------------------------------
  // Runs over the views of a window

  datatype Toggle = Toggle(view: nat, active: bool, parses: bool)

  datatype RustWindow = RustWindow(manager: Manager, views: seq<RustView>)

  datatype CWindow = CWindow(manager: Manager, views: seq<CView>)

  predicate InRange(toggles: seq<Toggle>, n: nat) {
    forall i :: 0 <= i < |toggles| ==> toggles[i].view < n
  }

  predicate AllProper(kinds: seq<Kind>) {
    forall v :: 0 <= v < |kinds| ==> Proper(kinds[v])
  }

  function RustStep(w: RustWindow, kinds: seq<Kind>, t: Toggle): (r: RustWindow)
    requires |w.views| == |kinds| && t.view < |kinds|
    ensures |r.views| == |kinds|
  {
    var (m, v) := RustToggled(w.manager, w.views[t.view], kinds[t.view], t.active, t.parses);
    RustWindow(m, w.views[t.view := v])
  }

  function RustRun(kinds: seq<Kind>, toggles: seq<Toggle>): (w: RustWindow)
    requires InRange(toggles, |kinds|)
    ensures |w.views| == |kinds|
  {
    if toggles == [] then RustWindow(Manager(map[], 0, false), seq(|kinds|, _ => RustView(0, false, None, 0)))
    else RustStep(RustRun(kinds, toggles[..|toggles| - 1]), kinds, toggles[|toggles| - 1])
  }

  function CStep(w: CWindow, kinds: seq<Kind>, t: Toggle): (r: CWindow)
    requires |w.views| == |kinds| && t.view < |kinds|
    ensures |r.views| == |kinds|
  {
    var (m, v) := CToggled(w.manager, w.views[t.view], kinds[t.view], t.active, t.parses);
    CWindow(m, w.views[t.view := v])
  }

  function CRun(kinds: seq<Kind>, toggles: seq<Toggle>): (w: CWindow)
    requires InRange(toggles, |kinds|)
    ensures |w.views| == |kinds|
  {
    if toggles == [] then CWindow(Manager(map[], 0, false), seq(|kinds|, _ => CView(0, map[], 0)))
    else CStep(CRun(kinds, toggles[..|toggles| - 1]), kinds, toggles[|toggles| - 1])
  }

  // ---------------------------------------------------------------------------
  // What a run keeps

  /** The Rust and the C view remember the same. */
  predicate SameView(kind: Kind, r: RustView, c: CView) {
    && r.ui == c.ui && r.registrations == c.registrations
    && (r.initialized <==> UiManagerId(kind) in c.definitions)
    && (r.initialized ==> r.definition == c.definitions[UiManagerId(kind)] == ByType(kind))
  }

  /** The two versions step alike: same merges, same memory, and a settled manager stays settled. */
  lemma {:induction false} ToggleSimulates(m: Manager, r: RustView, c: CView, kind: Kind, active: bool, parses: bool)
    requires Proper(kind) && SameView(kind, r, c) && !m.pending
    ensures var (rm, rv) := RustToggled(m, r, kind, active, parses);
            var (cm, cv) := CToggled(m, c, kind, active, parses);
            rm == cm && SameView(kind, rv, cv) && !rm.pending
  {
  }

  predicate SameWindow(kinds: seq<Kind>, r: RustWindow, c: CWindow) {
    && |r.views| == |c.views| == |kinds|
    && r.manager == c.manager && !r.manager.pending
    && forall v :: 0 <= v < |kinds| ==> SameView(kinds[v], r.views[v], c.views[v])
  }

  /** Over every run of toggles the C and the Rust version have the same menus merged, and no change
      is left without an update. */
  lemma {:induction false} VersionsAgree(kinds: seq<Kind>, toggles: seq<Toggle>)
    requires AllProper(kinds) && InRange(toggles, |kinds|)
    ensures SameWindow(kinds, RustRun(kinds, toggles), CRun(kinds, toggles))
  {
    if toggles != [] {
      var before, t := toggles[..|toggles| - 1], toggles[|toggles| - 1];
      VersionsAgree(kinds, before);
      var r, c := RustRun(kinds, before), CRun(kinds, before);
      ToggleSimulates(r.manager, r.views[t.view], c.views[t.view], kinds[t.view], t.active, t.parses);
    }
  }

  predicate HeldBySome(views: seq<RustView>, id: nat) {
    exists v :: 0 <= v < |views| && views[v].ui == id
  }

  /** The live merges are exactly the identifiers that the views hold, each by one view. */
  ghost predicate Owned(w: RustWindow, kinds: seq<Kind>) {
    && |w.views| == |kinds|
    && (forall id :: id in w.manager.merges ==> id != 0 && id <= w.manager.last)
    && (forall id :: id in w.manager.merges ==> HeldBySome(w.views, id))
    && (forall v :: 0 <= v < |kinds| && w.views[v].ui != 0 ==>
          w.views[v].ui in w.manager.merges && Some(w.manager.merges[w.views[v].ui]) == ByType(kinds[v]))
    && (forall u, v :: 0 <= u < v < |kinds| && w.views[u].ui != 0 ==> w.views[u].ui != w.views[v].ui)
  }

  predicate Remembers(v: RustView, kind: Kind) {
    && (v.initialized ==> v.definition == ByType(kind))
    && v.registrations == (if v.initialized && ByType(kind).Some? then 1 else 0)
  }

  predicate AllRemember(w: RustWindow, kinds: seq<Kind>) {
    |w.views| == |kinds| && forall v :: 0 <= v < |kinds| ==> Remembers(w.views[v], kinds[v])
  }

  /** A toggle removes the view's merge, and adds at most one, under a new identifier. */
  lemma {:induction false} ToggleMerges(m: Manager, v: RustView, kind: Kind, active: bool, parses: bool)
    requires Remembers(v, kind) && 0 !in m.merges
    ensures var (next, u) := RustToggled(m, v, kind, active, parses);
            && next.last >= m.last && (u.ui != 0 ==> u.ui == next.last == m.last + 1)
            && (forall id :: id in next.merges <==> (id in m.merges && id != v.ui) || (u.ui != 0 && id == u.ui))
            && (forall id :: id in next.merges && id != u.ui ==> next.merges[id] == m.merges[id])
            && (u.ui != 0 ==> Some(next.merges[u.ui]) == ByType(kind))
  {
  }

  /** After its merge is removed, no live merge belongs to the view. */
  lemma {:induction false} OwnedStep(w: RustWindow, kinds: seq<Kind>, t: Toggle)
    requires Owned(w, kinds) && AllRemember(w, kinds) && t.view < |kinds|
    ensures Owned(RustStep(w, kinds, t), kinds)
  {
    var (manager, view) := RustToggled(w.manager, w.views[t.view], kinds[t.view], t.active, t.parses);
    assert Remembers(w.views[t.view], kinds[t.view]);
    ToggleMerges(w.manager, w.views[t.view], kinds[t.view], t.active, t.parses);
    OwnedAfter(w, kinds, t.view, manager, view);
  }

  lemma {:induction false} OwnedAfter(w: RustWindow, kinds: seq<Kind>, toggled: nat, next: Manager, u: RustView)
    requires Owned(w, kinds) && toggled < |kinds|
    requires next.last >= w.manager.last && (u.ui != 0 ==> u.ui == next.last == w.manager.last + 1)
    requires forall id :: id in next.merges <==> (id in w.manager.merges && id != w.views[toggled].ui) || (u.ui != 0 && id == u.ui)
    requires forall id :: id in next.merges && id != u.ui ==> next.merges[id] == w.manager.merges[id]
    requires u.ui != 0 ==> Some(next.merges[u.ui]) == ByType(kinds[toggled])
    ensures Owned(RustWindow(next, w.views[toggled := u]), kinds)
  {
    var views := w.views[toggled := u];
    assert forall v :: 0 <= v < |kinds| && v != toggled ==> views[v] == w.views[v];
    forall id | id in next.merges
      ensures HeldBySome(views, id)
    {
      if id == u.ui {
        assert views[toggled].ui == id;
      } else {
        assert HeldBySome(w.views, id);
        var v :| 0 <= v < |kinds| && w.views[v].ui == id;
        assert views[v].ui == id;
      }
    }
  }

  /** The last toggle of a view in a run. */
  function LastToggle(toggles: seq<Toggle>, view: nat): (t: Option<Toggle>) {
    if toggles == [] then None
    else if toggles[|toggles| - 1].view == view then Some(toggles[|toggles| - 1])
    else LastToggle(toggles[..|toggles| - 1], view)
  }

  /** The view was left active, has menus, and the manager could parse them. */
  predicate ShouldShow(toggles: seq<Toggle>, view: nat, kind: Kind) {
    var t := LastToggle(toggles, view);
    t.Some? && t.value.active && t.value.parses && ByType(kind).Some?
  }

  /** Over every run the live merges are exactly the views' own, at most one for each view, and a view
      has one exactly if its last toggle left it active with menus that parse. Each view registers its
      actions at most once. */
  lemma {:induction false} MergesAreOwned(kinds: seq<Kind>, toggles: seq<Toggle>)
    requires InRange(toggles, |kinds|)
    ensures Owned(RustRun(kinds, toggles), kinds) && AllRemember(RustRun(kinds, toggles), kinds)
    ensures forall v :: 0 <= v < |kinds| ==> (RustRun(kinds, toggles).views[v].ui != 0 <==> ShouldShow(toggles, v, kinds[v]))
  {
    var w := RustRun(kinds, toggles);
    if toggles != [] {
      var before, t := toggles[..|toggles| - 1], toggles[|toggles| - 1];
      MergesAreOwned(kinds, before);
      var prior := RustRun(kinds, before);
      OwnedStep(prior, kinds, t);
      forall v | 0 <= v < |kinds|
        ensures Remembers(w.views[v], kinds[v])
        ensures w.views[v].ui != 0 <==> ShouldShow(toggles, v, kinds[v])
      {
        assert Remembers(prior.views[v], kinds[v]);
        if v != t.view {
          assert w.views[v] == prior.views[v];
          assert LastToggle(toggles, v) == LastToggle(before, v);
        }
      }
    }
  }

  /** Both versions show the menus of a view exactly if its last toggle left it active, and register
      its actions at most once. */
  lemma {:induction false} BothShow(kinds: seq<Kind>, toggles: seq<Toggle>, view: nat)
    requires AllProper(kinds) && InRange(toggles, |kinds|) && view < |kinds|
    ensures var r, c := RustRun(kinds, toggles), CRun(kinds, toggles);
            && r.manager.merges == c.manager.merges
            && (c.views[view].ui != 0 <==> ShouldShow(toggles, view, kinds[view]))
            && (c.views[view].ui != 0 ==> c.views[view].ui in c.manager.merges)
            && c.views[view].registrations <= 1
  {
    VersionsAgree(kinds, toggles);
    MergesAreOwned(kinds, toggles);
    assert SameView(kinds[view], RustRun(kinds, toggles).views[view], CRun(kinds, toggles).views[view]);
    assert Remembers(RustRun(kinds, toggles).views[view], kinds[view]);
  }
}
