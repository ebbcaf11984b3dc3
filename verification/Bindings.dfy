/**
 The connection settings that the children of an account follow.

 When a child is added, the properties of its connection groups are bound one-way to those of the
 account. The binding copies the value at once, and again on each change of the account. A property
 announces a change only if its value becomes another. Both sides must have a group, except that the
 OAuth 2.0 group is created on the child. Mail services, which have rules of their own, are not part
 of this model.
 */
module Bindings {

  datatype Group = Authentication | Security | OAuth2

  datatype Property =
    | Host | Port | User | Method | Credential
    | Secure
    | ClientId | ClientSecret | AuthorizationEndpoint | TokenEndpoint | RedirectUri | Scope | ResourceUri

  type Value = string

  const OAUTH2_PROPERTIES := [ClientId, ClientSecret, AuthorizationEndpoint, TokenEndpoint, RedirectUri, Scope, ResourceUri]

  const BOUND := [(Authentication, [Host, Port, User, Method, Credential]), (Security, [Secure])]

  function GroupOf(p: Property): (g: Group) {
    match p
    case Host | Port | User | Method | Credential => Authentication
    case Secure => Security
    case _ => OAuth2
  }

  // ---------------------------------------------------------------------------
  // Adding a child

  datatype Settings = Settings(groups: set<Group>, values: map<Property, Value>)

  /** A property that was never set holds the empty text. */
  function Get(s: Settings, p: Property): (v: Value) {
    if p in s.values then s.values[p] else ""
  }

  /** The groups that bind: those of both sides, and OAuth 2.0 if the account has it. */
  function Binding(account: set<Group>, child: set<Group>): (groups: set<Group>) {
    account * (child + {OAuth2})
  }

  function GroupsAfter(account: set<Group>, child: set<Group>): (groups: set<Group>) {
    child + account * {OAuth2}
  }

  class Source {
    var groups: set<Group>
    var values: map<Property, Value>

    constructor (s: Settings)
      ensures Now() == s
    {
      groups, values := s.groups, s.values;
    }

    function Now(): (s: Settings)
      reads this
    {
      Settings(groups, values)
    }
  }

  class Live {
    var bindings: set<(Source, Property)>

    constructor ()
      ensures bindings == {}
    {
      bindings := {};
    }

    method Bind(account: Source, child: Source, p: Property)
      requires account != child
      modifies this, child`values
      ensures bindings == old(bindings) + {(child, p)}
      ensures child.values == old(child.values)[p := Get(account.Now(), p)]
    {
      child.values := child.values[p := Get(account.Now(), p)];
      bindings := bindings + {(child, p)};
    }

    method BindAll(account: Source, child: Source, properties: seq<Property>)
      requires account != child
      modifies this, child`values
      ensures bindings == old(bindings) + set p | p in properties :: (child, p)
      ensures forall p :: Get(child.Now(), p) == if p in properties then Get(account.Now(), p) else old(Get(child.Now(), p))
    {
      for i := 0 to |properties|
        invariant bindings == old(bindings) + set p | p in properties[..i] :: (child, p)
        invariant forall p :: Get(child.Now(), p) == if p in properties[..i] then Get(account.Now(), p) else old(Get(child.Now(), p))
      {
        assert forall p :: p in properties[..i + 1] <==> p in properties[..i] || p == properties[i];
        Bind(account, child, properties[i]);
      }
      assert properties[..|properties|] == properties;
    }

    /** Binds the properties of one group, if both sides have it. */
    method FollowGroup(account: Source, child: Source, group: Group, properties: seq<Property>)
      requires account != child && forall p :: GroupOf(p) == group <==> p in properties
      modifies this, child`values
      ensures Followed(account, child, if group in account.groups && group in child.groups then {group} else {},
                       old(child.Now()), old(bindings))
    {
      if group in account.groups && group in child.groups {
        BindAll(account, child, properties);
      }
    }

    method FollowOAuth2(account: Source, child: Source)
      requires account != child
      modifies this, child
      ensures child.groups == GroupsAfter(account.groups, old(child.groups))
      ensures Followed(account, child, account.groups * {OAuth2}, old(child.Now()), old(bindings))
    {
      if OAuth2 in account.groups {
        child.groups := child.groups + {OAuth2};
        assert forall p :: GroupOf(p) == OAuth2 <==> p in OAUTH2_PROPERTIES;
        BindAll(account, child, OAUTH2_PROPERTIES);
      }
    }

    /** The properties of these groups hold the account's values and are bound. The others, and the
        bindings of other sources, are as before. */
    ghost predicate Followed(account: Source, child: Source, groups: set<Group>, was: Settings, had: set<(Source, Property)>)
      reads this, account, child
    {
      && (forall p :: Get(child.Now(), p) == if GroupOf(p) in groups then Get(account.Now(), p) else Get(was, p))
      && (forall p :: (child, p) in bindings <==> (child, p) in had || GroupOf(p) in groups)
      && (forall b :: b in bindings && b.0 != child ==> b in had)
      && (forall b :: b in had ==> b in bindings)
    }

    /** Binds a child that is not a mail service. The account is only read. */
    method FollowCollection(account: Source, child: Source)
      requires account != child
      modifies this, child
      ensures child.groups == GroupsAfter(account.groups, old(child.groups))
      ensures Followed(account, child, Binding(account.groups, old(child.groups)), old(child.Now()), old(bindings))
    {
      FollowOAuth2(account, child);
      assert forall p :: GroupOf(p) == Authentication <==> p in BOUND[0].1;
      assert forall p :: GroupOf(p) == Security <==> p in BOUND[1].1;
      ghost var done := account.groups * {OAuth2};
      for i := 0 to |BOUND|
        invariant child.groups == GroupsAfter(account.groups, old(child.groups))
        invariant Followed(account, child, done, old(child.Now()), old(bindings))
        invariant done == account.groups * ({OAuth2} + child.groups * (if i == 0 then {} else if i == 1 then {Authentication} else {Authentication, Security}))
      {
        var (group, properties) := BOUND[i];
        FollowGroup(account, child, group, properties);
        done := done + account.groups * child.groups * {group};
      }
      forall g
        ensures g in done <==> g in Binding(account.groups, old(child.groups))
      {
        match g { case Authentication => case Security => case OAuth2 => }
      }
      assert done == Binding(account.groups, old(child.groups));
    }
  }

  // ---------------------------------------------------------------------------
  // Runs

  datatype Step =
    | ChildAdded(child: nat)
    | AccountSet(property: Property, value: Value)
    | ChildSet(child: nat, property: Property, value: Value)

  /** The account, its children, and the groups that each child follows. */
  datatype World = World(account: Settings, children: seq<Settings>, bound: seq<set<Group>>)

  predicate Start(w: World) {
    |w.bound| == |w.children| && forall i :: 0 <= i < |w.bound| ==> w.bound[i] == {}
  }

  function Put(s: Settings, p: Property, v: Value): (r: Settings) {
    s.(values := s.values[p := v])
  }

  predicate Enabled(w: World, step: Step) {
    match step
    case ChildAdded(i) => i < |w.children|
    case AccountSet(p, _) => GroupOf(p) in w.account.groups
    case ChildSet(i, p, _) => i < |w.children| && GroupOf(p) in w.children[i].groups
  }

  function Added(account: Settings, child: Settings): (r: Settings)
    ensures r.groups == GroupsAfter(account.groups, child.groups)
    ensures forall p :: Get(r, p) == if GroupOf(p) in Binding(account.groups, child.groups) then Get(account, p) else Get(child, p)
  {
    Settings(GroupsAfter(account.groups, child.groups),
             map p: Property | GroupOf(p) in Binding(account.groups, child.groups) || p in child.values ::
               if GroupOf(p) in Binding(account.groups, child.groups) then Get(account, p) else Get(child, p))
  }

  function After(w: World, step: Step): (r: World)
    requires |w.bound| == |w.children| && Enabled(w, step)
    ensures |r.bound| == |r.children| == |w.children|
  {
    match step
    case ChildAdded(i) =>
      w.(children := w.children[i := Added(w.account, w.children[i])],
         bound := w.bound[i := w.bound[i] + Binding(w.account.groups, w.children[i].groups)])
    case AccountSet(p, v) =>
      if Get(w.account, p) == v then w
      else
        World(Put(w.account, p, v),
              seq(|w.children|, i requires 0 <= i < |w.children| =>
                if GroupOf(p) in w.bound[i] then Put(w.children[i], p, v) else w.children[i]),
              w.bound)
    case ChildSet(i, p, v) =>
      w.(children := w.children[i := Put(w.children[i], p, v)])
  }

  predicate Legal(init: World, steps: seq<Step>)
    requires |init.bound| == |init.children|
    decreases |steps|, 0
  {
    steps == [] || (Legal(init, steps[..|steps| - 1]) && Enabled(Run(init, steps[..|steps| - 1]), steps[|steps| - 1]))
  }

  function Run(init: World, steps: seq<Step>): (w: World)
    requires |init.bound| == |init.children| && Legal(init, steps)
    ensures |w.bound| == |w.children| == |init.children|
    decreases |steps|, 1
  {
    if steps == [] then init else After(Run(init, steps[..|steps| - 1]), steps[|steps| - 1])
  }

  // What the history says, without the state.

  /** The account's value: the last that was set on the account itself. */
  function AccountValue(init: World, steps: seq<Step>, p: Property): (v: Value) {
    if steps == [] then Get(init.account, p)
    else
      var last := steps[|steps| - 1];
      if last.AccountSet? && last.property == p then last.value
      else AccountValue(init, steps[..|steps| - 1], p)
  }

  predicate WasAdded(steps: seq<Step>, i: nat) {
    exists k :: 0 <= k < |steps| && steps[k] == ChildAdded(i)
  }

  /** The group binds for the child: the account has it, and the child has it or it is OAuth 2.0. */
  predicate Binds(init: World, i: nat, g: Group) {
    i < |init.children| && g in Binding(init.account.groups, init.children[i].groups)
  }

  /** The latest of: the addition of the child, a change of the account, an edit of the child. */
  function Latest(init: World, steps: seq<Step>, i: nat, p: Property): (v: Value)
    requires i < |init.children|
  {
    if steps == [] then Get(init.children[i], p)
    else
      var before, last := steps[..|steps| - 1], steps[|steps| - 1];
      match last
      case ChildSet(j, q, v) => if j == i && q == p then v else Latest(init, before, i, p)
      case ChildAdded(j) => if j == i && Binds(init, i, GroupOf(p)) then AccountValue(init, before, p) else Latest(init, before, i, p)
      case AccountSet(q, v) =>
        if q == p && WasAdded(before, i) && Binds(init, i, GroupOf(p)) && AccountValue(init, before, p) != v then v
        else Latest(init, before, i, p)
  }

  /** What holds of one child after the run. */
  predicate ChildIs(init: World, steps: seq<Step>, w: World, i: nat)
    requires i < |init.children| == |w.children| == |w.bound|
  {
    && w.children[i].groups == (if WasAdded(steps, i) then GroupsAfter(init.account.groups, init.children[i].groups) else init.children[i].groups)
    && w.bound[i] == (if WasAdded(steps, i) then Binding(init.account.groups, init.children[i].groups) else {})
  }

  lemma {:induction false} WasAddedStep(steps: seq<Step>, i: nat)
    requires steps != []
    ensures WasAdded(steps, i) <==> WasAdded(steps[..|steps| - 1], i) || steps[|steps| - 1] == ChildAdded(i)
  {
  }

  /** The account keeps its groups and gets a value only from its own changes. */
  lemma {:induction false} AccountIsItsOwn(init: World, steps: seq<Step>, p: Property)
    requires Start(init) && Legal(init, steps)
    ensures Run(init, steps).account.groups == init.account.groups
    ensures Get(Run(init, steps).account, p) == AccountValue(init, steps, p)
  {
    if steps != [] {
      AccountIsItsOwn(init, steps[..|steps| - 1], p);
    }
  }

  /** A child gains only the OAuth 2.0 group, when it is added and only if the account has it. */
  lemma {:induction false} GroupsAreKept(init: World, steps: seq<Step>, i: nat)
    requires Start(init) && Legal(init, steps) && i < |init.children|
    ensures ChildIs(init, steps, Run(init, steps), i)
  {
    if steps != [] {
      var before, last := steps[..|steps| - 1], steps[|steps| - 1];
      GroupsAreKept(init, before, i);
      AccountIsItsOwn(init, before, Host);
      WasAddedStep(steps, i);
    }
  }

  /** One step changes a child's property only by its own edit, its addition, or a change of the
      account that it follows. */
  lemma {:induction false} StepValue(w: World, step: Step, i: nat, p: Property)
    requires |w.bound| == |w.children| && Enabled(w, step) && i < |w.children|
    ensures Get(After(w, step).children[i], p) ==
            match step
            case ChildSet(j, q, v) => if j == i && q == p then v else Get(w.children[i], p)
            case ChildAdded(j) =>
              if j == i && GroupOf(p) in Binding(w.account.groups, w.children[i].groups) then Get(w.account, p) else Get(w.children[i], p)
            case AccountSet(q, v) =>
              if q == p && GroupOf(p) in w.bound[i] && Get(w.account, p) != v then v else Get(w.children[i], p)
  {
  }

  lemma {:induction false} BindingTwice(account: set<Group>, child: set<Group>)
    ensures Binding(account, GroupsAfter(account, child)) == Binding(account, child)
  {
  }

  /** Over every run each property of each child holds the latest of its addition, the changes of the
      account and its own edits. No edit of a child reaches the account or another child. */
  lemma {:induction false} ChildHoldsLatest(init: World, steps: seq<Step>, i: nat, p: Property)
    requires Start(init) && Legal(init, steps) && i < |init.children|
    ensures Get(Run(init, steps).children[i], p) == Latest(init, steps, i, p)
  {
    if steps != [] {
      var before, last := steps[..|steps| - 1], steps[|steps| - 1];
      ChildHoldsLatest(init, before, i, p);
      GroupsAreKept(init, before, i);
      AccountIsItsOwn(init, before, p);
      StepValue(Run(init, before), last, i, p);
      BindingTwice(init.account.groups, init.children[i].groups);
    }
  }

  predicate Edits(step: Step, i: nat, p: Property) {
    step.ChildSet? && step.child == i && step.property == p
  }

  /** A bound property that the child never edits equals the account's at the end of every run. */
  lemma {:induction false} UneditedFollows(init: World, steps: seq<Step>, i: nat, p: Property)
    requires Start(init) && Legal(init, steps) && i < |init.children|
    requires WasAdded(steps, i) && Binds(init, i, GroupOf(p))
    requires forall k :: 0 <= k < |steps| ==> !Edits(steps[k], i, p)
    ensures Get(Run(init, steps).children[i], p) == Get(Run(init, steps).account, p)
  {
    ChildHoldsLatest(init, steps, i, p);
    AccountIsItsOwn(init, steps, p);
    LatestFollows(init, steps, i, p);
  }

  lemma {:induction false} LatestFollows(init: World, steps: seq<Step>, i: nat, p: Property)
    requires i < |init.children| && WasAdded(steps, i) && Binds(init, i, GroupOf(p))
    requires forall k :: 0 <= k < |steps| ==> !Edits(steps[k], i, p)
    ensures Latest(init, steps, i, p) == AccountValue(init, steps, p)
  {
    var before, last := steps[..|steps| - 1], steps[|steps| - 1];
    WasAddedStep(steps, i);
    assert !Edits(last, i, p);
    if WasAdded(before, i) {
      LatestFollows(init, before, i, p);
    }
  }
}
