/**
 The third-party crates whose notices ship with the package.

 The generator starts from the workspace crates that end up in a shipped library and follows the
 normal dependency edges of the resolved graph. Build and development dependencies never reach a
 shipped library, so their edges do not count.
 */
module DependencyClosure {
  import opened Options

  type Id = string

  /** An edge to `pkg`. The kind of a normal dependency is absent. */
  datatype Dependency = Dependency(pkg: Id, kinds: seq<Option<string>>)

  datatype Package = Package(name: string, source: Option<string>, license: Option<string>)

  type Graph = map<Id, seq<Dependency>>

  datatype Outcome =
    | Notices(crates: set<Id>)
    | MissingCrates(names: set<string>)
    | NoNode(id: Id)
    | NoPackage(ids: set<Id>)
    | Unlicensed(ids: set<Id>)

  predicate Normal(dependency: Dependency) {
    None in dependency.kinds
  }

  predicate Edge(nodes: Graph, from: Id, to: Id) {
    from in nodes && exists i :: 0 <= i < |nodes[from]| && nodes[from][i].pkg == to && Normal(nodes[from][i])
  }

  predicate Path(nodes: Graph, path: seq<Id>) {
    forall i :: 0 <= i < |path| - 1 ==> Edge(nodes, path[i], path[i + 1])
  }

  predicate Leads(nodes: Graph, roots: seq<Id>, path: seq<Id>, id: Id) {
    |path| >= 2 && path[0] in roots && path[|path| - 1] == id && Path(nodes, path)
  }

  /** Some path of at least one normal edge leads from a root to `id`. */
  ghost predicate Reachable(nodes: Graph, roots: seq<Id>, id: Id) {
    exists path :: Leads(nodes, roots, path, id)
  }

  ghost predicate Wanted(nodes: Graph, roots: seq<Id>, id: Id) {
    id in roots || Reachable(nodes, roots, id)
  }

  lemma {:induction false} EdgeReaches(nodes: Graph, roots: seq<Id>, from: Id, to: Id)
    requires Wanted(nodes, roots, from) && Edge(nodes, from, to)
    ensures Reachable(nodes, roots, to)
  {
    if from in roots {
      assert Leads(nodes, roots, [from, to], to);
    } else {
      var path :| Leads(nodes, roots, path, from);
      assert Leads(nodes, roots, path + [to], to);
    }
  }

  /** A set that holds the roots' successors and its own is the whole closure. */
  lemma {:induction false} ClosedHoldsPath(nodes: Graph, roots: seq<Id>, seen: set<Id>, path: seq<Id>, k: nat)
    requires forall root :: root in roots ==> root in seen
    requires forall from, to :: from in seen && Edge(nodes, from, to) ==> to in seen
    requires k < |path| && path[0] in roots && Path(nodes, path)
    ensures path[k] in seen
  {
    if k > 0 {
      ClosedHoldsPath(nodes, roots, seen, path, k - 1);
      assert Edge(nodes, path[k - 1], path[k]);
    }
  }

  lemma {:induction false} ClosedHoldsReachable(nodes: Graph, roots: seq<Id>, seen: set<Id>, closure: set<Id>, id: Id)
    requires forall root :: root in roots ==> root in seen
    requires closure <= seen
    requires forall from, to :: from in seen && Edge(nodes, from, to) ==> to in closure
    requires Reachable(nodes, roots, id)
    ensures id in closure
  {
    var path :| Leads(nodes, roots, path, id);
    ClosedHoldsPath(nodes, roots, seen, path, |path| - 2);
    assert Edge(nodes, path[|path| - 2], path[|path| - 1]);
  }

  /** What the walk knows between two rounds. */
  ghost predicate Walked(nodes: Graph, roots: seq<Id>, seen: set<Id>, queue: seq<Id>, closure: set<Id>) {
    && (forall id :: id in queue ==> Wanted(nodes, roots, id))
    && (forall id :: id in closure ==> Reachable(nodes, roots, id))
    && (forall root :: root in roots ==> root in seen || root in queue)
    && (forall id :: id in closure ==> id in seen || id in queue)
  }

  /** The edges of the crates in `seen` are followed. */
  ghost predicate Followed(nodes: Graph, seen: set<Id>, closure: set<Id>) {
    forall from, to :: from in seen && Edge(nodes, from, to) ==> to in closure
  }

  /** Follows the normal edges of one crate. */
  method Follow(nodes: Graph, ghost roots: seq<Id>, pid: Id, seen: set<Id>, queue: seq<Id>, closure: set<Id>)
    returns (queue': seq<Id>, closure': set<Id>)
    requires pid in nodes && pid in seen && Wanted(nodes, roots, pid)
    requires Walked(nodes, roots, seen, queue, closure)
    ensures Walked(nodes, roots, seen, queue', closure') && closure <= closure'
    ensures forall to :: Edge(nodes, pid, to) ==> to in closure'
  {
    queue', closure' := queue, closure;
    var deps := nodes[pid];
    for i := 0 to |deps|
      invariant Walked(nodes, roots, seen, queue', closure') && closure <= closure'
      invariant forall j :: 0 <= j < i && Normal(deps[j]) ==> deps[j].pkg in closure'
    {
      if Normal(deps[i]) {
        var to := deps[i].pkg;
        assert Edge(nodes, pid, to);
        EdgeReaches(nodes, roots, pid, to);
        closure' := closure' + {to};
        if to !in seen {
          queue' := queue' + [to];
        }
      }
    }
  }

  /** Walks the graph from the roots, and fails on the first crate that the graph does not hold. */
  method Walk(nodes: Graph, roots: seq<Id>) returns (closure: set<Id>, lost: Option<Id>)
    ensures lost.None? ==> forall id :: id in closure <==> Reachable(nodes, roots, id)
    ensures lost.None? ==> forall id :: Wanted(nodes, roots, id) ==> id in nodes
    ensures lost.Some? ==> Wanted(nodes, roots, lost.value) && lost.value !in nodes
  {
    var seen: set<Id> := {};
    var queue := roots;
    closure := {};
    while queue != []
      invariant Walked(nodes, roots, seen, queue, closure) && Followed(nodes, seen, closure)
      invariant seen <= nodes.Keys
      decreases |nodes.Keys - seen|, |queue|
    {
      var pid := queue[|queue| - 1];
      ghost var before := queue;
      queue := queue[..|queue| - 1];
      assert before == queue + [pid];
      if pid in seen {
        continue;
      }
      if pid !in nodes {
        return closure, Some(pid);
      }
      assert nodes.Keys - (seen + {pid}) < nodes.Keys - seen;
      Shrinks(nodes.Keys - (seen + {pid}), nodes.Keys - seen, pid);
      seen := seen + {pid};
      queue, closure := Follow(nodes, roots, pid, seen, queue, closure);
    }
    lost := None;
    forall id | Reachable(nodes, roots, id)
      ensures id in closure
    {
      ClosedHoldsReachable(nodes, roots, seen, closure, id);
    }
  }

  lemma {:induction false} Shrinks(a: set<Id>, b: set<Id>, x: Id)
    requires x in b && a == b - {x}
    ensures |a| < |b|
  {
  }

  // ---------------------------------------------------------------------------
  // The notices

  predicate IsRoot(package: Package, shipped: set<string>) {
    package.name in shipped && package.source.None?
  }

  predicate FromRegistry(package: Package) {
    package.source.Some? && "registry+" <= package.source.value
  }

  predicate HasLicense(package: Package) {
    package.license.Some? && package.license.value != ""
  }

  ghost predicate ListsKeys(order: seq<Id>, packages: map<Id, Package>) {
    forall id :: id in order <==> id in packages
  }

  /** The workspace crates that ship, in the order of the metadata. */
  function Roots(order: seq<Id>, packages: map<Id, Package>, shipped: set<string>): (roots: seq<Id>)
    requires forall id :: id in order ==> id in packages
    ensures forall id :: id in roots <==> id in order && IsRoot(packages[id], shipped)
  {
    if order == [] then []
    else
      var rest := Roots(order[1..], packages, shipped);
      if IsRoot(packages[order[0]], shipped) then [order[0]] + rest else rest
  }

  /** The crates to state: what the roots reach by normal edges and the registry provides. */
  ghost predicate Stated(nodes: Graph, packages: map<Id, Package>, roots: seq<Id>, id: Id) {
    Reachable(nodes, roots, id) && id in packages && FromRegistry(packages[id])
  }

  /** Some workspace member has this name. */
  predicate Resolved(packages: map<Id, Package>, name: string) {
    exists id :: id in packages && packages[id].name == name && packages[id].source.None?
  }

  /** The notices succeed exactly when every shipped crate is a workspace member, the graph and the
      packages hold everything that the walk meets, and every stated crate has a license. They then
      state exactly the registry crates that some shipped crate reaches by normal edges. */
  method ThirdParty(order: seq<Id>, packages: map<Id, Package>, nodes: Graph, shipped: set<string>) returns (r: Outcome)
    requires ListsKeys(order, packages)
    ensures var roots := Roots(order, packages, shipped);
            && (r.Notices? ==> forall id :: id in r.crates <==> Stated(nodes, packages, roots, id))
            && (r.Notices? <==>
                && (forall name :: name in shipped ==> Resolved(packages, name))
                && (forall id :: Wanted(nodes, roots, id) ==> id in nodes)
                && (forall id :: Reachable(nodes, roots, id) ==> id in packages)
                && (forall id :: Stated(nodes, packages, roots, id) ==> HasLicense(packages[id])))
    ensures r.MissingCrates? <==> exists name :: name in shipped && !Resolved(packages, name)
    ensures r.MissingCrates? ==> forall name :: name in r.names <==> name in shipped && !Resolved(packages, name)
    ensures r.NoNode? ==> Wanted(nodes, Roots(order, packages, shipped), r.id) && r.id !in nodes
    ensures r.Unlicensed? ==>
              forall id :: id in r.ids <==> Stated(nodes, packages, Roots(order, packages, shipped), id) && !HasLicense(packages[id])
  {
    var roots := Roots(order, packages, shipped);
    var found := set id | id in roots :: packages[id].name;
    var missing := shipped - found;
    if missing != {} {
      var name :| name in missing;
      return MissingCrates(missing);
    }
    assert forall name :: name in shipped ==> name !in missing;
    var closure, lost := Walk(nodes, roots);
    if lost.Some? {
      return NoNode(lost.value);
    }
    var unknown := closure - packages.Keys;
    if unknown != {} {
      var id :| id in unknown;
      return NoPackage(unknown);
    }
    assert forall id :: id in closure ==> id !in unknown;
    var thirdParty := set id | id in closure && FromRegistry(packages[id]);
    var unlicensed := set id | id in thirdParty && !HasLicense(packages[id]);
    if unlicensed != {} {
      var id :| id in unlicensed;
      return Unlicensed(unlicensed);
    }
    assert forall id :: id in thirdParty ==> id !in unlicensed;
    return Notices(thirdParty);
  }
}
