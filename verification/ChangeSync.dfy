/**
 Incremental synchronisation of one collection (an address book or a calendar).

 `all_changes` folds the pages of a `/changes` answer (section 5.2 of RFC 8620) into one
 canonical change set. `classify` turns that set into the changed and removed objects of the
 collection, and the cache applies them. `list_existing` replaces the cache instead. The
 server goes on changing between the requests, so what the server holds is a history of
 stores, and a state token is a position in that history.
 */
module ChangeSync {
  import opened Options

  type Id = string

  datatype Error = RequestFailed | OverBudget | DoesNotAdvance | NeverStops | ObjectWithoutId | FalseMembership | RenderFailed

  datatype Result<+T> = Ok(value: T) | Err(error: Error)

  /** A JMAP object: the property that files it in collections, and its rendered text. */
  datatype Object = Object(membership: Option<map<Id, bool>>, text: string)

  type Store = map<Id, Object>

  type History = nat -> Store

  // ---------------------------------------------------------------------------
  // The pages of /changes

  datatype Response = Response(newState: nat, hasMore: bool, created: seq<Id>, updated: seq<Id>, destroyed: seq<Id>)

  datatype Answer = Page(response: Response) | Failure

  datatype ChangeSet = ChangeSet(newState: nat, created: set<Id>, updated: set<Id>, destroyed: set<Id>)

  /** What happened to one id in the window. */
  datatype Disposition = Disposition(created: bool, updated: bool, destroyed: bool)

  const UNSEEN := Disposition(false, false, false)

  datatype Flag = Created | Updated | Destroyed

  datatype IdBudget = IdBudget(ids: nat, bytes: nat)

  const MAX_CHANGES_PAGES := 1024

  function Flagged(d: Disposition, flag: Flag): (r: Disposition) {
    match flag
    case Created => d.(created := true)
    case Updated => d.(updated := true)
    case Destroyed => d.(destroyed := true)
  }

  function DispositionOf(byId: map<Id, Disposition>, id: Id): (d: Disposition) {
    if id in byId then byId[id] else UNSEEN
  }

  predicate Fits(budget: IdBudget, id: Id) {
    budget.ids >= 1 && budget.bytes >= |id|
  }

  // What the distinct ids cost.

  ghost function Bytes(ids: set<Id>): (n: nat) {
    if ids == {} then 0 else var id :| id in ids; |id| + Bytes(ids - {id})
  }

  lemma {:induction false} BytesWithout(ids: set<Id>, id: Id)
    requires id in ids
    ensures Bytes(ids) == |id| + Bytes(ids - {id})
    decreases |ids|
  {
    var first :| first in ids && Bytes(ids) == |first| + Bytes(ids - {first});
    if first != id {
      BytesWithout(ids - {first}, id);
      BytesWithout(ids - {id}, first);
      assert ids - {first} - {id} == ids - {id} - {first};
    }
  }

  ghost predicate FitsAll(budget: IdBudget, ids: set<Id>) {
    |ids| <= budget.ids && Bytes(ids) <= budget.bytes
  }

  lemma {:induction false} FewerFit(budget: IdBudget, ids: set<Id>, more: set<Id>)
    requires ids <= more && FitsAll(budget, more)
    ensures FitsAll(budget, ids)
    decreases |more|
  {
    if ids != more {
      var id :| id in more && id !in ids;
      BytesWithout(more, id);
      FewerFit(budget, ids, more - {id});
    }
  }

  /** `left` is what remains of `budget` after the ids that `byId` holds. */
  ghost predicate Charged(budget: IdBudget, byId: map<Id, Disposition>, left: IdBudget) {
    left.ids + |byId.Keys| == budget.ids && left.bytes + Bytes(byId.Keys) == budget.bytes
  }

  lemma {:induction false} ChargeOne(budget: IdBudget, byId: map<Id, Disposition>, left: IdBudget, id: Id)
    requires Charged(budget, byId, left) && id !in byId
    ensures Fits(left, id) <==> FitsAll(budget, byId.Keys + {id})
    ensures |byId.Keys + {id}| == |byId.Keys| + 1 && Bytes(byId.Keys + {id}) == Bytes(byId.Keys) + |id|
  {
    BytesWithout(byId.Keys + {id}, id);
    assert byId.Keys + {id} - {id} == byId.Keys;
  }

  /** Sets `flag` on `id`. An id that is new to `byId` is charged to the budget first. */
  function Keep(byId: map<Id, Disposition>, left: IdBudget, id: Id, flag: Flag): (r: (map<Id, Disposition>, IdBudget))
    requires id in byId || Fits(left, id)
    ensures r.0.Keys == byId.Keys + {id}
    ensures forall x :: DispositionOf(r.0, x) ==
                        if x == id then Flagged(DispositionOf(byId, id), flag) else DispositionOf(byId, x)
  {
    (byId[id := Flagged(DispositionOf(byId, id), flag)],
     if id in byId then left else IdBudget(left.ids - 1, left.bytes - |id|))
  }

  lemma {:induction false} KeepCharges(budget: IdBudget, byId: map<Id, Disposition>, left: IdBudget, id: Id, flag: Flag)
    requires Charged(budget, byId, left) && (id in byId || Fits(left, id))
    ensures var r := Keep(byId, left, id, flag); Charged(budget, r.0, r.1)
  {
    if id in byId {
      assert byId.Keys + {id} == byId.Keys;
    } else {
      ChargeOne(budget, byId, left, id);
    }
  }

  function Ids(ids: seq<Id>): (r: set<Id>) {
    set id | id in ids
  }

  /** `marked` is `byId` with `flag` set on `ids`. */
  ghost predicate MarkedWith(byId: map<Id, Disposition>, marked: map<Id, Disposition>, ids: set<Id>, flag: Flag) {
    && marked.Keys == byId.Keys + ids
    && forall id :: DispositionOf(marked, id) ==
                    if id in ids then Flagged(DispositionOf(byId, id), flag) else DispositionOf(byId, id)
  }

  lemma {:induction false} MarkOne(byId: map<Id, Disposition>, marked: map<Id, Disposition>, left: IdBudget, ids: seq<Id>, k: nat, flag: Flag)
    requires k < |ids| && MarkedWith(byId, marked, Ids(ids[..k]), flag) && (ids[k] in marked || Fits(left, ids[k]))
    ensures MarkedWith(byId, Keep(marked, left, ids[k], flag).0, Ids(ids[..k + 1]), flag)
  {
  }

  /** Sets `flag` on each of `ids`. The sync stops exactly if the ids do not fit what is left. */
  method Mark(ghost budget: IdBudget, byId: map<Id, Disposition>, before: IdBudget, ids: seq<Id>, flag: Flag)
    returns (ok: bool, marked: map<Id, Disposition>, left: IdBudget)
    requires Charged(budget, byId, before)
    ensures ok ==> MarkedWith(byId, marked, Ids(ids), flag) && Charged(budget, marked, left)
    ensures !ok ==> !FitsAll(budget, byId.Keys + Ids(ids))
  {
    marked, left := byId, before;
    for k := 0 to |ids|
      invariant MarkedWith(byId, marked, Ids(ids[..k]), flag) && Charged(budget, marked, left)
    {
      if ids[k] !in marked && !Fits(left, ids[k]) {
        assert forall id :: id in ids[..k] ==> id in ids;
        StopsOver(budget, marked, left, ids[k], byId.Keys + Ids(ids));
        return false, marked, left;
      }
      KeepCharges(budget, marked, left, ids[k], flag);
      MarkOne(byId, marked, left, ids, k, flag);
      var kept := Keep(marked, left, ids[k], flag);
      marked, left := kept.0, kept.1;
    }
    assert ids[..|ids|] == ids;
    return true, marked, left;
  }

  lemma {:induction false} StopsOver(budget: IdBudget, byId: map<Id, Disposition>, left: IdBudget, id: Id, all: set<Id>)
    requires Charged(budget, byId, left) && id !in byId && !Fits(left, id) && byId.Keys + {id} <= all
    ensures !FitsAll(budget, all)
  {
    ChargeOne(budget, byId, left, id);
    if FitsAll(budget, all) {
      FewerFit(budget, byId.Keys + {id}, all);
    }
  }

  /** The canonical change set: an id that was created and destroyed in the window is dropped,
      and no id is in two of the sets. */
  function Canonical(newState: nat, byId: map<Id, Disposition>): (delta: ChangeSet) {
    ChangeSet(
      newState,
      set id | id in byId && byId[id].created && !byId[id].destroyed,
      set id | id in byId && byId[id].updated && !byId[id].created && !byId[id].destroyed,
      set id | id in byId && byId[id].destroyed && !byId[id].created
    )
  }

  /** The pages that the requests from `state` on answer with, up to the last one. */
  function Pages(answer: nat -> Answer, call: nat, state: nat): (r: Result<seq<Response>>)
    requires call <= MAX_CHANGES_PAGES
    decreases MAX_CHANGES_PAGES - call
  {
    if call == MAX_CHANGES_PAGES then Err(NeverStops)
    else match answer(call)
      case Failure => Err(RequestFailed)
      case Page(p) =>
        if !p.hasMore then Ok([p])
        else if p.newState == state then Err(DoesNotAdvance)
        else match Pages(answer, call + 1, p.newState)
          case Ok(rest) => Ok([p] + rest)
          case Err(e) => Err(e)
  }

  function Either(x: Disposition, y: Disposition): (r: Disposition) {
    Disposition(x.created || y.created, x.updated || y.updated, x.destroyed || y.destroyed)
  }

  function InPage(p: Response, id: Id): (d: Disposition) {
    Disposition(id in p.created, id in p.updated, id in p.destroyed)
  }

  function InDelta(delta: ChangeSet, id: Id): (d: Disposition) {
    Disposition(id in delta.created, id in delta.updated, id in delta.destroyed)
  }

  /** What the pages together report of `id`. */
  function Over(pages: seq<Response>, id: Id): (d: Disposition) {
    if pages == [] then UNSEEN else Either(InPage(pages[0], id), Over(pages[1..], id))
  }

  function PageIds(p: Response): (ids: set<Id>) {
    Ids(p.created) + Ids(p.updated) + Ids(p.destroyed)
  }

  /** The distinct ids of the pages. */
  function IdsOf(pages: seq<Response>): (ids: set<Id>) {
    if pages == [] then {} else IdsOf(pages[..|pages| - 1]) + PageIds(pages[|pages| - 1])
  }

  lemma {:induction false} IdsOfAppend(pages: seq<Response>, more: seq<Response>)
    ensures IdsOf(pages + more) == IdsOf(pages) + IdsOf(more)
    decreases |more|
  {
    if more == [] {
      assert pages + more == pages;
    } else {
      var all := pages + more;
      assert all[..|all| - 1] == pages + more[..|more| - 1];
      IdsOfAppend(pages, more[..|more| - 1]);
    }
  }

  /** The one list that an id with the reports `d` belongs to, if any. */
  function Settled(d: Disposition): (r: Disposition) {
    Disposition(d.created && !d.destroyed, d.updated && !d.created && !d.destroyed, d.destroyed && !d.created)
  }

  function LastState(since: nat, pages: seq<Response>): (state: nat) {
    if pages == [] then since else pages[|pages| - 1].newState
  }

  /** `delta` is the canonical change set of `pages`. */
  ghost predicate Summarises(delta: ChangeSet, since: nat, pages: seq<Response>) {
    && delta.newState == LastState(since, pages)
    && forall id :: InDelta(delta, id) == Settled(Over(pages, id))
  }

  lemma {:induction false} OverAppend(pages: seq<Response>, p: Response, id: Id)
    ensures Over(pages + [p], id) == Either(Over(pages, id), InPage(p, id))
  {
    if pages == [] {
      assert pages + [p] == [p];
    } else {
      assert (pages + [p])[1..] == pages[1..] + [p];
      OverAppend(pages[1..], p, id);
    }
  }

  /** The pages `all` of the whole sync, when the calls before `call` gave the pages `done`. */
  ghost predicate Fetched(answer: nat -> Answer, all: Result<seq<Response>>, done: seq<Response>, call: nat, state: nat)
    requires call <= MAX_CHANGES_PAGES
  {
    match Pages(answer, call, state)
    case Ok(rest) => all == Ok(done + rest)
    case Err(e) => all == Err(e)
  }

  /** The page `p` that follows `done` ends the sync, breaks it off, or goes on. */
  ghost predicate Follows(answer: nat -> Answer, all: Result<seq<Response>>, done: seq<Response>, call: nat, state: nat, p: Response)
    requires call < MAX_CHANGES_PAGES
  {
    && (!p.hasMore ==> all == Ok(done + [p]))
    && (p.hasMore && p.newState == state ==> all == Err(DoesNotAdvance))
    && (p.hasMore && p.newState != state ==> Fetched(answer, all, done + [p], call + 1, p.newState))
  }

  lemma {:induction false} FetchedStep(answer: nat -> Answer, all: Result<seq<Response>>, done: seq<Response>, call: nat, state: nat)
    requires call < MAX_CHANGES_PAGES && Fetched(answer, all, done, call, state)
    ensures answer(call).Failure? ==> all == Err(RequestFailed)
    ensures answer(call).Page? ==> Follows(answer, all, done, call, state, answer(call).response)
  {
    if answer(call).Page? {
      var p := answer(call).response;
      if p.hasMore && p.newState != state {
        var rest := Pages(answer, call + 1, p.newState);
        assert rest.Ok? ==> done + ([p] + rest.value) == (done + [p]) + rest.value;
      }
    }
  }

  ghost predicate Marked(byId: map<Id, Disposition>, pages: seq<Response>) {
    forall id :: DispositionOf(byId, id) == Over(pages, id)
  }

  lemma {:induction false} MarkedSummarises(byId: map<Id, Disposition>, since: nat, pages: seq<Response>)
    requires Marked(byId, pages)
    ensures Summarises(Canonical(LastState(since, pages), byId), since, pages)
  {
  }

  lemma {:induction false} PageMarked(byId: map<Id, Disposition>, one: map<Id, Disposition>, two: map<Id, Disposition>, three: map<Id, Disposition>,
                                      p: Response, done: seq<Response>)
    requires Marked(byId, done)
    requires MarkedWith(byId, one, Ids(p.created), Created)
    requires MarkedWith(one, two, Ids(p.updated), Updated)
    requires MarkedWith(two, three, Ids(p.destroyed), Destroyed)
    ensures Marked(three, done + [p]) && three.Keys == byId.Keys + PageIds(p)
  {
    forall id
      ensures DispositionOf(three, id) == Over(done + [p], id)
    {
      assert DispositionOf(byId, id) == Over(done, id);
      OverAppend(done, p, id);
      assert DispositionOf(one, id) == if id in p.created then Flagged(DispositionOf(byId, id), Created) else DispositionOf(byId, id);
      assert DispositionOf(two, id) == if id in p.updated then Flagged(DispositionOf(one, id), Updated) else DispositionOf(one, id);
      assert DispositionOf(three, id) == if id in p.destroyed then Flagged(DispositionOf(two, id), Destroyed) else DispositionOf(two, id);
    }
  }

  /** Marks one page. */
  method MarkPage(ghost budget: IdBudget, byId: map<Id, Disposition>, before: IdBudget, p: Response, ghost done: seq<Response>)
    returns (ok: bool, marked: map<Id, Disposition>, left: IdBudget)
    requires Marked(byId, done) && Charged(budget, byId, before)
    ensures ok ==> Marked(marked, done + [p]) && marked.Keys == byId.Keys + PageIds(p) && Charged(budget, marked, left)
    ensures !ok ==> !FitsAll(budget, byId.Keys + PageIds(p))
  {
    var one, two, three;
    ok, one, left := Mark(budget, byId, before, p.created, Created);
    if !ok {
      OverWithMore(budget, byId.Keys + Ids(p.created), byId.Keys + PageIds(p));
      return false, one, left;
    }
    ok, two, left := Mark(budget, one, left, p.updated, Updated);
    if !ok {
      OverWithMore(budget, one.Keys + Ids(p.updated), byId.Keys + PageIds(p));
      return false, two, left;
    }
    ok, three, left := Mark(budget, two, left, p.destroyed, Destroyed);
    if !ok {
      OverWithMore(budget, two.Keys + Ids(p.destroyed), byId.Keys + PageIds(p));
      return false, three, left;
    }
    PageMarked(byId, one, two, three, p, done);
    marked := three;
  }

  lemma {:induction false} OverWithMore(budget: IdBudget, ids: set<Id>, more: set<Id>)
    requires ids <= more && !FitsAll(budget, ids)
    ensures !FitsAll(budget, more)
  {
    if FitsAll(budget, more) {
      FewerFit(budget, ids, more);
    }
  }

  /** The first answers are these pages. */
  ghost predicate Answered(answer: nat -> Answer, pages: seq<Response>) {
    forall k: nat :: k < |pages| ==> answer(k) == Page(pages[k])
  }

  /** Some pages that the server answered with hold more ids than the budget. */
  ghost predicate GoesOver(answer: nat -> Answer, budget: IdBudget) {
    exists pages :: Answered(answer, pages) && !FitsAll(budget, IdsOf(pages))
  }

  /** The pages `done` are fetched and folded. */
  ghost predicate Folded(answer: nat -> Answer, budget: IdBudget, done: seq<Response>, byId: map<Id, Disposition>, left: IdBudget) {
    && Answered(answer, done)
    && Marked(byId, done) && byId.Keys == IdsOf(done) && Charged(budget, byId, left)
  }

  lemma {:induction false} FoldedFits(answer: nat -> Answer, budget: IdBudget, done: seq<Response>, byId: map<Id, Disposition>, left: IdBudget)
    requires Folded(answer, budget, done, byId, left)
    ensures FitsAll(budget, IdsOf(done))
  {
  }

  /** Folds the next page, or stops because its ids do not fit. */
  method FoldPage(ghost answer: nat -> Answer, ghost budget: IdBudget, ghost done: seq<Response>, byId: map<Id, Disposition>, before: IdBudget, p: Response)
    returns (ok: bool, marked: map<Id, Disposition>, left: IdBudget)
    requires Folded(answer, budget, done, byId, before) && answer(|done|) == Page(p)
    ensures Answered(answer, done + [p])
    ensures ok ==> Folded(answer, budget, done + [p], marked, left)
    ensures !ok ==> !FitsAll(budget, IdsOf(done + [p]))
  {
    assert (done + [p])[..|done|] == done;
    ok, marked, left := MarkPage(budget, byId, before, p, done);
  }

  /** What a sync that answers `r` must have seen. */
  ghost predicate Correct(answer: nat -> Answer, since: nat, budget: IdBudget, all: Result<seq<Response>>, r: Result<ChangeSet>) {
    && (r.Ok? ==> all.Ok? && Summarises(r.value, since, all.value))
    && (r.Ok? <==> all.Ok? && FitsAll(budget, IdsOf(all.value)))
    && (r.Err? && r.error != OverBudget ==> all == Err(r.error))
    && (r == Err(OverBudget) ==> GoesOver(answer, budget))
  }

  /** Fetches every page since `since` and folds them. It succeeds exactly if the pages end within the
      limit, none fails or promises more without a new state, and their distinct ids fit the budget.
      It then gives the canonical change set of the pages. */
  method AllChanges(answer: nat -> Answer, since: nat, budget: IdBudget) returns (r: Result<ChangeSet>)
    ensures Correct(answer, since, budget, Pages(answer, 0, since), r)
  {
    ghost var all := Pages(answer, 0, since);
    var state, byId, left := since, map[], budget;
    ghost var done: seq<Response> := [];
    assert all.Ok? ==> done + all.value == all.value;
    for call := 0 to MAX_CHANGES_PAGES
      invariant Fetched(answer, all, done, call, state)
      invariant |done| == call && Folded(answer, budget, done, byId, left)
    {
      FetchedStep(answer, all, done, call, state);
      if answer(call).Failure? {
        FailsCorrectly(answer, since, budget, all, RequestFailed);
        return Err(RequestFailed);
      }
      var p := answer(call).response;
      var ok, marked, left' := FoldPage(answer, budget, done, byId, left, p);
      if !ok {
        StaysOver(answer, budget, all, done, p, call, state);
        StopsCorrectly(answer, since, budget, all);
        return Err(OverBudget);
      }
      byId, left, done := marked, left', done + [p];
      if !p.hasMore {
        FoldsCorrectly(answer, since, budget, all, done, byId, left);
        return Ok(Canonical(p.newState, byId));
      }
      if p.newState == state {
        FailsCorrectly(answer, since, budget, all, DoesNotAdvance);
        return Err(DoesNotAdvance);
      }
      state := p.newState;
    }
    FailsCorrectly(answer, since, budget, all, NeverStops);
    return Err(NeverStops);
  }

  lemma {:induction false} FailsCorrectly(answer: nat -> Answer, since: nat, budget: IdBudget, all: Result<seq<Response>>, error: Error)
    requires all == Err(error) && error != OverBudget
    ensures Correct(answer, since, budget, all, Err(error))
  {
  }

  lemma {:induction false} StopsCorrectly(answer: nat -> Answer, since: nat, budget: IdBudget, all: Result<seq<Response>>)
    requires (all.Ok? ==> !FitsAll(budget, IdsOf(all.value))) && GoesOver(answer, budget)
    ensures Correct(answer, since, budget, all, Err(OverBudget))
  {
  }

  lemma {:induction false} FoldsCorrectly(answer: nat -> Answer, since: nat, budget: IdBudget, all: Result<seq<Response>>,
                                          done: seq<Response>, byId: map<Id, Disposition>, left: IdBudget)
    requires all == Ok(done) && Folded(answer, budget, done, byId, left)
    ensures Correct(answer, since, budget, all, Ok(Canonical(LastState(since, done), byId)))
  {
    MarkedSummarises(byId, since, done);
    FoldedFits(answer, budget, done, byId, left);
  }

  lemma {:induction false} StaysOver(answer: nat -> Answer, budget: IdBudget, all: Result<seq<Response>>, done: seq<Response>, p: Response, call: nat, state: nat)
    requires call < MAX_CHANGES_PAGES && Follows(answer, all, done, call, state, p)
    requires !FitsAll(budget, IdsOf(done + [p])) && Answered(answer, done + [p])
    ensures all.Ok? ==> !FitsAll(budget, IdsOf(all.value))
    ensures GoesOver(answer, budget)
  {
    if p.hasMore && p.newState != state && all.Ok? {
      var rest := Pages(answer, call + 1, p.newState).value;
      IdsOfAppend(done + [p], rest);
      OverWithMore(budget, IdsOf(done + [p]), IdsOf(done + [p] + rest));
    }
  }

  // ---------------------------------------------------------------------------
  // What the pages mean

  ghost predicate Changed(h: History, a: nat, b: nat, id: Id) {
    exists t :: a <= t <= b && Lookup(h(t), id) != Lookup(h(a), id)
  }

  ghost predicate ExistsIn(h: History, a: nat, b: nat, id: Id) {
    exists t :: a <= t <= b && id in h(t)
  }

  /** An id that disappears at or after `since` never comes back. */
  ghost predicate NoReuse(h: History, since: nat) {
    forall id, t: nat, u: nat, v: nat :: since <= t < u < v && id in h(t) && id !in h(u) ==> id !in h(v)
  }

  /** The reports `d` of `id` answer for the window from `a` to `b` as section 5.2 of RFC 8620
      requires. An id may be in the updated list besides the list that it must be in. An id that
      was created and destroyed in the window may be left out, or be in the destroyed list. */
  ghost predicate HonestAbout(h: History, a: nat, b: nat, d: Disposition, id: Id) {
    && a <= b
    && (d.created ==> id !in h(a) && ExistsIn(h, a, b, id))
    && (d.destroyed ==> id !in h(b) && ExistsIn(h, a, b, id))
    && (id in h(a) && id in h(b) && Changed(h, a, b, id) ==> d.updated)
    && (id !in h(a) && id in h(b) ==> d.created)
    && (id in h(a) && id !in h(b) ==> d.destroyed)
    && (id !in h(a) && id !in h(b) && (d.created || d.updated) ==> d.destroyed)
  }

  ghost predicate Honest(h: History, since: nat, delta: ChangeSet) {
    forall id :: HonestAbout(h, since, delta.newState, InDelta(delta, id), id)
  }

  /** Each page answers for its own window. */
  ghost predicate HonestPages(h: History, since: nat, pages: seq<Response>)
    decreases |pages|
  {
    pages == [] ||
    (&& (forall id :: HonestAbout(h, since, pages[0].newState, InPage(pages[0], id), id))
     && HonestPages(h, pages[0].newState, pages[1..]))
  }

  predicate Disjoint(delta: ChangeSet) {
    delta.created !! delta.updated && delta.created !! delta.destroyed && delta.updated !! delta.destroyed
  }

  /** With ids that are not reused, an id at both ends of a window is there throughout, an id that
      appears is absent before, and an id that disappears is absent after. */
  lemma {:induction false} OneLife(h: History, a: nat, b: nat, c: nat, t: nat, id: Id)
    requires NoReuse(h, a) && a <= b <= c
    ensures id in h(a) && id in h(c) ==> id in h(b)
    ensures a <= t <= b && id in h(t) && id !in h(b) ==> id !in h(c)
    ensures b <= t <= c && id in h(t) && id !in h(b) ==> id !in h(a)
  {
  }

  lemma {:induction false} CreatedTogether(h: History, a: nat, b: nat, c: nat, x: Disposition, y: Disposition, id: Id)
    requires NoReuse(h, a) && HonestAbout(h, a, b, x, id) && HonestAbout(h, b, c, y, id)
    ensures x.created || y.created ==> id !in h(a) && ExistsIn(h, a, c, id)
  {
  }

  lemma {:induction false} DestroyedTogether(h: History, a: nat, b: nat, c: nat, x: Disposition, y: Disposition, id: Id)
    requires NoReuse(h, a) && HonestAbout(h, a, b, x, id) && HonestAbout(h, b, c, y, id)
    ensures x.destroyed || y.destroyed ==> id !in h(c) && ExistsIn(h, a, c, id)
  {
  }

  lemma {:induction false} ChangedTogether(h: History, a: nat, b: nat, c: nat, id: Id)
    requires a <= b <= c && Changed(h, a, c, id)
    ensures Changed(h, a, b, id) || Changed(h, b, c, id)
  {
  }

  /** Reports about two windows that meet are together honest about both, if ids are not reused. */
  lemma {:induction false} HonestTogether(h: History, a: nat, b: nat, c: nat, x: Disposition, y: Disposition, id: Id)
    requires NoReuse(h, a) && HonestAbout(h, a, b, x, id) && HonestAbout(h, b, c, y, id)
    ensures HonestAbout(h, a, c, Either(x, y), id)
  {
    CreatedTogether(h, a, b, c, x, y, id);
    DestroyedTogether(h, a, b, c, x, y, id);
    OneLife(h, a, b, c, a, id);
    if Changed(h, a, c, id) {
      ChangedTogether(h, a, b, c, id);
    }
  }

  lemma {:induction false} HonestOver(h: History, since: nat, pages: seq<Response>, id: Id)
    requires NoReuse(h, since) && HonestPages(h, since, pages)
    ensures HonestAbout(h, since, LastState(since, pages), Over(pages, id), id)
    decreases |pages|
  {
    if pages != [] {
      var p, rest := pages[0], pages[1..];
      assert HonestAbout(h, since, p.newState, InPage(p, id), id);
      HonestOver(h, p.newState, rest, id);
      HonestTogether(h, since, p.newState, LastState(p.newState, rest), InPage(p, id), Over(rest, id), id);
    }
  }

  /** Folding keeps the meaning: when each page is honest about its own window and ids are not
      reused, the change set is honest about the whole window, and no id is in two of its sets. */
  lemma {:induction false} FoldIsHonest(h: History, since: nat, pages: seq<Response>, delta: ChangeSet)
    requires NoReuse(h, since) && HonestPages(h, since, pages) && Summarises(delta, since, pages)
    ensures Honest(h, since, delta) && Disjoint(delta)
  {
    forall id
      ensures HonestAbout(h, since, delta.newState, InDelta(delta, id), id)
    {
      HonestOver(h, since, pages, id);
      assert InDelta(delta, id) == Settled(Over(pages, id));
    }
    forall id
      ensures !(id in delta.created && id in delta.updated)
      ensures !(id in delta.created && id in delta.destroyed)
      ensures !(id in delta.updated && id in delta.destroyed)
    {
      assert InDelta(delta, id) == Settled(Over(pages, id));
    }
  }

  /** A sync that succeeds with honest pages gives `delta`. */
  ghost predicate SyncGives(h: History, since: nat, answer: nat -> Answer, delta: ChangeSet) {
    var pages := Pages(answer, 0, since);
    pages.Ok? && HonestPages(h, since, pages.value) && Summarises(delta, since, pages.value)
  }

  /** Every sync from `since` on that succeeds with honest pages gives an honest change set. */
  ghost predicate SyncsHonestly(h: History, since: nat) {
    forall answer, delta :: SyncGives(h, since, answer, delta) ==> Honest(h, since, delta)
  }

  /** The page that reports a window in the plainest way. */
  lemma {:induction false} PlainPage(h: History, a: nat, b: nat, hasMore: bool) returns (p: Response)
    requires a <= b
    ensures p.newState == b && p.hasMore == hasMore
    ensures forall id :: HonestAbout(h, a, b, InPage(p, id), id)
    ensures forall id :: InPage(p, id) == Disposition(id in h(b) && id !in h(a), id in h(a) && id in h(b), id in h(a) && id !in h(b))
  {
    var created := AsSequence(h(b).Keys - h(a).Keys);
    var updated := AsSequence(h(a).Keys * h(b).Keys);
    var destroyed := AsSequence(h(a).Keys - h(b).Keys);
    p := Response(b, hasMore, created, updated, destroyed);
    forall id
      ensures HonestAbout(h, a, b, InPage(p, id), id)
    {
      assert id in h(b) ==> ExistsIn(h, a, b, id);
      assert id in h(a) ==> ExistsIn(h, a, b, id);
    }
  }

  /** Pages that come in order are what a sync fetches. */
  lemma {:induction false} TwoPages(since: nat, p: Response, q: Response) returns (answer: nat -> Answer)
    requires p.hasMore && p.newState != since && !q.hasMore
    ensures Pages(answer, 0, since) == Ok([p, q])
  {
    answer := (call: nat) => if call == 0 then Page(p) else Page(q);
    assert Pages(answer, 1, p.newState) == Ok([q]);
    assert [p] + [q] == [p, q];
  }

  lemma {:induction false} ThreePages(since: nat, o: Response, p: Response, q: Response) returns (answer: nat -> Answer)
    requires o.hasMore && o.newState != since && p.hasMore && p.newState != o.newState && !q.hasMore
    ensures Pages(answer, 0, since) == Ok([o, p, q])
  {
    answer := (call: nat) => if call == 0 then Page(o) else if call == 1 then Page(p) else Page(q);
    assert Pages(answer, 2, p.newState) == Ok([q]);
    assert Pages(answer, 1, o.newState) == Ok([p] + [q]);
    assert [o] + ([p] + [q]) == [o, p, q];
  }

  lemma {:induction false} OverSome(pages: seq<Response>, i: nat, id: Id)
    requires i < |pages|
    ensures InPage(pages[i], id).created ==> Over(pages, id).created
    ensures InPage(pages[i], id).destroyed ==> Over(pages, id).destroyed
  {
    if i > 0 {
      OverSome(pages[1..], i - 1, id);
    }
  }

  lemma {:induction false} UnlistedIsUnseen(pages: seq<Response>, id: Id)
    requires id !in IdsOf(pages)
    ensures Over(pages, id) == UNSEEN
    decreases |pages|
  {
    if pages != [] {
      var front, last := pages[..|pages| - 1], pages[|pages| - 1];
      UnlistedIsUnseen(front, id);
      OverAppend(front, last, id);
      assert pages == front + [last];
    }
  }

  /** Every list of pages has its canonical change set. */
  lemma {:induction false} SomeSummary(since: nat, pages: seq<Response>) returns (delta: ChangeSet)
    ensures Summarises(delta, since, pages)
  {
    var ids := IdsOf(pages);
    delta := ChangeSet(LastState(since, pages),
                       set id | id in ids && Settled(Over(pages, id)).created,
                       set id | id in ids && Settled(Over(pages, id)).updated,
                       set id | id in ids && Settled(Over(pages, id)).destroyed);
    forall id
      ensures InDelta(delta, id) == Settled(Over(pages, id))
    {
      if id !in ids {
        UnlistedIsUnseen(pages, id);
      }
    }
  }

  /** An id that one page destroys and another creates is in no set of the change set. */
  lemma {:induction false} BothIsNeither(since: nat, pages: seq<Response>, i: nat, j: nat, id: Id, delta: ChangeSet)
    requires i < |pages| && j < |pages| && InPage(pages[i], id).destroyed && InPage(pages[j], id).created
    requires Summarises(delta, since, pages)
    ensures InDelta(delta, id) == UNSEEN
  {
    OverSome(pages, i, id);
    OverSome(pages, j, id);
    assert InDelta(delta, id) == Settled(Over(pages, id));
  }

  /** Honest pages for a run in which `id` comes back. */
  lemma {:induction false} ReusePages(h: History, since: nat, id: Id, t: nat, u: nat, v: nat)
    returns (answer: nat -> Answer, pages: seq<Response>, i: nat)
    requires since <= t < u < v && id in h(t) && id !in h(u) && id in h(v)
    ensures Pages(answer, 0, since) == Ok(pages) && HonestPages(h, since, pages) && LastState(since, pages) == v
    ensures i + 1 < |pages| && InPage(pages[i], id).destroyed && InPage(pages[i + 1], id).created
  {
    var p := PlainPage(h, t, u, true);
    var q := PlainPage(h, u, v, false);
    assert [q][1..] == [] && [p, q][1..] == [q];
    assert HonestPages(h, u, [q]) && HonestPages(h, t, [p, q]);
    if since == t {
      pages, i := [p, q], 0;
      answer := TwoPages(since, p, q);
    } else {
      var o := PlainPage(h, since, t, true);
      pages, i := [o, p, q], 1;
      assert pages[1..] == [p, q];
      answer := ThreePages(since, o, p, q);
    }
  }

  lemma {:induction false} ReuseIsLost(h: History, since: nat, id: Id, t: nat, u: nat, v: nat)
    requires since <= t < u < v && id in h(t) && id !in h(u) && id in h(v)
    ensures !SyncsHonestly(h, since)
  {
    var answer, pages, i := ReusePages(h, since, id, t, u, v);
    var delta := SomeSummary(since, pages);
    BothIsNeither(since, pages, i, i + 1, id, delta);
    UnseenIsDishonest(h, since, id, u, v);
    assert SyncGives(h, since, answer, delta);
  }

  lemma {:induction false} UnseenIsDishonest(h: History, since: nat, id: Id, u: nat, v: nat)
    requires since <= u < v && id !in h(u) && id in h(v)
    ensures !HonestAbout(h, since, v, UNSEEN, id)
  {
    if id in h(since) {
      assert Lookup(h(u), id) != Lookup(h(since), id);
      assert Changed(h, since, v, id);
    }
  }

  /** The syncs from a state on are right exactly if no id that disappears at or after it comes back. */
  lemma {:induction false} SyncsHonestlyExactly(h: History, since: nat)
    ensures SyncsHonestly(h, since) <==> NoReuse(h, since)
  {
    if NoReuse(h, since) {
      forall answer, delta | SyncGives(h, since, answer, delta)
        ensures Honest(h, since, delta)
      {
        FoldIsHonest(h, since, Pages(answer, 0, since).value, delta);
      }
    } else {
      var id, t: nat, u: nat, v: nat :| since <= t < u < v && id in h(t) && id !in h(u) && id in h(v);
      ReuseIsLost(h, since, id, t, u, v);
    }
  }

  /** Such a server: two honest pages, one that destroys an object and one that creates it again,
      fold to an empty change set. */
  lemma {:induction false} ReuseExample(id: Id, before: Object, after: Object) returns (h: History, pages: seq<Response>)
    requires before != after
    ensures HonestPages(h, 0, pages) && h(0) == map[id := before] && h(2) == map[id := after]
    ensures forall delta :: Summarises(delta, 0, pages) ==> delta == ChangeSet(2, {}, {}, {})
  {
    h := (t: nat) => if t == 0 then map[id := before] else if t == 1 then map[] else map[id := after];
    var p, q := Response(1, true, [], [], [id]), Response(2, false, [id], [], []);
    pages := [p, q];
    assert pages[1..] == [q] && pages[1..][1..] == [];
    assert id in h(0) && id in h(2);
    forall x
      ensures HonestAbout(h, 0, 1, InPage(p, x), x) && HonestAbout(h, 1, 2, InPage(q, x), x)
    {
      assert forall t: nat :: x != id ==> x !in h(t);
    }
    assert HonestPages(h, 1, [q]);
    forall delta | Summarises(delta, 0, pages)
      ensures delta == ChangeSet(2, {}, {}, {})
    {
      forall x
        ensures InDelta(delta, x) == UNSEEN
      {
        assert InDelta(delta, x) == Settled(Over(pages, x));
        assert Over([q], x) == Either(InPage(q, x), Over([q][1..], x));
        assert Over(pages, x) == Either(InPage(p, x), Over(pages[1..], x));
      }
      assert forall x :: x in delta.created ==> InDelta(delta, x).created;
      assert forall x :: x in delta.updated ==> InDelta(delta, x).updated;
      assert forall x :: x in delta.destroyed ==> InDelta(delta, x).destroyed;
    }
  }

  // ---------------------------------------------------------------------------
  // The objects of one collection

  /** Whether the object is filed in `own`. A false entry is a protocol violation. */
  function Holds(o: Object, own: Id): (r: Result<bool>) {
    match o.membership
    case None => Ok(false)
    case Some(members) => if own !in members then Ok(false) else if members[own] then Ok(true) else Err(FalseMembership)
  }

  predicate In(o: Object, own: Id) {
    Holds(o, own) == Ok(true)
  }

  /** The collection as a cache should show it. */
  function View(store: Store, own: Id): (v: map<Id, string>) {
    map id | id in store && In(store[id], own) :: store[id].text
  }

  datatype Listed = Listed(id: Option<Id>, item: Object)

  datatype GetResponse = GetResponse(list: seq<Listed>, notFound: seq<Id>)

  datatype Changes = Changes(newState: nat, changed: seq<(Id, string)>, removed: seq<Id>)

  /** The answer of `/get` for `ids` from `store`. */
  ghost predicate HonestGet(response: GetResponse, ids: set<Id>, store: Store) {
    && (forall l :: l in response.list ==> l.id.Some? && l.id.value in ids && l.id.value in store && l.item == store[l.id.value])
    && (forall id :: id in ids && id in store ==> Listed(Some(id), store[id]) in response.list)
    && (forall id :: id in response.notFound <==> id in ids && id !in store)
  }

  predicate Malformed(l: Listed, own: Id) {
    l.id.None? || Holds(l.item, own).Err?
  }

  ghost predicate ListedInside(list: seq<Listed>, own: Id, id: Id, text: string) {
    exists l :: l in list && l.id == Some(id) && l.item.text == text && In(l.item, own)
  }

  ghost predicate ListedOutside(list: seq<Listed>, own: Id, id: Id) {
    exists l :: l in list && l.id == Some(id) && !In(l.item, own)
  }

  ghost predicate SomeMalformed(list: seq<Listed>, own: Id) {
    exists l :: l in list && Malformed(l, own)
  }

  ghost predicate SomeUnrendered(list: seq<Listed>, own: Id, renders: Object -> bool) {
    exists l :: l in list && In(l.item, own) && !renders(l.item)
  }

  /** The changed and the removed objects of the collection `own`. An updated object that is not
      in it may have moved out, so it is removed; a created one was never in it. A created or
      updated id that `/get` does not find is removed if it existed before. */
  ghost predicate Classified(delta: ChangeSet, own: Id, response: GetResponse, changes: Changes) {
    && changes.newState == delta.newState
    && (forall id, text :: (id, text) in changes.changed <==> ListedInside(response.list, own, id, text))
    && (forall id :: id in changes.removed <==>
          || id in delta.destroyed
          || (id in delta.updated && (id in response.notFound || ListedOutside(response.list, own, id))))
  }

  /** Turns a change set into the lists for the cache; `get` is what the server answers if it is
      asked. With nothing created or updated it is not asked. A request that fails, a malformed object,
      or one of the collection that does not render fails the whole sync. */
  method Classify(delta: ChangeSet, destroyed: seq<Id>, own: Id, get: Result<GetResponse>, renders: Object -> bool)
    returns (r: Result<Changes>)
    requires forall id :: id in destroyed <==> id in delta.destroyed
    ensures delta.created + delta.updated == {} ==> r.Ok? && Classified(delta, own, GetResponse([], []), r.value)
    ensures delta.created + delta.updated != {} && get.Err? ==> r == Err(get.error)
    ensures delta.created + delta.updated != {} && get.Ok? ==>
              && (r.Err? <==> SomeMalformed(get.value.list, own) || SomeUnrendered(get.value.list, own, renders))
              && (r.Ok? ==> Classified(delta, own, get.value, r.value))
  {
    var removed, changed: seq<(Id, string)> := destroyed, [];
    if delta.created + delta.updated != {} {
      if get.Err? {
        return Err(get.error);
      }
      var response := get.value;
      for k := 0 to |response.list|
        invariant !SomeMalformed(response.list[..k], own)
        invariant !SomeUnrendered(response.list[..k], own, renders)
        invariant forall id, text :: (id, text) in changed <==> ListedInside(response.list[..k], own, id, text)
        invariant forall id :: id in removed <==>
                    id in delta.destroyed || (id in delta.updated && ListedOutside(response.list[..k], own, id))
      {
        var listed := response.list[k];
        assert response.list[..k + 1] == response.list[..k] + [listed];
        if Malformed(listed, own) {
          assert SomeMalformed(response.list, own);
        }
        if listed.id.None? {
          return Err(ObjectWithoutId);
        }
        var id := listed.id.value;
        match Holds(listed.item, own) {
          case Err(e) =>
            return Err(e);
          case Ok(inside) =>
            if inside && !renders(listed.item) {
              return Err(RenderFailed);
            } else if inside {
              changed := changed + [(id, listed.item.text)];
            } else if id in delta.updated {
              removed := removed + [id];
            }
        }
        OneMore(response.list, k, own);
        OneMoreUnrendered(response.list, k, own, renders);
      }
      assert response.list[..|response.list|] == response.list;
      for k := 0 to |response.notFound|
        invariant forall id :: id in removed <==>
                    || id in delta.destroyed
                    || (id in delta.updated && (id in response.notFound[..k] || ListedOutside(response.list, own, id)))
      {
        if response.notFound[k] in delta.updated {
          removed := removed + [response.notFound[k]];
        }
      }
      assert response.notFound[..|response.notFound|] == response.notFound;
    }
    return Ok(Changes(delta.newState, changed, removed));
  }

  lemma {:induction false} OneMoreUnrendered(list: seq<Listed>, k: nat, own: Id, renders: Object -> bool)
    requires k < |list|
    ensures SomeUnrendered(list[..k + 1], own, renders) <==>
              SomeUnrendered(list[..k], own, renders) || (In(list[k].item, own) && !renders(list[k].item))
  {
    assert forall l :: l in list[..k + 1] <==> l in list[..k] || l == list[k];
  }

  lemma {:induction false} Prefix(list: seq<Listed>, k: nat, l: Listed)
    requires k < |list|
    ensures l in list[..k + 1] <==> l in list[..k] || l == list[k]
  {
  }

  lemma {:induction false} OneMoreInside(list: seq<Listed>, k: nat, own: Id, id: Id, text: string)
    requires k < |list|
    ensures ListedInside(list[..k + 1], own, id, text) <==>
              || ListedInside(list[..k], own, id, text)
              || (list[k].id == Some(id) && list[k].item.text == text && In(list[k].item, own))
  {
  }

  lemma {:induction false} OneMoreOutside(list: seq<Listed>, k: nat, own: Id, id: Id)
    requires k < |list|
    ensures ListedOutside(list[..k + 1], own, id) <==>
              ListedOutside(list[..k], own, id) || (list[k].id == Some(id) && !In(list[k].item, own))
  {
  }

  lemma {:induction false} OneMore(list: seq<Listed>, k: nat, own: Id)
    requires k < |list|
    ensures SomeMalformed(list[..k + 1], own) <==> SomeMalformed(list[..k], own) || Malformed(list[k], own)
    ensures forall id, text :: ListedInside(list[..k + 1], own, id, text) <==>
              || ListedInside(list[..k], own, id, text)
              || (list[k].id == Some(id) && list[k].item.text == text && In(list[k].item, own))
    ensures forall id :: ListedOutside(list[..k + 1], own, id) <==>
              ListedOutside(list[..k], own, id) || (list[k].id == Some(id) && !In(list[k].item, own))
  {
    Prefix(list, k, list[k]);
    assert forall l :: l in list[..k + 1] <==> l in list[..k] || l == list[k] by {
      forall l { Prefix(list, k, l); }
    }
    forall id, text { OneMoreInside(list, k, own, id, text); }
    forall id { OneMoreOutside(list, k, own, id); }
  }

  // ---------------------------------------------------------------------------
  // The cache

  type Cache = map<Id, string>

  function Stored(cache: Cache, changed: seq<(Id, string)>): (r: Cache) {
    if changed == [] then cache
    else Stored(cache, changed[..|changed| - 1])[changed[|changed| - 1].0 := changed[|changed| - 1].1]
  }

  /** The cache after the changes: the changed objects are stored, then the removed ones go. */
  function Apply(cache: Cache, changes: Changes): (r: Cache) {
    Stored(cache, changes.changed) - (set id | id in changes.removed)
  }

  lemma {:induction false} StoredAt(cache: Cache, changed: seq<(Id, string)>, id: Id, text: Option<string>)
    requires forall t :: (id, t) in changed ==> text == Some(t)
    requires text.Some? ==> (id, text.value) in changed
    ensures Lookup(Stored(cache, changed), id) == if text.Some? then text else Lookup(cache, id)
    decreases |changed|
  {
    if changed != [] {
      var before, last := changed[..|changed| - 1], changed[|changed| - 1];
      assert changed == before + [last];
      if last.0 != id {
        StoredAt(cache, before, id, text);
      } else if (id, last.1) in before {
        StoredAt(cache, before, id, text);
      }
    }
  }

  /** The cache belongs to the state `tag` that the next delta starts from: every id that it shows
      otherwise than the collection was then has changed since, and every id in it existed then. */
  ghost predicate InSync(h: History, own: Id, cache: Cache, tag: nat, now: nat) {
    && tag <= now
    && cache.Keys <= h(tag).Keys
    && forall id :: Lookup(cache, id) != Lookup(View(h(tag), own), id) ==> Changed(h, tag, now, id)
  }

  lemma {:induction false} DeltaAt(h: History, own: Id, cache: Cache, tag: nat, now: nat, delta: ChangeSet, got: nat,
                                   response: GetResponse, changes: Changes, id: Id)
    requires InSync(h, own, cache, tag, now) && now <= delta.newState <= got
    requires Honest(h, tag, delta) && Disjoint(delta)
    requires HonestGet(response, delta.created + delta.updated, h(got)) && Classified(delta, own, response, changes)
    ensures Lookup(Apply(cache, changes), id) ==
            if id in delta.created + delta.updated then Lookup(View(h(got), own), id)
            else Lookup(View(h(delta.newState), own), id)
    ensures id in Apply(cache, changes) ==> id in h(delta.newState)
  {
    assert HonestAbout(h, tag, delta.newState, InDelta(delta, id), id);
    if id in delta.created + delta.updated {
      if id in h(got) {
        var listed := Listed(Some(id), h(got)[id]);
        assert listed in response.list;
        assert id !in response.notFound;
        if In(h(got)[id], own) {
          assert ListedInside(response.list, own, id, h(got)[id].text);
          StoredAt(cache, changes.changed, id, Some(h(got)[id].text));
        } else {
          assert ListedOutside(response.list, own, id);
          StoredAt(cache, changes.changed, id, None);
        }
      } else {
        StoredAt(cache, changes.changed, id, None);
      }
    } else {
      StoredAt(cache, changes.changed, id, None);
      if !Changed(h, tag, delta.newState, id) {
        assert Lookup(h(delta.newState), id) == Lookup(h(tag), id);
      }
    }
  }

  /** A delta keeps the cache in sync, whatever the server did since the last one and between
      `/changes` and `/get`. If nothing changed between those two, the cache then is exactly the
      collection, as a new listing would give it. */
  lemma {:induction false} DeltaKeepsInSync(h: History, own: Id, cache: Cache, tag: nat, now: nat, delta: ChangeSet, got: nat,
                                            response: GetResponse, changes: Changes)
    requires InSync(h, own, cache, tag, now) && now <= delta.newState <= got
    requires Honest(h, tag, delta) && Disjoint(delta)
    requires HonestGet(response, delta.created + delta.updated, h(got)) && Classified(delta, own, response, changes)
    ensures InSync(h, own, Apply(cache, changes), delta.newState, got)
    ensures got == delta.newState ==> Apply(cache, changes) == View(h(got), own)
  {
    var after, b := Apply(cache, changes), delta.newState;
    forall id
      ensures id in after ==> id in h(b)
      ensures Lookup(after, id) != Lookup(View(h(b), own), id) ==> Changed(h, b, got, id)
      ensures got == b ==> Lookup(after, id) == Lookup(View(h(got), own), id)
    {
      DeltaAt(h, own, cache, tag, now, delta, got, response, changes, id);
      assert Lookup(h(got), id) != Lookup(h(b), id) ==> Changed(h, b, got, id);
    }
    if got == b {
      MapEquality(after, View(h(got), own));
    }
  }

  lemma {:induction false} MapEquality(m: Cache, n: Cache)
    requires forall id :: Lookup(m, id) == Lookup(n, id)
    ensures m == n
  {
    assert forall id :: id in m <==> Lookup(m, id).Some?;
    assert forall id :: id in n <==> Lookup(n, id).Some?;
    assert m.Keys == n.Keys;
    forall id | id in m
      ensures m[id] == n[id]
    {
      assert Lookup(m, id) == Lookup(n, id);
    }
  }

  /** What `list_existing` puts in the cache: the ids of the collection at the time of the query,
      with the objects that the later `/get` found. */
  function ListCache(h: History, own: Id, query: nat, got: nat): (cache: Cache) {
    map id | id in View(h(query), own) && id in h(got) :: h(got)[id].text
  }

  /** Every listed object existed when the state of the listing was read. */
  ghost predicate NothingCreatedSince(h: History, own: Id, tag: nat, query: nat, got: nat) {
    ListCache(h, own, query, got).Keys <= h(tag).Keys
  }

  /** A listing starts in sync exactly when no listed object was created after its state was read. */
  lemma {:induction false} ListIsInSync(h: History, own: Id, tag: nat, query: nat, got: nat)
    requires tag <= query <= got
    ensures InSync(h, own, ListCache(h, own, query, got), tag, got) <==> NothingCreatedSince(h, own, tag, query, got)
  {
  }

  ghost predicate SameUntil(h: History, h': History, n: nat) {
    forall t: nat :: t <= n ==> h(t) == h'(t)
  }

  /** One later delta, taken while the server is quiet, makes the listed cache exactly the
      collection, whatever the server does after the listing. */
  ghost predicate ListConverges(h: History, own: Id, tag: nat, query: nat, got: nat) {
    forall h': History, delta: ChangeSet, response: GetResponse, changes: Changes ::
      SameUntil(h, h', got) && got <= delta.newState && Honest(h', tag, delta) && Disjoint(delta) &&
      HonestGet(response, delta.created + delta.updated, h'(delta.newState)) && Classified(delta, own, response, changes) ==>
      Apply(ListCache(h, own, query, got), changes) == View(h'(delta.newState), own)
  }

  lemma {:induction false} AsSequence(ids: set<Id>) returns (s: seq<Id>)
    ensures forall id :: id in s <==> id in ids
    decreases |ids|
  {
    if ids == {} {
      s := [];
    } else {
      var id :| id in ids;
      s := AsSequence(ids - {id});
      s := s + [id];
    }
  }

  function Records(ids: seq<Id>, store: Store): (list: seq<Listed>)
    requires forall id :: id in ids ==> id in store
    ensures forall l :: l in list <==> l.id.Some? && l.id.value in ids && l.item == store[l.id.value]
  {
    if ids == [] then []
    else
      assert forall id :: id in ids <==> id == ids[0] || id in ids[1..];
      [Listed(Some(ids[0]), store[ids[0]])] + Records(ids[1..], store)
  }

  function Inside(list: seq<Listed>, own: Id): (changed: seq<(Id, string)>)
    ensures forall id, text :: (id, text) in changed <==> ListedInside(list, own, id, text)
  {
    if list == [] then []
    else
      assert forall l :: l in list <==> l == list[0] || l in list[1..];
      (if list[0].id.Some? && In(list[0].item, own) then [(list[0].id.value, list[0].item.text)] else [])
      + Inside(list[1..], own)
  }

  /** The server can answer, and the answer can be classified. */
  lemma {:induction false} SomeAnswer(delta: ChangeSet, own: Id, store: Store) returns (response: GetResponse, changes: Changes)
    ensures HonestGet(response, delta.created + delta.updated, store) && Classified(delta, own, response, changes)
  {
    var ids := delta.created + delta.updated;
    var found := AsSequence(ids * store.Keys);
    var missing := AsSequence(ids - store.Keys);
    response := GetResponse(Records(found, store), missing);
    var gone := set id | id in delta.updated && (id in missing || ListedOutside(response.list, own, id));
    var removed := AsSequence(delta.destroyed + gone);
    changes := Changes(delta.newState, Inside(response.list, own), removed);
  }

  lemma {:induction false} PlainDeltaIsHonest(h: History, tag: nat, b: nat, delta: ChangeSet)
    requires delta == ChangeSet(b, h(b).Keys - h(tag).Keys, h(tag).Keys * h(b).Keys, h(tag).Keys - h(b).Keys)
    requires tag <= b
    ensures Honest(h, tag, delta)
  {
  }

  /** An object that the changes do not name stays in the cache. */
  lemma {:induction false} UnnamedStays(cache: Cache, delta: ChangeSet, own: Id, response: GetResponse, changes: Changes, store: Store, id: Id)
    requires HonestGet(response, delta.created + delta.updated, store) && Classified(delta, own, response, changes)
    requires id in cache && id !in delta.created && id !in delta.updated && id !in delta.destroyed
    ensures id in Apply(cache, changes)
  {
    forall text
      ensures (id, text) !in changes.changed
    {
      assert (id, text) in changes.changed ==> ListedInside(response.list, own, id, text);
    }
    StoredAt(cache, changes.changed, id, None);
  }

  /** After the listing the server destroys `id` and nothing else, and leaves it out of the
      answer because it was created after the state: the cache shows it from then on. */
  lemma {:induction false} CreatedSinceStays(h: History, own: Id, tag: nat, query: nat, got: nat, id: Id)
    requires tag <= query <= got && id in ListCache(h, own, query, got) && id !in h(tag)
    ensures !ListConverges(h, own, tag, query, got)
  {
    var gone := h(got) - {id};
    var h': History := (t: nat) => if t <= got then h(t) else gone;
    var b := got + 1;
    var delta := ChangeSet(b, gone.Keys - h(tag).Keys, h(tag).Keys * gone.Keys, h(tag).Keys - gone.Keys);
    assert h'(tag) == h(tag) && h'(b) == gone;
    PlainDeltaIsHonest(h', tag, b, delta);
    var response, changes := SomeAnswer(delta, own, h'(b));
    UnnamedStays(ListCache(h, own, query, got), delta, own, response, changes, h'(b), id);
    assert id !in View(h'(b), own);
    assert SameUntil(h, h', got);
  }

  /** The exact condition for a listing to converge: no listed object was created between the
      reading of the state and the query. */
  lemma {:induction false} ListConvergesExactly(h: History, own: Id, tag: nat, query: nat, got: nat)
    requires tag <= query <= got
    ensures ListConverges(h, own, tag, query, got) <==> NothingCreatedSince(h, own, tag, query, got)
  {
    var cache := ListCache(h, own, query, got);
    if NothingCreatedSince(h, own, tag, query, got) {
      forall h': History, delta: ChangeSet, response: GetResponse, changes: Changes |
        SameUntil(h, h', got) && got <= delta.newState && Honest(h', tag, delta) && Disjoint(delta) &&
        HonestGet(response, delta.created + delta.updated, h'(delta.newState)) && Classified(delta, own, response, changes)
        ensures Apply(cache, changes) == View(h'(delta.newState), own)
      {
        assert ListCache(h', own, query, got) == cache;
        ListIsInSync(h', own, tag, query, got);
        DeltaKeepsInSync(h', own, cache, tag, got, delta, delta.newState, response, changes);
      }
    } else {
      var id :| id in cache && id !in h(tag);
      CreatedSinceStays(h, own, tag, query, got, id);
    }
  }
}
