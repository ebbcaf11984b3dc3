/**
 Whole runs of the synchronisation of one collection.

 A backend lists the collection when it has no tag and when the server cannot tell what changed since
 the tag. Otherwise it applies the changes. A failed synchronisation leaves cache and tag as they are.
 The server goes on changing throughout.
 */
module SyncRuns {
  import opened ChangeSync
  import opened Options

  /** The cache, the tag that it belongs to, and the time of the last request. */
  datatype Local = Local(cache: Cache, tag: Option<nat>, now: nat)

  /** A listing reads its state at `tag`, its ids at `query` and its objects at `got`. It follows on a
      refused request for the changes, or is the first thing that the backend does. */
  datatype Sync =
    | Listing(tag: nat, query: nat, got: nat)
    | Reported(pages: seq<Response>, delta: ChangeSet, got: nat, response: GetResponse, changes: Changes)
    | Failed(at: nat)

  ghost predicate Enabled(h: History, own: Id, s: Local, sync: Sync) {
    match sync
    case Listing(tag, query, got) => s.now <= tag <= query <= got
    case Reported(pages, delta, got, response, changes) =>
      && s.tag.Some? && s.now <= delta.newState <= got
      && HonestPages(h, s.tag.value, pages) && Summarises(delta, s.tag.value, pages)
      && HonestGet(response, delta.created + delta.updated, h(got)) && Classified(delta, own, response, changes)
    case Failed(at) => s.now <= at
  }

  function After(h: History, own: Id, s: Local, sync: Sync): (r: Local) {
    match sync
    case Listing(tag, query, got) => Local(ListCache(h, own, query, got), Some(tag), got)
    case Reported(_, delta, got, _, changes) => Local(Apply(s.cache, changes), Some(delta.newState), got)
    case Failed(at) => s.(now := at)
  }

  ghost predicate Legal(h: History, own: Id, syncs: seq<Sync>)
    decreases |syncs|, 0
  {
    syncs == [] ||
    (&& Legal(h, own, syncs[..|syncs| - 1])
     && Enabled(h, own, Run(h, own, syncs[..|syncs| - 1]), syncs[|syncs| - 1]))
  }

  /** A backend starts with an empty cache and no tag. */
  function Run(h: History, own: Id, syncs: seq<Sync>): (s: Local)
    decreases |syncs|, 1
  {
    if syncs == [] then Local(map[], None, 0)
    else After(h, own, Run(h, own, syncs[..|syncs| - 1]), syncs[|syncs| - 1])
  }

  /** The last listing of the run, if there was one, listed nothing that was created after its state. */
  ghost predicate ListedWell(h: History, own: Id, syncs: seq<Sync>) {
    syncs != [] ==>
      match syncs[|syncs| - 1]
      case Listing(tag, query, got) => NothingCreatedSince(h, own, tag, query, got)
      case _ => ListedWell(h, own, syncs[..|syncs| - 1])
  }

  /** The state of the last listing of the run. */
  function ListedAt(syncs: seq<Sync>): (tag: nat) {
    if syncs == [] then 0
    else match syncs[|syncs| - 1]
      case Listing(tag, _, _) => tag
      case _ => ListedAt(syncs[..|syncs| - 1])
  }

  lemma {:induction false} LaterInSync(h: History, own: Id, cache: Cache, tag: nat, now: nat, later: nat)
    requires InSync(h, own, cache, tag, now) && now <= later
    ensures InSync(h, own, cache, tag, later)
  {
    forall id | Changed(h, tag, now, id)
      ensures Changed(h, tag, later, id)
    {
      var t :| tag <= t <= now && Lookup(h(t), id) != Lookup(h(tag), id);
      assert tag <= t <= later;
    }
  }

  ghost predicate Good(h: History, own: Id, s: Local) {
    s.tag.Some? ==> InSync(h, own, s.cache, s.tag.value, s.now)
  }

  lemma {:induction false} ReportKeeps(h: History, own: Id, s: Local, sync: Sync)
    requires Good(h, own, s) && Enabled(h, own, s, sync) && sync.Reported? && NoReuse(h, s.tag.value)
    ensures Good(h, own, After(h, own, s, sync))
    ensures sync.got == sync.delta.newState ==> After(h, own, s, sync).cache == View(h(sync.got), own)
  {
    FoldIsHonest(h, s.tag.value, sync.pages, sync.delta);
    DeltaKeepsInSync(h, own, s.cache, s.tag.value, s.now, sync.delta, sync.got, sync.response, sync.changes);
  }

  /** In every run, however listings, deltas, refusals and failures follow one another, the cache is in
      sync with its tag, if the last listing was and the server reused no id since. */
  lemma {:induction false} RunInSync(h: History, own: Id, syncs: seq<Sync>)
    requires NoReuse(h, ListedAt(syncs)) && Legal(h, own, syncs) && ListedWell(h, own, syncs)
    ensures Good(h, own, Run(h, own, syncs))
    ensures Run(h, own, syncs).tag.Some? ==> ListedAt(syncs) <= Run(h, own, syncs).tag.value
  {
    if syncs != [] {
      var before, last := syncs[..|syncs| - 1], syncs[|syncs| - 1];
      var s := Run(h, own, before);
      match last {
        case Listing(tag, query, got) =>
          ListIsInSync(h, own, tag, query, got);
        case Reported(_, _, _, _, _) =>
          RunInSync(h, own, before);
          ReportKeeps(h, own, s, last);
        case Failed(at) =>
          RunInSync(h, own, before);
          if s.tag.Some? {
            LaterInSync(h, own, s.cache, s.tag.value, s.now, at);
          }
      }
    }
  }

  lemma {:induction false} LegalPrefix(h: History, own: Id, syncs: seq<Sync>, n: nat)
    requires Legal(h, own, syncs) && n <= |syncs|
    ensures Legal(h, own, syncs[..n])
    decreases |syncs|
  {
    if n < |syncs| {
      assert syncs[..|syncs| - 1][..n] == syncs[..n];
      LegalPrefix(h, own, syncs[..|syncs| - 1], n);
    } else {
      assert syncs[..n] == syncs;
    }
  }

  lemma {:induction false} QuietLast(h: History, own: Id, syncs: seq<Sync>, last: Sync)
    requires NoReuse(h, ListedAt(syncs)) && syncs != [] && Legal(h, own, syncs) && ListedWell(h, own, syncs)
    requires syncs[|syncs| - 1] == last && last.Reported? && last.got == last.delta.newState
    ensures Run(h, own, syncs).cache == View(h(last.got), own)
  {
    RunInSync(h, own, syncs[..|syncs| - 1]);
    ReportKeeps(h, own, Run(h, own, syncs[..|syncs| - 1]), last);
  }

  /** In every run, after each delta during which the server was quiet the cache is the collection. */
  lemma {:induction false} QuietDeltaConverges(h: History, own: Id, syncs: seq<Sync>, k: nat)
    requires Legal(h, own, syncs) && k < |syncs| && ListedWell(h, own, syncs[..k + 1]) && NoReuse(h, ListedAt(syncs[..k + 1]))
    requires syncs[k].Reported? && syncs[k].got == syncs[k].delta.newState
    ensures Run(h, own, syncs[..k + 1]).cache == View(h(syncs[k].got), own)
  {
    LegalPrefix(h, own, syncs, k + 1);
    QuietLast(h, own, syncs[..k + 1], syncs[k]);
  }
}
