# A Dafny model of evolution-jmap

evolution-jmap connects GNOME Evolution to JMAP servers: a meta backend for address books, one for
calendars, a collection backend that creates the sources of an account, and build tools beside them.
This project models the parts of it that keep state over time or that must agree with one another,
and proves what they promise.

* `PushRefresh`: push threads, the serial operation queue and the main loop, with two locks taken in
  opposite order. No push is lost, at most one refresh waits, and a deadlock needs a wait that timed
  out.
* `ChangeSync`: the pages of `/changes`, their fold into one change set, its classification and its
  effect on the cache, against a server that goes on changing.
* `SyncRuns`: every sequence of listings, deltas, refusals and failures of a backend.
* `SaveMerge`: the patch of an edit as a three-way merge, over any comparison that obeys a law, and
  concurrent savers guarded by `ifInState`.
* `JsonPointer`, `EntryPatch`: writes at text paths that a server takes in any order, and the patch of a
  keyed map of a card.
* `EntryCompare`, `ServiceCompare`, `AnniversaryCompare`: which addresses, online services and
  anniversaries a line states, how two of them are compared, and what a save leaves of them.
* `CardMerge`, `CardDiffs`: a card of several such maps obeys the law, so that its concurrent saves merge
  entry by entry, and every pair of cards has a comparison.
* `EditStamp`, `KeptVersions`, `EditProtocol`: the stamp that names the base of an edit, the versions
  that the cache keeps, and every sequence of loads, refreshes and saves over them.
* `Revision`: the FNV-1a change token.
* `SavedCalendar`, `InfoList`: linked lists on the heap, the calendar object of a save and its time
  zones (section 3.2.19 of RFC 5545).
* `ShellView`: the C and the Rust version of the menu extension, and the simulation between them.
* `ChildSource`, `Bindings`: the settings of a child source, what they read back as, and the bindings
  that keep them up to date.
* `Retry`, `Authentication`, `ColorBaseline`: the ownership of errors and results over a retry, the
  outcome of an authentication, and the colour handlers that overtake one another.
* `DependencyClosure`, `SourceBlocklist`, `ListCodecs`: the licence closure, the pattern union of the
  bindings, and lists inside strings.
* `Digits`, `Splitting`, `CStrings`, `Options`: numbers as text, texts that a separator cuts, texts that
  cross into C, and absent values, shared by the others.

A network answer, a clock, a random choice or a call into GLib, EDS or GTK is a parameter or a step
that may go either way. A protocol between threads is a state machine: `Enabled` says which steps are
possible, `After` what they do, `Run` what a list of steps leads to, and the theorems hold for every
legal list. Code that changes objects is a class whose methods are proved against functions on values.

## Where the code does less than it says

* `ChangeSync.ListConvergesExactly`: the comment on `list_existing`
  (rust/crates/jmap-book-sync/src/lib.rs:136-142) calls an early state harmless. It is not: an object
  that is created after the state is read, listed, and then destroyed is never reported as destroyed
  to that state, and stays in the cache. The lemma gives the exact condition.
* `ChangeSync.SyncsHonestlyExactly`: the fold of the pages is right, for all honest pages from a state on,
  exactly if the server uses no id again after it. `ChangeSync.ReuseExample` is a server that does.
* `EditStamp.RoundTrip`: a text that ends with an END line with a carriage return and no line feed loses
  that line. The lemma gives the exact condition, `EditStamp.BareReturnExample` such a text.
* `KeptVersions.ExtraRoundTrip`: an extra of one version that is empty or begins with a bracket does not
  read back. `KeptVersions.ArrayIsTakenApart` has such texts. Rendered objects begin with `BEGIN`.
* `EditProtocol.OwnVersionIsTheBase`: a version with a NUL is not kept as it came, so an editor that
  opened it may find no base and be refused. `EditProtocol.KeptAsItCame` gives the exact condition,
  `EditProtocol.NulIsRefused` such a text.
* `SourceBlocklist.PromiseKeptExactly`: the comment on `blocked_source_types` says first
  (rust/crates/evo-sys/build.rs:518) that the list is the `ESource` half of a pattern of letters only, and
  then (lines 525-528) that it matches every name that starts with `ESource`, up to the exempt ones. It is
  between the two. On names of letters it is exact. A name with a digit or an underscore after the
  character at which it leaves the exempt name is not matched (`SourceBlocklist.DigitSlipsThrough`). That
  character itself may be any, so a name outside the pattern such as `ESource_Abc` is matched
  (`SourceBlocklist.UnderscoreIsBlocked`).
* `ColorBaseline.OvertakenHandlerWins`: the server can end with an older colour although no push failed.
  `ColorBaseline.ConvergesExactly` says when it does not.
* `ChildSource.ChildReadsBack`: a child whose identity holds a NUL reads back as another one, or as none.
  `ChildSource.NulReadsBackAsAnother` has two calendars that read back as the same one.
* `ServiceCompare.LineIsSaved`: a line that moves a handle to another service keeps a URI whose scheme the
  new service does not know, and the entry then states no handle
  (rust/crates/jmap-book-sync/src/patch.rs:985-994). The lemma gives the exact condition,
  `ServiceCompare.MovedHandleExample` such a line.
* `ServiceCompare.ServiceStaysValid`: the comment in `diff_online_services`
  (rust/crates/jmap-book-sync/src/patch.rs:956-958) drops an entry that would be left with neither a user
  nor a URI. An entry with a user is kept without both if the edit states a new handle only by a URI
  (`ServiceCompare.UriAloneExample`). A line always states a user, so only a direct caller of `diff` can
  pass such an edit.
* `AnniversaryCompare.AnniversarySaved`: a point in time on another day is not saved over a day that the
  server holds by its parts (`AnniversaryCompare.PointInTimeIsLost`). A line is read as parts, so this too
  needs a direct caller.
* `ListCodecs.PublishAndRead`: the directories survive exactly if none holds a colon.
  `ListCodecs.ColonSplits` gives those that come back as two.
* `PushRefresh.TimeoutCanDeadlock`: after a wait that times out the two lock orders can block each other
  for ever.

## Model

| member | source | states |
|---|---|---|
| `PushRefresh.InvRun` | rust/crates/jmap-backend-book/src/backend.rs:514-574 | In every interleaving the flag, the holders, the queue, the drain marker and the two locks fit together. |
| `PushRefresh.NoLostPush` | rust/crates/jmap-backend-book/src/backend.rs:514-533 | While no refresh has begun since a push, a thread is about to enqueue one, or one is queued, or one is started and has not begun. |
| `PushRefresh.Coalesced` | rust/crates/jmap-backend-book/src/backend.rs:520-532 | The flag is set exactly while one holder exists, never two, and enqueues exceed starts by at most one. |
| `PushRefresh.DrainedRefreshIsFree` | rust/crates/jmap-backend-book/src/backend.rs:542-574 | After a wait that was signalled, no finish callback of an earlier operation holds or wants a lock while the refresh takes the cache lock and then the view lock. |
| `PushRefresh.DeadlockNeedsTimeout` | rust/crates/jmap-backend-book/src/backend.rs:542-574 | A deadlocked state is reached only by a run in which some wait returned without its signal. |
| `PushRefresh.TimeoutCanDeadlock` | rust/crates/jmap-backend-book/src/backend.rs:551-560 | A run with a timed-out wait that ends in the deadlock. |
| `PushRefresh.DeadlockIsForever` | rust/crates/jmap-backend-book/src/backend.rs:542-574 | No further step ends a deadlock. |
| `PushRefresh.NeverStuck` | rust/crates/jmap-backend-core/src/invoke.rs:68-88 | With no timed-out wait, the operation thread or the main loop can step while a refresh is pending. |
| `PushRefresh.QueuedRefreshBegins` | rust/crates/jmap-backend-book/src/backend.rs:514-574 | In every fair infinite behaviour a queued refresh begins. |
| `PushRefresh.EveryPushIsFollowedByARefresh` | rust/crates/jmap-backend-book/src/backend.rs:502-574 | In every fair infinite behaviour each push is followed by a refresh that begins after it. |
| `ChangeSync.Keep` | rust/crates/jmap-client/src/changes.rs:139-151 | Exactly the flag of one id changes, and only that id is added. |
| `ChangeSync.KeepCharges` | rust/crates/jmap-client/src/limits.rs:63-73 | The budget left is the whole budget minus the number and the bytes of the distinct ids kept. |
| `ChangeSync.Mark` | rust/crates/jmap-client/src/changes.rs:110-118 | Sets one flag on each id of a list, and stops exactly if the distinct ids do not fit the budget. |
| `ChangeSync.AllChanges` | rust/crates/jmap-client/src/changes.rs:98-174 | Succeeds exactly if the pages end within 1024, advance, do not fail and their distinct ids fit the budget, and then gives the canonical change set of all pages; each error names its cause. |
| `ChangeSync.HonestTogether` | rust/crates/jmap-client/src/changes.rs:153-174 | What two honest windows report together is an honest report of the joined window. |
| `ChangeSync.FoldIsHonest` | rust/crates/jmap-client/src/changes.rs:93-174 | With honest pages and ids that are not reused at or after the state, the change set is an honest report of the whole window, and no id is in two of its sets. |
| `ChangeSync.ReuseIsLost` | rust/crates/jmap-client/src/changes.rs:153-174 | If an id comes back after the state, some sync succeeds with honest pages and gives a dishonest change set. |
| `ChangeSync.SyncsHonestlyExactly` | rust/crates/jmap-client/src/changes.rs:93-174 | Every sync from a state on that succeeds with honest pages gives an honest change set, exactly if no id that disappears at or after the state comes back. |
| `ChangeSync.ReuseExample` | rust/crates/jmap-client/src/changes.rs:157-159 | A server on which two honest pages fold to an empty change set although the object changed. |
| `ChangeSync.Classify` | rust/crates/jmap-object-sync/src/lib.rs:129-168 | With nothing created or updated it asks for nothing and cannot fail; a failed request is its error; else it fails exactly on an object without an id or with a false membership or on one of the collection that does not render, and otherwise the changed objects are those listed inside the collection and the removed ones the destroyed, the moved-out and the vanished. |
| `ChangeSync.DeltaKeepsInSync` | rust/crates/jmap-object-sync/src/lib.rs:119-168 | A cache that is in sync stays in sync with the collection after an honest delta, whatever the server does between the requests. |
| `ChangeSync.ListIsInSync` | rust/crates/jmap-book-sync/src/lib.rs:143-156 | A listing is in sync with the state that it read first, if no listed object was created since. |
| `ChangeSync.CreatedSinceStays` | rust/crates/jmap-book-sync/src/lib.rs:133-156 | A listed object that was created after the state was read can stay in the cache for ever. |
| `ChangeSync.ListConvergesExactly` | rust/crates/jmap-book-sync/src/lib.rs:133-156 | A listing followed by any honest delta gives the collection exactly if no listed object was created between the state and the query. |
| `SyncRuns.RunInSync` | rust/crates/jmap-backend-book/src/ops.rs:99-186 | Over every run of listings, deltas, refusals and failures, against a server that goes on changing, the cache is in sync with its tag if its last listing was and no id was reused since. |
| `SyncRuns.QuietDeltaConverges` | rust/crates/jmap-backend-book/src/ops.rs:99-186 | In every such run the cache is exactly the collection after each delta during which the server was quiet. |
| `SaveMerge.ConflictsAreContested` | rust/crates/jmap-book-sync/src/patch.rs:201-215 | For every lawful comparison the conflicts are exactly the properties that the user and another client both changed, to what does not show the same. |
| `SaveMerge.DiffSinceMerges` | rust/crates/jmap-book-sync/src/patch.rs:185-199 | The server takes the limited patch. A property that the user did not change, that already shows what was saved, or that is kept has the value of the server; every other one is saved as its own comparison says. |
| `SaveMerge.PatchMerges` | rust/crates/jmap-object-sync/src/lib.rs:174-208 | The patch is the three-way merge of base, server and edit, and fails exactly if the policy is to fail and a property is contested. |
| `SaveMerge.PlainDiffReplaces` | rust/crates/jmap-object-sync/src/lib.rs:181-187 | Without a base every property that does not show what was saved is saved, and every other stays. |
| `SaveMerge.NothingWritesNothing` | rust/crates/jmap-object-sync/src/lib.rs:188-196 | An edit of nothing writes nothing, whatever changed on the server. |
| `SaveMerge.PlainIsLawful` | rust/crates/jmap-book-sync/src/patch.rs:185-220 | Properties that are compared and sent as a whole obey the law with equality. |
| `SaveMerge.InvRun` | rust/crates/jmap-book-sync/src/lib.rs:277-315 | In every interleaving of savers a computed patch is the patch for the object at the state that guards it, and no save sends more than twice. |
| `SaveMerge.WritesMergeWithTheCurrentObject` | rust/crates/jmap-book-sync/src/lib.rs:265-315 | Every write that comes in time is taken and is the three-way merge with the object of that very moment, so no change of another saver is overwritten unseen. |
| `JsonPointer.SegmentRoundTrip` | rust/crates/jmap-proto/src/text.rs:145-150 | Every key survives escaping and unescaping, and its segment holds no separator. |
| `JsonPointer.PutSucceeds` | rust/crates/jmap-mock/src/patch.rs:19-44 | A write is taken exactly if every segment before the last exists, and then the path reads what was written. |
| `JsonPointer.PutCommutes` | rust/crates/jmap-mock/src/patch.rs:19-44 | Two writes of which neither path is a prefix of the other can change places. |
| `JsonPointer.ChangesApply` | rust/crates/jmap-mock/src/patch.rs:14-47 | Changes that find their parents and are apart are taken in any order; each path reads its value and whatever is apart from all of them is as before. |
| `JsonPointer.ChangesOneOutcome` | rust/crates/jmap-mock/src/patch.rs:14-47 | Any two orders of the same changes give the same object. |
| `EntryPatch.PathReads` | rust/crates/jmap-mock/src/patch.rs:19-26 | The server reads from the text of a path exactly the property, the key and the rest. |
| `EntryPatch.PathsDiffer` | rust/crates/jmap-book-sync/src/patch.rs:1292-1315 | Two paths of a patch never have the same text. |
| `EntryPatch.FreeKey` | rust/crates/jmap-book-sync/src/patch.rs:1309-1318 | The key is free, and is the wanted key or its first free numbered variant; the search ends. |
| `EntryPatch.DiffEntries` | rust/crates/jmap-book-sync/src/patch.rs:1253-1307 | The patch writes the whole property, removes it, or writes by path the changes of kept entries, null for removed ones and for those that the comparison drops, and added ones under distinct free keys, in exactly the stated cases. |
| `EntryPatch.ItemsApply` | rust/crates/jmap-mock/src/patch.rs:14-47 | A server that requires every parent to exist takes such items in any order and gives each key the entry that its own items make. |
| `EntryPatch.SaveMerges` | rust/crates/jmap-book-sync/src/patch.rs:1239-1307 | With a comparison whose paths find their parents and are apart: in whatever order the server takes the patch, it accepts it, keeps every other property and every hidden entry, removes the entries that the edit or the comparison drops, gives each kept one exactly the changes of its comparison, and puts added ones under keys of their own that no entry held. |
| `EntryPatch.SaveHasOneOutcome` | rust/crates/jmap-book-sync/src/patch.rs:1239-1307 | The order in which the server takes the patch makes no difference to the card. |
| `EntryPatch.TailsAreTheEntryDiff` | rust/crates/jmap-book-sync/src/patch.rs:1290-1296 | What goes inside a kept entry is exactly what the entry comparison found. |
| `EntryPatch.UnchangedWritesNothing` | rust/crates/jmap-book-sync/src/patch.rs:1251-1252 | A save of an unchanged card writes nothing, whatever the card hides. |
| `EntryCompare.MergedFlagsAt` | rust/crates/jmap-book-sync/src/patch.rs:1355-1386 | A flag that the mapping can read is as in the edit, one that a line stated and the edit lacks goes, every other stays. |
| `EntryCompare.EmailsAreSound` | rust/crates/jmap-book-sync/src/patch.rs:602-637 | The paths that two addresses differ by find their parents in the old one and are apart. |
| `EntryCompare.EmailSaved` | rust/crates/jmap-book-sync/src/patch.rs:602-637 | A kept address gets the edited address, merged contexts, a rank exactly if the edit has one, the old one first, and keeps every other member. |
| `EntryCompare.EmailsSaved` | rust/crates/jmap-book-sync/src/patch.rs:602-637 | In whatever order the server takes the patch of the addresses, it accepts it; hidden ones stay, kept ones are saved member by member, those that the edit leaves out are gone, new ones are added under keys of their own, and there are no others. |
| `ServiceCompare.ServicesAreSound` | rust/crates/jmap-book-sync/src/patch.rs:939-998 | The server can take what two online services differ by, also where the comparison drops the entry. |
| `ServiceCompare.UriReadsBack` | rust/crates/jmap-vcard/src/contact.rs:646-691 | The URI that is built for a handle reads back as that handle, at every spelling of the service. |
| `ServiceCompare.ServiceStaysValid` | rust/crates/jmap-book-sync/src/patch.rs:953-985 | A kept entry has a user or a URI exactly if its handle did not change, the new handle gets a URI, or the edit names a user. |
| `ServiceCompare.LineIsSaved` | rust/crates/jmap-book-sync/src/patch.rs:939-998 | A line leaves a valid entry with its service. The entry states the handle of the line exactly if the handle changed, or the entry has a user, or its URI states the handle also at the service of the line. |
| `ServiceCompare.UriAloneIsLost` | rust/crates/jmap-book-sync/src/patch.rs:964-984 | A new handle that is stated only by a URI leaves an entry that had a user with neither. |
| `ServiceCompare.UriAloneExample` | rust/crates/jmap-book-sync/src/patch.rs:964-984 | Such an edit. |
| `ServiceCompare.MovedHandleIsLost` | rust/crates/jmap-book-sync/src/patch.rs:985-994 | A handle that moves to a service without the scheme of its URI is no longer stated. |
| `ServiceCompare.MovedHandleExample` | rust/crates/jmap-book-sync/src/patch.rs:985-994 | Such a line. |
| `AnniversaryCompare.AnniversariesAreSound` | rust/crates/jmap-book-sync/src/patch.rs:1000-1044 | A shown anniversary has a date to write into, so that the server can take the parts of another day. |
| `AnniversaryCompare.AnniversarySaved` | rust/crates/jmap-book-sync/src/patch.rs:1016-1042 | A kept anniversary states the edited kind, and the edited day exactly if the day did not change, or the server had a point in time to replace, or the parts of the edit make the day. |
| `AnniversaryCompare.LineIsSaved` | rust/crates/jmap-book-sync/src/patch.rs:1016-1042 | Every edit of a line is saved, kind and day, also to a day that no line can state. |
| `AnniversaryCompare.PointInTimeIsLost` | rust/crates/jmap-book-sync/src/patch.rs:1027-1041 | A point in time on another day is not saved over a day that the server holds by its parts. |
| `AnniversaryCompare.OtherPartStays` | rust/crates/jmap-book-sync/src/patch.rs:1027-1041 | A member of the date that is no part of the day stays. |
| `CardMerge.EmptyExactly` | rust/crates/jmap-book-sync/src/patch.rs:1253-1307 | The patch of a keyed map is empty exactly if both sides show the same. |
| `CardMerge.CardApplies` | rust/crates/jmap-mock/src/patch.rs:14-47 | Items of several properties, mixed in any order, are taken if those of each property are, and the properties do not disturb one another. |
| `CardMerge.CardSaved` | rust/crates/jmap-book-sync/src/patch.rs:118-199 | Any part of the patch of a card is taken in any order, saves the properties that it names entry by entry, and leaves every other property as it was. |
| `CardMerge.CardsAreLawful` | rust/crates/jmap-book-sync/src/patch.rs:118-220 | The comparison of cards names exactly the properties that do not show the same, and obeys the law of the three-way merge. |
| `CardMerge.CardWritesMerge` | rust/crates/jmap-book-sync/src/lib.rs:265-315 | In every interleaving of saves and other writers, and every order of a patch: what the user did not change is as the server had it at that moment, every entry that no line states is as it was, a property of which the server value does not stand is saved entry by entry, and an address member by member. |
| `CardMerge.UnmappedStays` | rust/crates/jmap-vcard/src/contact.rs:634-644 | No save changes or removes a service without a line or an anniversary of a kind that no line states. |
| `CardDiffs.SomeCompares` | rust/crates/jmap-book-sync/src/patch.rs:118-176 | For all comparisons of entries there are a comparison of cards and an order of the server, so that the theorems above are not empty. |
| `EditStamp.JoinLines` | rust/crates/jmap-object-sync/src/edit_base.rs:26-27 | The pieces of a text join to the text, and all but the last end with their one line feed. |
| `EditStamp.Stamp` | rust/crates/jmap-object-sync/src/edit_base.rs:23-40 | Puts a stamp line before each END line of the kind, with the line break of that line. |
| `EditStamp.Unstamp` | rust/crates/jmap-object-sync/src/edit_base.rs:43-64 | Drops stamp lines and their folded continuations and gives the first stamp. |
| `EditStamp.RoundTrip` | rust/crates/jmap-object-sync/src/edit_base.rs:22-70 | Unstamping a stamped text gives back text and revision exactly if the text has no stamp line, has an END line of the kind, and does not end with one with a bare carriage return. |
| `EditStamp.BareReturnLosesALine` | rust/crates/jmap-object-sync/src/edit_base.rs:32-37 | With a bare carriage return at the end the reader loses the END line. |
| `EditStamp.BareReturnExample` | rust/crates/jmap-object-sync/src/edit_base.rs:23-64 | A text that does not survive. |
| `KeptVersions.DecodeEncode` | rust/crates/jmap-object-sync/src/edit_base.rs:87-97 | The JSON array of any texts reads back as these texts. |
| `KeptVersions.MakeExtra` | rust/crates/jmap-object-sync/src/edit_base.rs:77-92 | Builds the extra of the current version and the kept older ones. |
| `KeptVersions.KeptIsRecent` | rust/crates/jmap-object-sync/src/edit_base.rs:72-86 | The kept versions are the first four distinct ones, the current one first. |
| `KeptVersions.ExtraRoundTrip` | rust/crates/jmap-object-sync/src/edit_base.rs:77-103 | An extra gives back its versions exactly if there are two or more, or the one is not empty and does not begin with a bracket. |
| `KeptVersions.ArrayIsTakenApart` | rust/crates/jmap-object-sync/src/edit_base.rs:77-103 | The empty version is lost, and a version that is an array is taken for the versions that it lists. |
| `KeptVersions.ExtraHasNoNul` | rust/crates/jmap-object-sync/src/edit_base.rs:87-91 | An extra holds no NUL exactly if it holds several versions or its one version has none. |
| `EditProtocol.FirstWithFinds` | rust/crates/jmap-object-sync/src/edit_base.rs:114-121 | The lookup finds a kept version with the stamp if there is one, and only such a version. |
| `EditProtocol.KeptAsItCame` | rust/crates/jmap-backend-core/src/marshal.rs:116-127 | A version is kept as it came exactly if it has no NUL or is loaded beside another version. |
| `EditProtocol.ListingStores` | rust/crates/jmap-backend-book/src/marshal.rs:20-84 | What a listing stores is the extra of its node, NULs replaced, after the cached versions were added. |
| `EditProtocol.RunIsSafe` | rust/crates/jmap-backend-book/src/ops.rs:196-409 | Over every run of listings, loads, edits and saves, with the conversions of a text that crosses into C: the extra holds the four most recent distinct versions kept, a stamped save of a cached object has as its base a kept version with its own stamp, and creates and received changes have none. |
| `EditProtocol.RefusedExactly` | rust/crates/jmap-backend-book/src/ops.rs:341-360 | A stamped save is refused exactly if none of the four most recent distinct versions kept has its revision, and then nothing is sent. |
| `EditProtocol.StampNamesOpened` | rust/crates/jmap-backend-cal/src/ops.rs:198-281 | The stamp of an open editor is the revision of the version that it opened. |
| `EditProtocol.OwnVersionIsTheBase` | rust/crates/jmap-backend-cal/src/ops.rs:296-420 | In every run an editor saves against the version that it opened exactly if that text is among the four kept ones, and is refused if not, as long as no other of the four has its revision. |
| `EditProtocol.FreshEditorFindsItself` | rust/crates/jmap-backend-book/src/ops.rs:264-278 | After every run, an editor that opens the object right after it came in finds its version exactly if it has no NUL, or was loaded beside another, or an older kept version is the same text; else it is refused. |
| `EditProtocol.FirstListingIsRefused` | rust/crates/jmap-backend-book/src/marshal.rs:20-54 | The first listing of any object with a NUL makes the next save refused, for every revision that tells the object from its kept text. |
| `EditProtocol.NulIsRefused` | rust/crates/jmap-backend-book/src/marshal.rs:20-54 | Such a card. |
| `Revision.RevisionOf` | rust/crates/jmap-object-sync/src/lib.rs:220-227 | The token is the FNV-1a digest in sixteen hexadecimal digits. |
| `Revision.MixedDiffers` | rust/crates/jmap-object-sync/src/lib.rs:222-225 | One mixing step distinguishes states for a byte and bytes for a state. |
| `Revision.OneByteChangesRevision` | rust/crates/jmap-object-sync/src/lib.rs:210-227 | Texts of one length that differ in exactly one byte have different tokens. |
| `Revision.KnownDigests` | rust/crates/jmap-object-sync/src/lib.rs:235-240 | The digests of the empty text and of the letter a. |
| `SavedCalendar.InstanceComponents` | rust/crates/jmap-backend-cal/src/marshal.rs:258-277 | Walks the list and gives the inner components of the nodes that have one, in order. |
| `SavedCalendar.MasterAt` | rust/crates/jmap-backend-cal/src/marshal.rs:284-294 | The position of the first component that is not an occurrence, or the end. |
| `SavedCalendar.ReferencedTzids` | rust/crates/jmap-backend-cal/src/marshal.rs:447-471 | Collects the time zones that the components name. |
| `SavedCalendar.TzidsAre` | rust/crates/jmap-backend-cal/src/marshal.rs:442-471 | They are exactly the non-empty ones that some property names, each once. |
| `SavedCalendar.Calendar.TakeReferencedTimeZones` | rust/crates/jmap-backend-cal/src/marshal.rs:339-370 | The calendar gains the missing definitions, and the flag tells whether it changed. |
| `SavedCalendar.EmbeddedDefines` | rust/crates/jmap-backend-cal/src/marshal.rs:339-370 | Prior content stays, and a zone is defined afterwards exactly if it was, or it is named and has a definition that can be renamed. |
| `SavedCalendar.EmbeddedCounts` | rust/crates/jmap-backend-cal/src/marshal.rs:344-367 | A zone gains one definition if it is named, undefined and resolvable, and else none. |
| `SavedCalendar.EmbeddedIdempotent` | rust/crates/jmap-backend-cal/src/marshal.rs:339-370 | A second pass over the same zones adds nothing. |
| `SavedCalendar.TimeZonesClosed` | rust/crates/jmap-backend-cal/src/marshal.rs:334-370 | After the pass every named zone with a definition is defined, once if it was not before; a defined one gains none; and a repetition changes nothing. |
| `SavedCalendar.WithoutCounts` | rust/crates/jmap-backend-cal/src/marshal.rs:214-218 | Every component but the master is sent as often as it is listed, the master not again. |
| `SavedCalendar.FromInstances` | rust/crates/jmap-backend-cal/src/marshal.rs:198-222 | Nothing exactly if no usable instance lacks a RECURRENCE-ID; else the definitions, the first such instance, and the others in list order. |
| `SavedCalendar.DistinctInstancesSent` | rust/crates/jmap-backend-cal/src/marshal.rs:207-219 | Of distinct instances each is sent once, the master first, the others in list order, and nothing else. |
| `InfoList.BuildList` | rust/crates/jmap-backend-book/src/marshal.rs:33-54 | Prepending from the last to the first gives a list of new, distinct links and infos in input order. |
| `InfoList.MakeInfoList` | rust/crates/jmap-backend-book/src/marshal.rs:33-54 | Each node states UID, revision, stamped vCard and the vCard as its extra, with NULs replaced. |
| `InfoList.RemovedInfoList` | rust/crates/jmap-backend-book/src/marshal.rs:87-99 | Each node states only the UID. |
| `InfoList.KeepVersions` | rust/crates/jmap-backend-book/src/marshal.rs:69-84 | Changes only the extra, only where there is a current and a cached one; links, UIDs, revisions and objects stay. |
| `InfoList.KeepingAdds` | rust/crates/jmap-backend-book/src/marshal.rs:61-84 | The new extra reads back as the current version and then the most recent cached ones. |
| `ShellView.RustExtension.Toggled` | rust/crates/example-module/src/shell_view_extension.rs:185-229 | One toggle of the Rust extension on the shared manager. |
| `ShellView.CExtension.Toggled` | src/m-shell-view-extension.c:67-123 | One toggle of the C extension on the shared manager. |
| `ShellView.ToggleSimulates` | src/m-shell-view-extension.c:87-122 | From states that remember the same, one toggle gives the same merges and the same memory, and leaves no change without an update. |
| `ShellView.VersionsAgree` | rust/crates/example-module/src/shell_view_extension.rs:185-229 | Over every run of toggles of any number of views the two versions have the same merges. |
| `ShellView.MergesAreOwned` | rust/crates/example-module/src/shell_view_extension.rs:194-227 | The live merges are exactly the identifiers that the views hold, one each; a view has one exactly if its last toggle left it active with menus that parse; actions are registered at most once. |
| `ShellView.BothShow` | src/m-shell-view-extension.c:67-123 | The same of the C version. |
| `ChildSource.PortRoundTrip` | rust/crates/jmap-backend-collection/src/child_source.rs:192-203 | A decimal number reads back as a port exactly up to 65535. |
| `ChildSource.Source.Write` | rust/crates/jmap-backend-collection/src/child_source.rs:133-230 | Writes the one property and its extension, or nothing and the reason. |
| `ChildSource.Source.Apply` | rust/crates/jmap-backend-collection/src/child_source.rs:108-126 | Succeeds exactly if every setting is writable; the source then holds the last value written for each property and gained exactly the named extensions; on failure the same for the settings before the first unwritable one. |
| `ChildSource.IdentityIs` | rust/crates/jmap-collection-sync/src/children.rs:247-292 | The resource id is the kind and the identity, and parses back to them exactly if the identity is not empty. |
| `ChildSource.ChildWritten` | rust/crates/jmap-collection-sync/src/child_source.rs:193-228 | Every child of every account can be written in full, and each field holds its own value; an absent value leaves no property. |
| `ChildSource.SettingsGroups` | rust/crates/jmap-collection-sync/src/child_source.rs:193-228 | The settings name the extension of the child's kind and never the other one. |
| `ChildSource.ChildReadsBack` | rust/crates/jmap-backend-collection/src/resource_id.rs:96-116 | A written child reads back under its identity up to the first NUL, and so as itself exactly if the identity is not empty and holds no NUL. |
| `ChildSource.CutReadsBackAsAnother` | rust/crates/jmap-backend-collection/src/resource_id.rs:96-116 | Two collections that differ only behind a NUL read back as the same one. |
| `ChildSource.NulReadsBackAsAnother` | rust/crates/jmap-backend-collection/src/resource_id.rs:96-116 | Two such calendars. |
| `Bindings.Live.FollowCollection` | rust/crates/jmap-backend-collection/src/child_added.rs:122-246 | The child gets the account's values and bindings for the groups that both have, and for OAuth 2.0, which it gains if the account has it; the account and other sources stay. |
| `Bindings.AccountIsItsOwn` | rust/crates/jmap-backend-collection/src/child_added.rs:104-166 | Over every run the account keeps its groups and gets values only from its own changes. |
| `Bindings.GroupsAreKept` | rust/crates/jmap-backend-collection/src/child_added.rs:168-226 | A child gains only the OAuth 2.0 group, when it is added and only if the account has it. |
| `Bindings.ChildHoldsLatest` | rust/crates/jmap-backend-collection/src/child_added.rs:104-166 | Over every run each property of each child holds the latest of its addition, the account's changes and its own edits. |
| `Bindings.UneditedFollows` | rust/crates/jmap-backend-collection/src/child_added.rs:104-166 | A bound property that the child never edits equals the account's after every run. |
| `Retry.SetRawError` | rust/crates/jmap-backend-core/src/error.rs:96-109 | The first error stays; one that is not wanted or comes late is freed. |
| `Retry.Attempt` | rust/crates/jmap-backend-book/src/ops.rs:52-89 | One error and no result, or all wanted results at once and no error. |
| `Retry.OnAuthenticationFailure` | rust/crates/jmap-backend-core/src/retry.rs:108-134 | Each wanted result is written exactly once, by the attempt that succeeds, or never; success leaves no error, failure the error of the deciding attempt; nothing stays allocated but what the caller holds. |
| `Authentication.Effects.Authenticate` | rust/crates/jmap-backend-collection/src/authenticate.rs:151-265 | The error is written once exactly if the result is not acceptance; the fan-out happens exactly once if the account can be reached and there is something to log in with, else never; the children get the credentials exactly if it succeeded. A stored secret is discarded exactly if the server refused it, never for OAuth 2.0. A prompt appears exactly if a password is missing, nobody consented, or the server refused a new access token. |
| `ColorBaseline.Backend.SourceChanged` | rust/crates/jmap-backend-cal/src/ops.rs:651-696 | What a handler does under the lock. |
| `ColorBaseline.BaselineIsLastPush` | rust/crates/jmap-backend-cal/src/backend.rs:450-463 | In every interleaving the baseline is the last accepted colour, no accepted colour repeats the one before it, and after the first the server has the baseline. |
| `ColorBaseline.PushesComeFromSource` | rust/crates/jmap-backend-cal/src/backend.rs:455-462 | Only colours that the source had reach the server. |
| `ColorBaseline.FailureIsRetried` | rust/crates/jmap-backend-cal/src/ops.rs:685-694 | In every run, after a push failed and as long as none was accepted since, every handler that holds the lock with that colour pushes it, and it reaches the server if it is accepted. |
| `ColorBaseline.ConvergesExactly` | rust/crates/jmap-backend-cal/src/backend.rs:455-462 | After a first push, if the last handler pushed or had nothing to push, the server has the colour of the source exactly if that handler had read it. |
| `ColorBaseline.OvertakenHandlerWins` | rust/crates/jmap-backend-cal/src/backend.rs:455-462 | Two handlers can leave the server with the older colour. |
| `DependencyClosure.Walk` | tools/generate-debian-copyright.py:207-220 | On every finite graph the walk ends, and gives exactly the packages that some path of one or more normal edges reaches from a root, or the missing node that it met. |
| `DependencyClosure.ThirdParty` | tools/generate-debian-copyright.py:185-237 | Succeeds exactly if every shipped crate is a workspace member, all nodes and packages are there and every stated crate has a licence; states exactly the reachable registry crates. |
| `SourceBlocklist.BlockedSourceTypes` | rust/crates/evo-sys/build.rs:531-543 | The list holds exactly the four patterns of each proper prefix from the base on. |
| `SourceBlocklist.BlockedExactly` | rust/crates/evo-sys/build.rs:518-543 | For any exempt word and base length, a name is matched exactly if it starts with the base, not with the exempt word, and has only letters after the character at which it leaves it. |
| `SourceBlocklist.LettersBlocked` | rust/crates/evo-sys/build.rs:523-530 | A name of letters is matched exactly if it starts with the base and not with the exempt word. |
| `SourceBlocklist.NoOverlap` | rust/crates/evo-sys/build.rs:531-543 | No two patterns match the same name. |
| `SourceBlocklist.PromiseKeptExactly` | rust/crates/evo-sys/build.rs:523-530 | The documented union is reached exactly by the names with letters after they part. |
| `SourceBlocklist.DigitSlipsThrough` | rust/crates/evo-sys/build.rs:531-543 | A name with a digit that the union does not match. |
| `SourceBlocklist.UnderscoreIsBlocked` | rust/crates/evo-sys/build.rs:518-543 | A name that is not of letters and that the list matches. |
| `ListCodecs.ListRoundTrip` | rust/crates/jmap-config/build.rs:47-53 | Non-empty items, also none, survive joining and splitting exactly if no item holds the separator. |
| `ListCodecs.Capabilities` | rust/crates/jmap-backend-cal/src/scheduling.rs:26-42 | The inherited items completed by the required ones. |
| `ListCodecs.CompletedIs` | rust/crates/jmap-backend-book/src/capabilities.rs:20-30 | The inherited items come first and unchanged, then exactly the missing required ones, each once. |
| `ListCodecs.CapabilitiesRead` | rust/crates/jmap-backend-cal/src/scheduling.rs:26-42 | A reader finds that list, and adding the capabilities again changes nothing. |
| `ListCodecs.OwnCapabilities` | rust/crates/jmap-backend-cal/src/scheduling.rs:13-42 | Of the two backends' own capabilities: all are found in the result, whatever was inherited, and a repetition changes nothing. |
| `ListCodecs.Scan` | rust/crates/evo-sys/build.rs:812-831 | Scans the link arguments word by word. |
| `ListCodecs.ScanAllFinds` | rust/crates/evo-sys/build.rs:812-831 | It finds exactly the non-empty directories that a flag names, where every second bare flag of a run is an argument. |
| `ListCodecs.ScanAllKeeps` | rust/crates/evo-sys/build.rs:824-829 | No directory is empty or listed twice. |
| `ListCodecs.PublishAndRead` | rust/crates/evo-sys/build.rs:834-835 | The dependent reads back the scanned list exactly if no directory holds a colon. |
| `ListCodecs.ColonSplits` | rust/crates/evo-sys/build.rs:834-835 | A directory with one colon is read back as two. |

## Left out

- PushRefresh.InvRun: assumes that a finish callback is posted before the next serial operation starts, as the comment in the source does; GLib's dispatch order is the model's.
- PushRefresh.EveryPushIsFollowedByARefresh: holds for fair behaviours in which no wait times out; after a timeout the source only logs a warning.
- ChangeSync.AllChanges: charges an id by its characters, which are its bytes for the ASCII ids of section 1.2 of RFC 8620.
- SaveMerge.PatchMerges: assumes that a property is compared by itself; `CardMerge` shows the law for the keyed maps of a card, not for its name, its members, its keywords or for events.
- CardMerge.CardsAreLawful: takes the comparison of two cards as any function that gives each property what `DiffEntries` gives, and the order of the server as any function of the patch; `CardDiffs.SomeCompares` has both.
- EntryPatch.DiffEntries: takes the entry comparison and the visibility test as parameters and visits the keys in any order, not only in key order; the patch holds paths, and `PathText` gives their text.
- AnniversaryCompare.AnniversarySaved: entries without a key are paired before the comparison (`rekey_keyless`), which is left out.
- ServiceCompare.LineIsSaved: what Unicode says of letters, case and white space is a parameter.
- The comparisons of names, nicknames, phones, organizations, titles, postal addresses, notes, links, calendars, media, relations and keywords: not part of this model.
- EntryPatch.ItemsApply: requires every parent of a path, as section 5.3 of RFC 8620 does, where the mock server creates it.
- EditProtocol.RunIsSafe: the revision is any function of the text; collisions are allowed.
- InfoList.BuildList: the source has this loop once for each kind of list.
- ChildSource.Source.Write: a group or a key is a constructor instead of a name, and an EDS setter stores the text that it is given.
- Bindings.Live.FollowCollection: mail services have rules of their own, which are not part of this model.
- Retry.Attempt: a result is one block of memory; the lists behind it are in `InfoList`.
- DependencyClosure.ThirdParty: gives a set, so the sorting of the notices and their text are left out.
- SourceBlocklist.BlockedExactly: models the three kinds of pattern item that the list uses, not the whole regular-expression language.
- The network client, session discovery, OAuth 2.0 token exchange, secret store and the mock server's requests: answers are parameters.
- The conversions between vCard, iCalendar, JSContact and JSCalendar: large and mostly case by case.
- The mail store, its folders and its message synchronisation: the same delta machinery with other fields.
- The account assistant, the GTK pages and the menus' callbacks: drive toolkits that the model does not contain.
- GObject type registration, reference counts and `unsafe` pointer validity: the model uses references and values.
- Free/busy queries of a calendar, its scheduling flags and the choice of the default collections of an account: not part of this model.
- Build scripts for bindings, version probes and packaging beside the ones above: configuration.
