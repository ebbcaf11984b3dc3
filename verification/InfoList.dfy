/**
 The linked lists in which the book backend hands contacts to the address book.

 `info_list` walks the contacts from the last to the first and prepends, `keep_versions` then edits
 the extra of each node in place. The revision, object and extra of a removed contact are absent.
 */
module InfoList {
  import opened CStrings
  import EditStamp
  import KeptVersions
  import opened Options

  datatype Contact = Contact(uid: string, revision: string, vcard: string)

  datatype Fields = Fields(uid: string, revision: Option<string>, item: Option<string>, extra: Option<string>)

  class Info {
    var uid: string
    var revision: Option<string>
    var item: Option<string>
    var extra: Option<string>

    constructor (fields: Fields)
      ensures Now() == fields
    {
      uid, revision, item, extra := fields.uid, fields.revision, fields.item, fields.extra;
    }

    function Now(): (fields: Fields)
      reads this
    {
      Fields(uid, revision, item, extra)
    }
  }

  class Link {
    var data: Info
    var next: Link?

    constructor (data: Info, next: Link?)
      ensures this.data == data && this.next == next
    {
      this.data, this.next := data, next;
    }
  }

  // ---------------------------------------------------------------------------
  // Lists

  /** The list that starts at `first` has exactly these links. */
  predicate Chain(first: Link?, links: seq<Link>)
    reads links
  {
    if links == [] then first == null
    else first == links[0] && Chain(links[0].next, links[1..])
  }

  /** No link and no info serves two positions. */
  predicate Apart(links: seq<Link>)
    reads links
  {
    forall i, j :: 0 <= i < j < |links| ==> links[i] != links[j] && links[i].data != links[j].data
  }

  ghost function Infos(links: seq<Link>): (infos: set<Info>)
    reads links
  {
    set i | 0 <= i < |links| :: links[i].data
  }

  /** The infos state these fields, in order. */
  predicate States(links: seq<Link>, fields: seq<Fields>)
    reads links, Infos(links)
  {
    |links| == |fields| && forall i :: 0 <= i < |links| ==> links[i].data.Now() == fields[i]
  }

  /** A list of its own objects that states the fields. */
  ghost predicate List(first: Link?, links: seq<Link>, fields: seq<Fields>)
    reads links, Infos(links)
  {
    Chain(first, links) && Apart(links) && States(links, fields)
  }

  /** Puts a new link with a new info before the list. */
  method Prepend(fields: Fields, first: Link?, ghost links: seq<Link>, ghost rest: seq<Fields>)
    returns (link: Link, ghost longer: seq<Link>)
    requires List(first, links, rest)
    ensures longer == [link] + links && fresh(link) && fresh(link.data)
    ensures List(link, longer, [fields] + rest)
  {
    var info := new Info(fields);
    link := new Link(info, first);
    longer := [link] + links;
    assert longer[1..] == links;
    assert Chain(first, links) && Apart(links) && States(links, rest);
    assert forall i :: 0 < i < |longer| ==> longer[i] == links[i - 1];
  }

  /** The stamped vCard, with the vCard itself as the base of an edit. */
  function FieldsOf(contact: Contact): (fields: Fields) {
    Fields(CString(contact.uid),
           Some(CString(contact.revision)),
           Some(CString(EditStamp.Stamped(contact.vcard, "VCARD", contact.revision))),
           Some(CString(contact.vcard)))
  }

  function AllFields(contacts: seq<Contact>): (fields: seq<Fields>) {
    seq(|contacts|, i requires 0 <= i < |contacts| => FieldsOf(contacts[i]))
  }

  /** Builds a list from the last node to the first: new objects, in the order of the input. */
  method BuildList(fields: seq<Fields>) returns (first: Link?, ghost links: seq<Link>)
    ensures List(first, links, fields)
    ensures forall i :: 0 <= i < |links| ==> fresh(links[i]) && fresh(links[i].data)
  {
    first, links := null, [];
    var i := |fields|;
    while i > 0
      invariant 0 <= i <= |fields|
      invariant List(first, links, fields[i..])
      invariant forall k :: 0 <= k < |links| ==> fresh(links[k]) && fresh(links[k].data)
    {
      i := i - 1;
      assert fields[i..] == [fields[i]] + fields[i + 1..];
      first, links := Prepend(fields[i], first, links, fields[i + 1..]);
    }
    assert fields[0..] == fields;
  }

  method MakeInfoList(contacts: seq<Contact>) returns (first: Link?, ghost links: seq<Link>)
    ensures List(first, links, AllFields(contacts))
    ensures forall i :: 0 <= i < |links| ==> fresh(links[i]) && fresh(links[i].data)
  {
    first, links := BuildList(AllFields(contacts));
  }

  /** The list of removed contacts states only their UIDs. */
  method RemovedInfoList(uids: seq<string>) returns (first: Link?, ghost links: seq<Link>)
    ensures List(first, links, seq(|uids|, i requires 0 <= i < |uids| => Fields(CString(uids[i]), None, None, None)))
    ensures forall i :: 0 <= i < |links| ==> fresh(links[i]) && fresh(links[i].data)
  {
    first, links := BuildList(seq(|uids|, i requires 0 <= i < |uids| => Fields(CString(uids[i]), None, None, None)));
  }

  // ---------------------------------------------------------------------------
  // Kept versions

  /** An empty string counts as absent. */
  function ReadString(text: Option<string>): (r: Option<string>) {
    if text == Some("") then None else text
  }

  /** The fields with the cached versions added to the extra, if there are both. */
  function Keeping(fields: Fields, cached: string -> Option<string>): (r: Fields) {
    if ReadString(fields.extra).Some? && cached(fields.uid).Some? then
      fields.(extra := Some(CText(KeptVersions.Extra(fields.extra.value, Some(cached(fields.uid).value)))))
    else fields
  }

  function AllKeeping(fields: seq<Fields>, cached: string -> Option<string>): (r: seq<Fields>) {
    seq(|fields|, i requires 0 <= i < |fields| => Keeping(fields[i], cached))
  }

  method KeepOne(info: Info, cached: string -> Option<string>)
    modifies info`extra
    ensures info.Now() == Keeping(old(info.Now()), cached)
  {
    var current := ReadString(info.extra);
    if current.Some? {
      var previous := cached(info.uid);
      if previous.Some? {
        info.extra := Some(CText(KeptVersions.Extra(current.value, Some(previous.value))));
      }
    }
  }

  /** The link at a position, none behind the end. */
  function LinkAt(links: seq<Link>, i: nat): (link: Link?) {
    if i < |links| then links[i] else null
  }

  /** In a chain each link leads to the one behind it. */
  lemma {:induction false} ChainNext(first: Link?, links: seq<Link>)
    requires Chain(first, links)
    ensures first == LinkAt(links, 0)
    ensures forall j :: 0 <= j < |links| ==> links[j].next == LinkAt(links, j + 1)
  {
    if links != [] {
      ChainNext(links[0].next, links[1..]);
      forall j | 0 <= j < |links|
        ensures links[j].next == LinkAt(links, j + 1)
      {
        if j > 0 {
          assert links[1..][j - 1] == links[j];
        }
      }
    }
  }

  /** Edits one node of a list, of which no other node changes. */
  method KeepAt(link: Link, ghost links: seq<Link>, ghost i: nat, cached: string -> Option<string>)
    requires i < |links| && link == links[i] && Apart(links)
    modifies link.data`extra
    ensures Apart(links)
    ensures link.data.Now() == Keeping(old(link.data.Now()), cached)
    ensures forall j :: 0 <= j < |links| && j != i ==> links[j].data.Now() == old(links[j].data.Now())
  {
    KeepOne(link.data, cached);
  }

  /** Edits each node in place: the links, the UIDs, the revisions and the objects stay. */
  method KeepVersions(list: Link?, ghost links: seq<Link>, ghost fields: seq<Fields>, cached: string -> Option<string>)
    requires List(list, links, fields)
    modifies Infos(links)`extra
    ensures List(list, links, AllKeeping(fields, cached))
  {
    ChainNext(list, links);
    var link := list;
    ghost var i := 0;
    ghost var kept := AllKeeping(fields, cached);
    while link != null
      invariant 0 <= i <= |links| == |fields| == |kept| && link == LinkAt(links, i)
      invariant forall j :: 0 <= j < i ==> links[j].data.Now() == kept[j]
      invariant forall j :: i <= j < |links| ==> links[j].data.Now() == fields[j]
      decreases |links| - i
    {
      assert link.data in Infos(links);
      KeepAt(link, links, i, cached);
      link := link.next;
      i := i + 1;
    }
  }

  /** After the edit, the extra gives back the version of the refresh and then the most recent ones
      that the cache kept. The UID, the revision and the object are those of the refresh. */
  lemma {:induction false} KeepingAdds(contact: Contact, cached: string -> Option<string>, previous: string)
    requires KeptVersions.Readable(contact.vcard) && cached(CString(contact.uid)) == Some(previous)
    ensures var before := FieldsOf(contact);
            var after := Keeping(before, cached);
            && after == before.(extra := after.extra) && after.extra.Some?
            && KeptVersions.VersionsOf(after.extra.value) ==
               KeptVersions.Take(KeptVersions.Distinct([CString(contact.vcard)] + KeptVersions.VersionsOf(previous)), KeptVersions.KEPT)
  {
    StillReadable(contact.vcard);
    ExtraIsWhole(CString(contact.vcard), previous);
  }

  lemma {:induction false} StillReadable(text: string)
    requires KeptVersions.Readable(text)
    ensures KeptVersions.Readable(CString(text)) && CString(text) != ""
  {
  }

  lemma {:induction false} ExtraIsWhole(text: string, previous: string)
    requires KeptVersions.Readable(text) && '\0' !in text
    ensures var extra := CText(KeptVersions.Extra(text, Some(previous)));
            KeptVersions.VersionsOf(extra) ==
            KeptVersions.Take(KeptVersions.Distinct([text] + KeptVersions.VersionsOf(previous)), KeptVersions.KEPT)
  {
    KeptVersions.ExtraHasNoNul(text, Some(previous));
    KeptVersions.ExtraRoundTrip(text, Some(previous));
    KeptVersions.KeptIsRecent(text, Some(previous));
  }
}
