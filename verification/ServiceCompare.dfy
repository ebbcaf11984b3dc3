/**
 How the online services of a card are compared.

 A line states a service and a handle. The server may hold the handle as a user, or only inside a URI
 whose scheme belongs to the service.
 */
module ServiceCompare {
  import opened EntryCompare
  import opened EntryPatch
  import opened JsonPointer
  import opened Options
  import opened Splitting

  const ONLINE_SERVICES := ["AIM", "Gadu-Gadu", "Google Talk", "GroupWise", "ICQ", "Jabber", "MSN", "Matrix", "Skype", "Yahoo"]

  const SERVICE_SCHEMES := [("AIM", "aim"), ("AIM", "aol"), ("Gadu-Gadu", "gg"), ("Gadu-Gadu", "gadugadu"), ("Gadu-Gadu", "gadu"),
                            ("Google Talk", "xmpp"), ("Google Talk", "gtalk"), ("GroupWise", "groupwise"), ("GroupWise", "novell"),
                            ("ICQ", "icq"), ("Jabber", "xmpp"), ("Jabber", "jabber"), ("MSN", "msn"), ("MSN", "msnim"),
                            ("Matrix", "matrix"), ("Skype", "skype"), ("Yahoo", "yahoo"), ("Yahoo", "ymsgr")]

  /** What Unicode knows: the letters and digits of a name in lower case, and the characters that are
      white space or control characters. */
  datatype Unicode = Unicode(normal: string -> string, blank: char -> bool)

  // ---------------------------------------------------------------------------
  // Services and handles

  /** A line can state handles at the service. */
  predicate MapsService(s: Unicode, service: string) {
    exists i :: 0 <= i < |ONLINE_SERVICES| && s.normal(ONLINE_SERVICES[i]) == s.normal(service)
  }

  predicate SameService(s: Unicode, one: Option<string>, other: Option<string>) {
    if one.Some? && other.Some? then s.normal(one.value) == s.normal(other.value) else one == other
  }

  function LowerCase(c: char): (r: char) {
    if 'A' <= c <= 'Z' then c - 'A' + 'a' else c
  }

  function Folded(text: string): (r: string) {
    seq(|text|, i requires 0 <= i < |text| => LowerCase(text[i]))
  }

  /** The scheme is one of those of the service, in either case. */
  predicate HasScheme(s: Unicode, service: string, stated: string) {
    exists i :: 0 <= i < |SERVICE_SCHEMES| &&
      s.normal(SERVICE_SCHEMES[i].0) == s.normal(service) && Folded(SERVICE_SCHEMES[i].1) == Folded(stated)
  }

  /** The first scheme of the service from position `i` on. */
  function SchemeFrom(s: Unicode, service: string, i: nat): (r: Option<string>)
    requires i <= |SERVICE_SCHEMES|
    ensures r.Some? ==>
              exists k :: i <= k < |SERVICE_SCHEMES| && s.normal(SERVICE_SCHEMES[k].0) == s.normal(service) && SERVICE_SCHEMES[k].1 == r.value
    decreases |SERVICE_SCHEMES| - i
  {
    if i == |SERVICE_SCHEMES| then None
    else if s.normal(SERVICE_SCHEMES[i].0) == s.normal(service) then Some(SERVICE_SCHEMES[i].1)
    else SchemeFrom(s, service, i + 1)
  }

  /** A handle that a URI can hold. */
  predicate PlainHandle(s: Unicode, handle: string) {
    && handle != "" && '/' !in handle && '?' !in handle && '#' !in handle && '%' !in handle
    && forall i :: 0 <= i < |handle| ==> !s.blank(handle[i])
  }

  function HandleInUri(s: Unicode, service: string, uri: string): (r: Option<string>) {
    match SplitOnce(uri, ':')
    case None => None
    case Some((stated, handle)) => if HasScheme(s, service, stated) && PlainHandle(s, handle) then Some(handle) else None
  }

  function ServiceUri(s: Unicode, service: string, handle: string): (r: Option<string>) {
    var scheme := SchemeFrom(s, service, 0);
    if scheme.Some? && PlainHandle(s, handle) then Some(scheme.value + [':'] + handle) else None
  }

  lemma {:induction false} SchemesHaveNoColon(i: nat)
    requires i < |SERVICE_SCHEMES|
    ensures ':' !in SERVICE_SCHEMES[i].1
  {
  }

  /** A URI that is built for a handle reads back as that handle, at every spelling of the service. */
  lemma {:induction false} UriReadsBack(s: Unicode, service: string, handle: string, spelling: string)
    requires ServiceUri(s, service, handle).Some? && s.normal(spelling) == s.normal(service)
    ensures HandleInUri(s, spelling, ServiceUri(s, service, handle).value) == Some(handle)
  {
    var scheme := SchemeFrom(s, service, 0).value;
    var k :| 0 <= k < |SERVICE_SCHEMES| && s.normal(SERVICE_SCHEMES[k].0) == s.normal(service) && SERVICE_SCHEMES[k].1 == scheme;
    SchemesHaveNoColon(k);
    SplitOnceFirst(scheme, handle, ':');
  }

  /** The handle that an entry states: its user, or the one in its URI. */
  function Handle(s: Unicode, entry: Json): (r: Option<string>) {
    var user, service, uri := TextField(entry, "user"), TextField(entry, "service"), TextField(entry, "uri");
    if user.Some? then user
    else if service.Some? && uri.Some? then HandleInUri(s, service.value, uri.value)
    else None
  }

  predicate IsSpace(c: char) {
    c == ' ' || c == '\t' || c == '\n' || c == '\U{0B}' || c == '\U{0C}' || c == '\r'
  }

  /** A line can state the handle as it is. */
  predicate Drawable(handle: string) {
    handle != "" && '\r' !in handle && !IsSpace(handle[0]) && !IsSpace(handle[|handle| - 1])
  }

  predicate StatesService(s: Unicode, entry: Json) {
    && entry.Object?
    && TextField(entry, "service").Some? && MapsService(s, TextField(entry, "service").value)
    && Handle(s, entry).Some? && Drawable(Handle(s, entry).value)
  }

  // ---------------------------------------------------------------------------
  // The comparison

  /** A handle read from a URI becomes a URI again, if the service has a form for it. */
  function RebuiltUri(s: Unicode, old': Json, new': Json): (uri: Option<string>) {
    var service := if TextField(new', "service").Some? then TextField(new', "service") else TextField(old', "service");
    if TextField(old', "user").None? && service.Some? && Handle(s, new').Some? then ServiceUri(s, service.value, Handle(s, new').value) else None
  }

  predicate HandleDiffers(s: Unicode, old': Json, new': Json) {
    Handle(s, old') != Handle(s, new')
  }

  function UserChange(s: Unicode, old': Json, new': Json): (r: Option<Json>) {
    if HandleDiffers(s, old', new') && RebuiltUri(s, old', new').None? then Some(OrNull(TextField(new', "user"))) else None
  }

  function UriChange(s: Unicode, old': Json, new': Json): (r: Option<Json>) {
    if !HandleDiffers(s, old', new') then None
    else if RebuiltUri(s, old', new').Some? then Some(Text(RebuiltUri(s, old', new').value))
    else if TextField(old', "uri").Some? then Some(Null)
    else None
  }

  function ServiceChange(s: Unicode, old': Json, new': Json): (r: Option<Json>) {
    if SameService(s, TextField(old', "service"), TextField(new', "service")) then None else Some(OrNull(TextField(new', "service")))
  }

  function ServiceChanges(s: Unicode, old': Json, new': Json): (changes: map<string, Json>) {
    With(With(With(map[], "uri", UriChange(s, old', new')), "user", UserChange(s, old', new')),
         "service", ServiceChange(s, old', new'))
  }

  /** A cleared handle leaves nothing to state, so the entry goes. */
  function DiffService(s: Unicode, old': Json, new': Json): (change: Change) {
    if HandleDiffers(s, old', new') && Handle(s, new').None? then Drop else Tails(ServiceChanges(s, old', new'))
  }

  lemma {:induction false} ServiceNames()
    ensures Plain("uri") && Plain("user") && Plain("service")
    ensures "uri" != "user" && "uri" != "service" && "user" != "service"
  {
    assert |"uri"| == 3 && |"user"| == 4 && |"service"| == 7;
  }

  lemma {:induction false} ServiceChangesAt(s: Unicode, old': Json, new': Json, name: string)
    ensures var changes := ServiceChanges(s, old', new');
            && Lookup(changes, "uri") == UriChange(s, old', new') && Lookup(changes, "user") == UserChange(s, old', new')
            && Lookup(changes, "service") == ServiceChange(s, old', new')
            && (name in changes ==> Plain(name))
  {
    ServiceNames();
    ThreeChanges("uri", UriChange(s, old', new'), "user", UserChange(s, old', new'), "service", ServiceChange(s, old', new'), name);
  }

  function ShownServices(s: Unicode): (visible: Visible) {
    entry => StatesService(s, entry)
  }

  function ComparedServices(s: Unicode): (diffEntry: DiffEntry) {
    (old', new') => DiffService(s, old', new')
  }

  /** The server can take what the comparison of two services finds. */
  lemma {:induction false} ServicesAreSound(s: Unicode)
    ensures Sound(ShownServices(s), ComparedServices(s))
  {
    forall old', new' | StatesService(s, old')
      ensures Acceptable(old', ServiceChanges(s, old', new')) && Acceptable(old', map[])
    {
      forall name {
        ServiceChangesAt(s, old', new', name);
      }
      PlainAcceptable(old', ServiceChanges(s, old', new'));
    }
  }

  // ---------------------------------------------------------------------------
  // What a save leaves

  /** RFC 9553 wants a user or a URI in each entry. */
  predicate HasHandle(entry: Json) {
    TextField(entry, "user").Some? || TextField(entry, "uri").Some?
  }

  /** The three members after a save. */
  lemma {:induction false} ServiceFields(s: Unicode, old': Json, new': Json, after: Json)
    requires old'.Object? && Changed(old', ServiceChanges(s, old', new'), after)
    ensures Field(after, "uri") == FieldAfter(Field(old', "uri"), UriChange(s, old', new'))
    ensures Field(after, "user") == FieldAfter(Field(old', "user"), UserChange(s, old', new'))
    ensures Field(after, "service") == FieldAfter(Field(old', "service"), ServiceChange(s, old', new'))
  {
    var changes := ServiceChanges(s, old', new');
    forall name {
      ServiceChangesAt(s, old', new', name);
    }
    FieldChanged(old', changes, after, "user");
    FieldChanged(old', changes, after, "uri");
    FieldChanged(old', changes, after, "service");
  }

  /** An entry that stays has a user or a URI exactly if its handle did not change, or the new handle
      gets a URI, or the edit names a user. */
  lemma {:induction false} ServiceStaysValid(s: Unicode, old': Json, new': Json, after: Json)
    requires StatesService(s, old') && Changed(old', ServiceChanges(s, old', new'), after)
    ensures HasHandle(after) <==>
            !HandleDiffers(s, old', new') || RebuiltUri(s, old', new').Some? || TextField(new', "user").Some?
  {
    ServiceFields(s, old', new', after);
  }

  /** An entry that is read from a line: it names its service and its user. */
  predicate IsLine(entry: Json) {
    TextField(entry, "service").Some? && TextField(entry, "user").Some?
  }

  /** The handle that the URI of the old entry has at the service of the new one. */
  function MovedHandle(s: Unicode, old': Json, new': Json): (r: Option<string>) {
    var service, uri := TextField(new', "service"), TextField(old', "uri");
    if service.Some? && uri.Some? then HandleInUri(s, service.value, uri.value) else None
  }

  /** The edited service is saved, in the spelling of the server if it is the same one. */
  lemma {:induction false} ServiceNameSaved(s: Unicode, old': Json, new': Json, after: Json)
    requires StatesService(s, old') && Changed(old', ServiceChanges(s, old', new'), after) && IsLine(new')
    ensures SameService(s, TextField(after, "service"), TextField(new', "service"))
  {
    ServiceFields(s, old', new', after);
  }

  lemma {:induction false} SameSchemes(s: Unicode, one: string, other: string, uri: string)
    requires s.normal(one) == s.normal(other)
    ensures HandleInUri(s, one, uri) == HandleInUri(s, other, uri)
  {
    forall stated
      ensures HasScheme(s, one, stated) == HasScheme(s, other, stated)
    {
    }
  }

  /** A line that is saved leaves a valid entry. The entry states the service and the handle of the line
      exactly if the handle changed, or the entry has a user, or its URI states the handle also at the
      service of the line. */
  lemma {:induction false} LineIsSaved(s: Unicode, old': Json, new': Json, after: Json)
    requires StatesService(s, old') && Changed(old', ServiceChanges(s, old', new'), after) && IsLine(new')
    ensures DiffService(s, old', new').Tails? && HasHandle(after)
    ensures SameService(s, TextField(after, "service"), TextField(new', "service"))
    ensures Handle(s, after) == Handle(s, new') <==>
            HandleDiffers(s, old', new') || TextField(old', "user").Some? || MovedHandle(s, old', new') == Handle(s, new')
  {
    ServiceStaysValid(s, old', new', after);
    ServiceNameSaved(s, old', new', after);
    ServiceFields(s, old', new', after);
    var service, uri := TextField(after, "service"), TextField(after, "uri");
    if HandleDiffers(s, old', new') && RebuiltUri(s, old', new').Some? {
      UriReadsBack(s, TextField(new', "service").value, Handle(s, new').value, service.value);
    } else if !HandleDiffers(s, old', new') && TextField(old', "user").None? {
      SameSchemes(s, service.value, TextField(new', "service").value, uri.value);
    }
  }

  // ---------------------------------------------------------------------------
  // Entries that the comparison spoils

  /** An edit that states a new handle only by a URI, of an entry that has a user, leaves neither. No
      line is such an edit. */
  lemma {:induction false} UriAloneIsLost(s: Unicode, old': Json, new': Json, after: Json)
    requires StatesService(s, old') && Changed(old', ServiceChanges(s, old', new'), after)
    requires TextField(old', "user").Some? && TextField(new', "user").None? && HandleDiffers(s, old', new')
    ensures !HasHandle(after)
  {
    ServiceStaysValid(s, old', new', after);
  }

  /** A line that moves a handle to a service that does not know the scheme of its URI leaves an entry
      that no line states any more. */
  lemma {:induction false} MovedHandleIsLost(s: Unicode, old': Json, new': Json, after: Json)
    requires StatesService(s, old') && Changed(old', ServiceChanges(s, old', new'), after) && IsLine(new')
    requires TextField(old', "user").None? && !HandleDiffers(s, old', new')
    requires MovedHandle(s, old', new').None?
    ensures Handle(s, after).None? && !StatesService(s, after)
  {
    LineIsSaved(s, old', new', after);
    ServiceFields(s, old', new', after);
    SameSchemes(s, TextField(after, "service").value, TextField(new', "service").value, TextField(old', "uri").value);
  }

  /** The names of different services stay different, and small letters are not blank. */
  predicate Ordinary(s: Unicode) {
    && (forall i, j | 0 <= i < |SERVICE_SCHEMES| && 0 <= j < |SERVICE_SCHEMES| ::
          s.normal(SERVICE_SCHEMES[i].0) == s.normal(SERVICE_SCHEMES[j].0) ==> SERVICE_SCHEMES[i].0 == SERVICE_SCHEMES[j].0)
    && (forall c :: 'a' <= c <= 'z' ==> !s.blank(c))
  }

  /** An entry with a service and one of the two members that state a handle. */
  function Made(service: string, member: string, text: string): (entry: Json) {
    Object(map["service" := Text(service), member := Text(text)])
  }

  lemma {:induction false} MadeFields(service: string, member: string, text: string)
    requires member == "user" || member == "uri"
    ensures TextField(Made(service, member, text), "service") == Some(service)
    ensures TextField(Made(service, member, text), "user") == if member == "user" then Some(text) else None
    ensures TextField(Made(service, member, text), "uri") == if member == "uri" then Some(text) else None
  {
    ServiceNames();
  }

  const SKYPE := "Skype"
  const JABBER := "Jabber"

  lemma {:induction false} SkypeUri(s: Unicode, handle: string)
    requires PlainHandle(s, handle)
    ensures MapsService(s, SKYPE)
    ensures HandleInUri(s, SKYPE, "skype" + [':'] + handle) == Some(handle)
  {
    assert ONLINE_SERVICES[8] == SKYPE && SERVICE_SCHEMES[15] == (SKYPE, "skype");
    var scheme := "skype";
    assert ':' !in scheme;
    SplitOnceFirst(scheme, handle, ':');
  }

  lemma {:induction false} JabberHasNoSkype(i: nat)
    requires i < |SERVICE_SCHEMES|
    ensures !(SERVICE_SCHEMES[i].0 == JABBER && |SERVICE_SCHEMES[i].1| == 5)
  {
    assert "Matrix"[0] != JABBER[0];
  }

  lemma {:induction false} NotAtJabber(s: Unicode, handle: string)
    requires Ordinary(s)
    ensures HandleInUri(s, JABBER, "skype" + [':'] + handle) == None
  {
    var scheme := "skype";
    assert ':' !in scheme;
    SplitOnceFirst(scheme, handle, ':');
    assert SERVICE_SCHEMES[10].0 == JABBER;
    forall i | 0 <= i < |SERVICE_SCHEMES| && s.normal(SERVICE_SCHEMES[i].0) == s.normal(JABBER)
      ensures Folded(SERVICE_SCHEMES[i].1) != Folded(scheme)
    {
      assert SERVICE_SCHEMES[i].0 == SERVICE_SCHEMES[10].0;
      JabberHasNoSkype(i);
      assert |Folded(scheme)| == 5;
    }
  }

  /** Handles that a line can state and a URI can hold. */
  lemma {:induction false} Names(s: Unicode, handle: string)
    requires Ordinary(s) && (handle == "bob" || handle == "you" || handle == "me")
    ensures PlainHandle(s, handle) && Drawable(handle)
  {
    assert forall i :: 0 <= i < |handle| ==> 'a' <= handle[i] <= 'z';
  }

  /** Such an edit: the user `me` becomes the URI `skype:you`. */
  lemma {:induction false} UriAloneExample(s: Unicode, after: Json)
    requires Ordinary(s)
    requires Changed(Made(SKYPE, "user", "me"),
                     ServiceChanges(s, Made(SKYPE, "user", "me"), Made(SKYPE, "uri", "skype" + [':'] + "you")), after)
    ensures !HasHandle(after)
  {
    var me, you := "me", "you";
    var old', new' := Made(SKYPE, "user", me), Made(SKYPE, "uri", "skype" + [':'] + you);
    Names(s, me);
    Names(s, you);
    MadeFields(SKYPE, "user", me);
    MadeFields(SKYPE, "uri", "skype" + [':'] + you);
    SkypeUri(s, you);
    assert |me| != |you|;
    UriAloneIsLost(s, old', new', after);
  }

  /** Such a line: the handle `bob` moves from `skype:bob` to Jabber. */
  lemma {:induction false} MovedHandleExample(s: Unicode, after: Json)
    requires Ordinary(s)
    requires Changed(Made(SKYPE, "uri", "skype" + [':'] + "bob"),
                     ServiceChanges(s, Made(SKYPE, "uri", "skype" + [':'] + "bob"), Made(JABBER, "user", "bob")), after)
    ensures Handle(s, after).None? && !StatesService(s, after)
  {
    var bob := "bob";
    var old', new' := Made(SKYPE, "uri", "skype" + [':'] + bob), Made(JABBER, "user", bob);
    Names(s, bob);
    MadeFields(SKYPE, "uri", "skype" + [':'] + bob);
    MadeFields(JABBER, "user", bob);
    SkypeUri(s, bob);
    NotAtJabber(s, bob);
    MovedHandleIsLost(s, old', new', after);
  }
}
