/**
 The settings that make a new source an address book or a calendar of an account.

 `apply` writes the settings of a child one by one onto its source and stops at the first that it
 cannot write. On the next start, the resource id of the child is read back from the source: a child
 that reads back as nothing loses its cache file.
 */
module ChildSource {
  import opened CStrings
  import opened Digits
  import opened Options
  import opened Splitting

  /** The keyfile groups: the source's own group, its extensions, and any other name. */
  datatype Group = DataSource | AddressBookGroup | CalendarGroup | Resource | Authentication | SecurityGroup | OtherGroup(name: string)

  datatype Key = DisplayName | BackendName | IdentityKey | Host | User | Method | PortKey | Color | OtherKey(name: string)

  datatype Setting = Setting(group: Group, key: Key, value: string)

  datatype Error = UnknownProperty(group: Group, key: Key) | WrongType(group: Group, key: Key, value: string)

  datatype Value = Str(text: string) | Port(number: nat)

  type Property = (Group, Key)

  // ---------------------------------------------------------------------------
  // What a setting writes

  /** The properties that hold text. */
  const TEXT_PROPERTIES: set<Property> :=
    {(DataSource, DisplayName), (AddressBookGroup, BackendName), (CalendarGroup, BackendName), (Resource, IdentityKey),
     (Authentication, Host), (Authentication, User), (Authentication, Method), (SecurityGroup, Method), (CalendarGroup, Color)}

  const PORT: Property := (Authentication, PortKey)

  /** A 16-bit port in decimal, with an optional plus sign. */
  function ParsePort(text: string): (port: Option<nat>) {
    var digits := if "+" <= text then text[1..] else text;
    if digits != "" && (forall i :: 0 <= i < |digits| ==> IsDigit(digits[i])) && 0 <= DecimalValue(digits) <= 65535
    then Some(DecimalValue(digits)) else None
  }

  lemma {:induction false} PortRoundTrip(n: nat)
    ensures ParsePort(Decimal(n)) == if n <= 65535 then Some(n) else None
  {
    DecimalReads(n);
    assert IsDigit(Decimal(n)[0]);
  }

  function PropertyOf(s: Setting): (p: Property) {
    (s.group, s.key)
  }

  /** What the setting writes, or why it cannot. */
  function ValueOf(s: Setting): (value: Option<Value>) {
    if PropertyOf(s) in TEXT_PROPERTIES then Some(Str(CText(s.value)))
    else if PropertyOf(s) == PORT && ParsePort(s.value).Some? then Some(Port(ParsePort(s.value).value))
    else None
  }

  function ErrorOf(s: Setting): (e: Error) {
    if PropertyOf(s) == PORT then WrongType(s.group, s.key, s.value) else UnknownProperty(s.group, s.key)
  }

  predicate Writable(s: Setting) {
    ValueOf(s).Some?
  }

  predicate AllWritable(settings: seq<Setting>) {
    forall i :: 0 <= i < |settings| ==> Writable(settings[i])
  }

  // ---------------------------------------------------------------------------
  // The source

  datatype State = State(extensions: set<Group>, properties: map<Property, Value>)

  const EMPTY := State({}, map[])

  function Groups(settings: seq<Setting>): (groups: set<Group>) {
    set s | s in settings && s.group != DataSource :: s.group
  }

  /** The value that the last setting for the property writes. */
  function LastValue(settings: seq<Setting>, p: Property): (value: Option<Value>)
    requires AllWritable(settings)
  {
    if settings == [] then None
    else if PropertyOf(settings[|settings| - 1]) == p then ValueOf(settings[|settings| - 1])
    else LastValue(settings[..|settings| - 1], p)
  }

  /** The source holds, for each property, what the last setting for it wrote, or else what it held
      before, and gained exactly the extensions that the settings name. */
  ghost predicate Wrote(before: State, settings: seq<Setting>, after: State) {
    && AllWritable(settings)
    && after.extensions == before.extensions + Groups(settings)
    && forall p :: Get(after, p) == var last := LastValue(settings, p); if last.Some? then last else Get(before, p)
  }

  function Get(state: State, p: Property): (value: Option<Value>) {
    if p in state.properties then Some(state.properties[p]) else None
  }

  lemma {:induction false} WroteOneMore(before: State, settings: seq<Setting>, mid: State, s: Setting, after: State)
    requires Wrote(before, settings, mid) && Writable(s)
    requires after.properties == mid.properties[PropertyOf(s) := ValueOf(s).value]
    requires after.extensions == mid.extensions + (if s.group == DataSource then {} else {s.group})
    ensures Wrote(before, settings + [s], after)
  {
    var all := settings + [s];
    assert all[..|all| - 1] == settings;
    GroupsGrow(settings, s);
  }

  class Source {
    var extensions: set<Group>
    var properties: map<Property, Value>

    constructor ()
      ensures Now() == EMPTY
    {
      extensions, properties := {}, map[];
    }

    function Now(): (state: State)
      reads this
    {
      State(extensions, properties)
    }

    method Set(group: Group, key: Key, value: Value)
      modifies this
      ensures properties == old(properties)[(group, key) := value]
      ensures extensions == old(extensions) + (if group == DataSource then {} else {group})
    {
      if group != DataSource {
        extensions := extensions + {group};
      }
      properties := properties[(group, key) := value];
    }

    /** Writes one setting, or nothing and the reason. */
    method Write(s: Setting) returns (error: Option<Error>)
      modifies this
      ensures error == if Writable(s) then None else Some(ErrorOf(s))
      ensures !Writable(s) ==> Now() == old(Now())
      ensures Writable(s) ==>
                && properties == old(properties)[PropertyOf(s) := ValueOf(s).value]
                && extensions == old(extensions) + (if s.group == DataSource then {} else {s.group})
    {
      var text := Str(CText(s.value));
      if s.group == DataSource && s.key == DisplayName {
        Set(DataSource, DisplayName, text);
      } else if s.key == BackendName {
        if s.group != AddressBookGroup && s.group != CalendarGroup {
          return Some(UnknownProperty(s.group, s.key));
        }
        Set(s.group, BackendName, text);
      } else if s.group == Resource && s.key == IdentityKey {
        Set(Resource, IdentityKey, text);
      } else if s.group == Authentication && (s.key == Host || s.key == User || s.key == Method) {
        Set(Authentication, s.key, text);
      } else if s.group == Authentication && s.key == PortKey {
        var port := ParsePort(s.value);
        if port.None? {
          return Some(WrongType(s.group, s.key, s.value));
        }
        Set(Authentication, PortKey, Port(port.value));
      } else if s.group == SecurityGroup && s.key == Method {
        Set(SecurityGroup, Method, text);
      } else if s.group == CalendarGroup && s.key == Color {
        Set(CalendarGroup, Color, text);
      } else {
        return Some(UnknownProperty(s.group, s.key));
      }
      return None;
    }

    /** Writes the settings in order. It succeeds exactly if all are writable, and otherwise has
        written exactly the ones before the first that is not. */
    method Apply(settings: seq<Setting>) returns (error: Option<Error>)
      modifies this
      ensures error.None? <==> AllWritable(settings)
      ensures error.None? ==> Wrote(old(Now()), settings, Now())
      ensures error.Some? ==>
                exists i :: 0 <= i < |settings| && !Writable(settings[i]) && error.value == ErrorOf(settings[i]) &&
                            Wrote(old(Now()), settings[..i], Now())
    {
      assert Groups([]) == {};
      for i := 0 to |settings|
        invariant Wrote(old(Now()), settings[..i], Now())
      {
        ghost var mid := Now();
        error := Write(settings[i]);
        if error.Some? {
          return;
        }
        WroteOneMore(old(Now()), settings[..i], mid, settings[i], Now());
        assert settings[..i + 1] == settings[..i] + [settings[i]];
      }
      assert settings[..|settings|] == settings;
      return None;
    }
  }

  // ---------------------------------------------------------------------------
  // The children of an account

  datatype Kind = AddressBook | Calendar

  /** A collection of the account itself, or of the account that shares it. */
  datatype Child = Child(kind: Kind, displayName: string, sharedBy: Option<string>, collection: string, color: Option<string>)

  datatype Connection = Connection(host: string, port: Option<nat>, user: Option<string>, authMethod: Option<string>, secure: bool)

  function Extension(kind: Kind): (group: Group) {
    if kind.AddressBook? then AddressBookGroup else CalendarGroup
  }

  function Prefix(kind: Kind): (prefix: string)
    ensures ':' !in prefix
  {
    if kind.AddressBook? then "addressbook" else "calendar"
  }

  function ResourceId(child: Child): (id: string) {
    match child.sharedBy
    case None => Prefix(child.kind) + ":" + child.collection
    case Some(account) => Prefix(child.kind) + ":" + (account + "/" + child.collection)
  }

  /** What the resource id says after its kind. */
  function Identity(child: Child): (identity: string) {
    match SplitOnce(ResourceId(child), ':')
    case None => child.collection
    case Some((_, identity)) => identity
  }

  function ParseResourceId(id: string): (r: Option<(Kind, string)>) {
    match SplitOnce(id, ':')
    case None => None
    case Some((prefix, identity)) =>
      if identity == "" then None
      else if prefix == "addressbook" then Some((AddressBook, identity))
      else if prefix == "calendar" then Some((Calendar, identity))
      else None
  }

  function PortText(port: Option<nat>): (text: Option<string>) {
    if port.None? then None else Some(Decimal(port.value))
  }

  datatype Field = Field(group: Group, key: Key, value: Option<string>)

  /** The fields of a child, in the order in which they are written. */
  function Fields(child: Child, connection: Connection): (fields: seq<Field>) {
    [Field(DataSource, DisplayName, Some(child.displayName)),
     Field(Extension(child.kind), BackendName, Some("jmap")),
     Field(Resource, IdentityKey, Some(Identity(child))),
     Field(Authentication, Host, Some(connection.host)),
     Field(Authentication, PortKey, PortText(connection.port)),
     Field(Authentication, User, connection.user),
     Field(Authentication, Method, connection.authMethod),
     Field(SecurityGroup, Method, Some(if connection.secure then "tls" else "none")),
     Field(CalendarGroup, Color, if child.kind.Calendar? then child.color else None)]
  }

  /** A field without a value gives no setting; one with the empty value does. */
  function Present(fields: seq<Field>): (settings: seq<Setting>) {
    if fields == [] then []
    else
      var last := fields[|fields| - 1];
      Present(fields[..|fields| - 1]) + (if last.value.None? then [] else [Setting(last.group, last.key, last.value.value)])
  }

  function Settings(child: Child, connection: Connection): (settings: seq<Setting>) {
    Present(Fields(child, connection))
  }

  /** The resource id that a source reads back as. */
  function ResourceIdOf(state: State): (id: Option<string>) {
    var kind := if AddressBookGroup in state.extensions then Some(AddressBook)
                else if CalendarGroup in state.extensions then Some(Calendar) else None;
    if kind.None? || Resource !in state.extensions then None
    else match Get(state, (Resource, IdentityKey))
      case Some(Str(identity)) => if identity == "" then None else Some(Prefix(kind.value) + ":" + identity)
      case _ => None
  }

  // ---------------------------------------------------------------------------
  // A child reads back as itself

  lemma {:induction false} IdentityIs(child: Child)
    ensures ResourceId(child) == Prefix(child.kind) + ":" + Identity(child)
    ensures ParseResourceId(ResourceId(child)) == if Identity(child) == "" then None else Some((child.kind, Identity(child)))
  {
    SplitOnceFirst(Prefix(child.kind), child.collection, ':');
    if child.sharedBy.Some? {
      SplitOnceFirst(Prefix(child.kind), child.sharedBy.value + "/" + child.collection, ':');
    }
  }

  predicate PortFits(connection: Connection) {
    connection.port.Some? ==> connection.port.value <= 65535
  }

  function FieldValue(f: Field): (value: Option<Value>) {
    if f.value.None? then None else ValueOf(Setting(f.group, f.key, f.value.value))
  }

  predicate FieldsFit(fields: seq<Field>) {
    forall i :: 0 <= i < |fields| && fields[i].value.Some? ==> FieldValue(fields[i]).Some?
  }

  predicate FieldsDiffer(fields: seq<Field>) {
    forall i, j :: 0 <= i < j < |fields| ==> (fields[i].group, fields[i].key) != (fields[j].group, fields[j].key)
  }

  lemma {:induction false} PresentWritable(fields: seq<Field>)
    requires FieldsFit(fields)
    ensures AllWritable(Present(fields))
  {
    if fields != [] {
      PresentWritable(fields[..|fields| - 1]);
    }
  }

  /** The settings name the groups of the present fields. */
  lemma {:induction false} PresentGroups(fields: seq<Field>, g: Group)
    ensures g in Groups(Present(fields)) <==>
              g != DataSource && exists i :: 0 <= i < |fields| && fields[i].group == g && fields[i].value.Some?
  {
    if fields != [] {
      var before, last := fields[..|fields| - 1], fields[|fields| - 1];
      PresentGroups(before, g);
      assert forall i :: 0 <= i < |before| ==> fields[i] == before[i];
      if last.value.Some? {
        GroupsGrow(Present(before), Setting(last.group, last.key, last.value.value));
      }
    }
  }

  lemma {:induction false} GroupsGrow(settings: seq<Setting>, s: Setting)
    ensures Groups(settings + [s]) == Groups(settings) + (if s.group == DataSource then {} else {s.group})
  {
  }

  lemma {:induction false} PresentElsewhere(fields: seq<Field>, p: Property)
    requires FieldsFit(fields) && forall i :: 0 <= i < |fields| ==> (fields[i].group, fields[i].key) != p
    ensures AllWritable(Present(fields)) && LastValue(Present(fields), p) == None
  {
    if fields != [] {
      PresentWritable(fields);
      PresentElsewhere(fields[..|fields| - 1], p);
      var all, before := Present(fields), Present(fields[..|fields| - 1]);
      assert all == before || all[..|all| - 1] == before;
    }
  }

  /** Each of different fields is written with its own value, and left unset if it has none. */
  lemma {:induction false} PresentWrites(fields: seq<Field>, k: nat)
    requires FieldsFit(fields) && FieldsDiffer(fields) && k < |fields|
    ensures AllWritable(Present(fields))
    ensures LastValue(Present(fields), (fields[k].group, fields[k].key)) == FieldValue(fields[k])
  {
    var before, last := fields[..|fields| - 1], fields[|fields| - 1];
    var p := (fields[k].group, fields[k].key);
    PresentWritable(fields);
    PresentWritable(before);
    assert Present(fields) == Present(before) || Present(fields)[..|Present(fields)| - 1] == Present(before);
    if k < |fields| - 1 {
      PresentWrites(before, k);
    } else {
      PresentElsewhere(before, p);
    }
  }

  lemma {:induction false} FieldsAreDifferent(child: Child, c: Connection)
    ensures FieldsDiffer(Fields(child, c))
  {
  }

  lemma {:induction false} FieldFits(child: Child, c: Connection, i: nat)
    requires PortFits(c) && i < 9
    ensures i != 4 ==> (Fields(child, c)[i].group, Fields(child, c)[i].key) in TEXT_PROPERTIES
    ensures i == 4 && c.port.Some? ==> FieldValue(Fields(child, c)[i]) == Some(Port(c.port.value))
  {
    if i == 4 && c.port.Some? {
      PortRoundTrip(c.port.value);
    }
  }

  lemma {:induction false} FieldsFine(child: Child, c: Connection)
    requires PortFits(c)
    ensures FieldsFit(Fields(child, c)) && FieldsDiffer(Fields(child, c))
  {
    FieldsAreDifferent(child, c);
    var fields := Fields(child, c);
    forall i | 0 <= i < |fields| && fields[i].value.Some?
      ensures FieldValue(fields[i]).Some?
    {
      FieldFits(child, c, i);
    }
  }

  /** Every child of every account can be written in full, and the source then holds each of its
      fields. An absent value leaves no property. */
  lemma {:induction false} ChildWritten(child: Child, c: Connection, k: nat)
    requires PortFits(c) && k < 9
    ensures AllWritable(Settings(child, c))
    ensures var f := Fields(child, c)[k];
            LastValue(Settings(child, c), (f.group, f.key)) == FieldValue(f)
  {
    FieldsFine(child, c);
    PresentWrites(Fields(child, c), k);
  }

  lemma {:induction false} SettingsGroups(child: Child, c: Connection, g: Group)
    ensures g in Groups(Settings(child, c)) <==> g in {Extension(child.kind), Resource, Authentication, SecurityGroup}
  {
    var fields := Fields(child, c);
    PresentGroups(fields, g);
    assert fields[1].value.Some? && fields[2].value.Some? && fields[3].value.Some? && fields[7].value.Some?;
  }

  /** A written child has the extension of its own kind and not of the other. It reads back under its
      identity up to the first NUL, and so under its own resource id exactly if the identity is not
      empty and holds no NUL. */
  lemma {:induction false} ChildReadsBack(child: Child, c: Connection, after: State)
    requires PortFits(c) && Wrote(EMPTY, Settings(child, c), after)
    ensures after.extensions == {Extension(child.kind), Resource, Authentication, SecurityGroup}
    ensures var read := CText(Identity(child));
            ResourceIdOf(after) == if read == "" then None else Some(Prefix(child.kind) + ":" + read)
    ensures ResourceIdOf(after) == Some(ResourceId(child)) <==> Identity(child) != "" && '\0' !in Identity(child)
  {
    ChildWritten(child, c, 2);
    forall g: Group
      ensures g in after.extensions <==> g in {Extension(child.kind), Resource, Authentication, SecurityGroup}
    {
      SettingsGroups(child, c, g);
    }
    assert Get(after, (Resource, IdentityKey)) == Some(Str(CText(Identity(child))));
    IdentityReadsBack(child, after);
  }

  lemma {:induction false} IdentityReadsBack(child: Child, after: State)
    requires after.extensions == {Extension(child.kind), Resource, Authentication, SecurityGroup}
    requires Get(after, (Resource, IdentityKey)) == Some(Str(CText(Identity(child))))
    ensures var read := CText(Identity(child));
            ResourceIdOf(after) == if read == "" then None else Some(Prefix(child.kind) + ":" + read)
    ensures ResourceIdOf(after) == Some(ResourceId(child)) <==> Identity(child) != "" && '\0' !in Identity(child)
  {
    IdentityIs(child);
    var identity := Identity(child);
    var read := CText(identity);
    if ResourceIdOf(after) == Some(ResourceId(child)) {
      assert |Prefix(child.kind) + ":" + read| == |Prefix(child.kind) + ":" + identity|;
      assert read == identity;
    }
  }

  lemma {:induction false} CTextCuts(text: string, rest: string)
    requires '\0' !in text
    ensures CText(text + ['\0'] + rest) == text
  {
    if text != "" {
      assert (text + ['\0'] + rest)[1..] == text[1..] + ['\0'] + rest;
      CTextCuts(text[1..], rest);
    }
  }

  lemma {:induction false} OwnIdentity(child: Child)
    requires child.sharedBy.None?
    ensures Identity(child) == child.collection
  {
    SplitOnceFirst(Prefix(child.kind), child.collection, ':');
  }

  /** Two collections that differ only behind a NUL read back as the same one. */
  lemma {:induction false} CutReadsBackAsAnother(child: Child, rest: string, c: Connection, plain: State, cut: State)
    requires PortFits(c) && child.sharedBy.None? && child.collection != "" && '\0' !in child.collection
    requires Wrote(EMPTY, Settings(child, c), plain)
    requires Wrote(EMPTY, Settings(child.(collection := child.collection + ['\0'] + rest), c), cut)
    ensures ResourceIdOf(cut) == ResourceIdOf(plain) == Some(ResourceId(child))
    ensures ResourceId(child.(collection := child.collection + ['\0'] + rest)) != ResourceId(child)
  {
    var other := child.(collection := child.collection + ['\0'] + rest);
    OwnIdentity(child);
    OwnIdentity(other);
    ChildReadsBack(child, c, plain);
    ChildReadsBack(other, c, cut);
    CTextCuts(child.collection, rest);
    assert |ResourceId(other)| > |ResourceId(child)|;
  }

  const HOME := Child(Calendar, "Home", None, "home", None)
  const WORK := Child(Calendar, "Home", None, "home" + ['\0'] + "work", None)

  /** Such a pair: the second calendar is read back as the first. */
  lemma {:induction false} NulReadsBackAsAnother(c: Connection, home: State, work: State)
    requires PortFits(c) && Wrote(EMPTY, Settings(HOME, c), home) && Wrote(EMPTY, Settings(WORK, c), work)
    ensures ResourceIdOf(work) == ResourceIdOf(home) == Some(ResourceId(HOME)) && ResourceId(WORK) != ResourceId(HOME)
  {
    CutReadsBackAsAnother(HOME, "work", c, home, work);
  }
}
