/**
 The calendar object that a save sends: the master of a series, its other instances, and a
 definition for every time zone that they name (section 3.2.19 of RFC 5545).

 The instances arrive in a linked list. Each node points to a component that may be absent, and
 that may lack its inner iCalendar component. Components are compared by identity.
 */
module SavedCalendar {
  import opened Options

  /** A property and the value of its first TZID parameter. */
  datatype Property = Property(name: string, tzid: Option<string>)

  type Content = seq<Property>

  class ICalComponent {
    const content: Content

    constructor (content: Content)
      ensures this.content == content
    {
      this.content := content;
    }
  }

  class ECalComponent {
    const inner: ICalComponent?

    constructor (inner: ICalComponent?)
      ensures this.inner == inner
    {
      this.inner := inner;
    }
  }

  class Node {
    var data: ECalComponent?
    var next: Node?

    constructor (data: ECalComponent?, next: Node?)
      ensures this.data == data && this.next == next
    {
      this.data, this.next := data, next;
    }
  }

  // ---------------------------------------------------------------------------
  // The instances

  /** The list that starts at `first` has exactly these nodes. */
  predicate Chain(first: Node?, nodes: seq<Node>)
    reads nodes
  {
    if nodes == [] then first == null
    else first == nodes[0] && Chain(nodes[0].next, nodes[1..])
  }

  /** The inner components of the nodes that have one, in list order. */
  function Inners(nodes: seq<Node>): (components: seq<ICalComponent>)
    reads nodes
  {
    if nodes == [] then []
    else
      var data := nodes[0].data;
      (if data == null || data.inner == null then [] else [data.inner]) + Inners(nodes[1..])
  }

  method InstanceComponents(instances: Node?, ghost nodes: seq<Node>) returns (components: seq<ICalComponent>)
    requires Chain(instances, nodes)
    ensures components == Inners(nodes)
  {
    components := [];
    var node := instances;
    ghost var rest := nodes;
    while node != null
      invariant Chain(node, rest)
      invariant components + Inners(rest) == Inners(nodes)
      decreases |rest|
    {
      var component := node.data;
      ghost var before := components + Inners(rest);
      rest := rest[1..];
      node := node.next;
      if component == null {
        continue;
      }
      if component.inner != null {
        assert before == components + ([component.inner] + Inners(rest));
        components := components + [component.inner];
      }
    }
  }

  /** The component stands for one occurrence of a series, not for the series. */
  predicate IsOccurrence(content: Content) {
    exists i :: 0 <= i < |content| && content[i].name == "RECURRENCE-ID"
  }

  /** The position of the first component that is not an occurrence. */
  function MasterAt(components: seq<ICalComponent>): (k: nat)
    ensures k <= |components|
    ensures k < |components| ==> !IsOccurrence(components[k].content)
    ensures forall j :: 0 <= j < k ==> IsOccurrence(components[j].content)
  {
    if components == [] || !IsOccurrence(components[0].content) then 0
    else 1 + MasterAt(components[1..])
  }

  function Contents(components: seq<ICalComponent>): (contents: seq<Content>)
    ensures |contents| == |components|
    ensures forall i :: 0 <= i < |components| ==> contents[i] == components[i].content
  {
    seq(|components|, i requires 0 <= i < |components| => components[i].content)
  }

  /** The components that are not this one, in order. */
  function Without(components: seq<ICalComponent>, master: ICalComponent): (rest: seq<ICalComponent>) {
    if components == [] then []
    else (if components[0] == master then [] else [components[0]]) + Without(components[1..], master)
  }

  predicate Distinct(components: seq<ICalComponent>) {
    forall i, j :: 0 <= i < j < |components| ==> components[i] != components[j]
  }

  lemma {:induction false} WithoutAbsent(components: seq<ICalComponent>, master: ICalComponent)
    requires master !in components
    ensures Without(components, master) == components
  {
    if components != [] {
      WithoutAbsent(components[1..], master);
      assert components == [components[0]] + components[1..];
    }
  }

  /** Of distinct components, all but the master stay, each once and in order. */
  lemma {:induction false} WithoutOne(components: seq<ICalComponent>, k: nat)
    requires Distinct(components) && k < |components|
    ensures Without(components, components[k]) == components[..k] + components[k + 1..]
  {
    var master := components[k];
    if k == 0 {
      WithoutAbsent(components[1..], master);
    } else {
      WithoutOne(components[1..], k - 1);
      assert components[1..][..k - 1] == components[1..k];
      assert components[1..][k..] == components[k + 1..];
      assert components[..k] == [components[0]] + components[1..k];
    }
  }

  /** Whatever repeats in the list, each other component is sent as often as it is listed. */
  lemma {:induction false} WithoutCounts(components: seq<ICalComponent>, master: ICalComponent, c: ICalComponent)
    ensures multiset(Without(components, master))[c] == if c == master then 0 else multiset(components)[c]
  {
    if components != [] {
      WithoutCounts(components[1..], master, c);
      assert components == [components[0]] + components[1..];
    }
  }

  // ---------------------------------------------------------------------------
  // Time zones

  /** A part of a calendar: a time-zone definition, whose TZID may be missing, or an item. */
  datatype Part = Zone(tzid: Option<string>, rules: string) | Item(content: Content)

  /** The zones that a lookup finds. A zone may have no definition that can be copied. */
  datatype Zones = Zones(
    byTzid: map<string, Option<Part>>,
    byName: map<string, Option<Part>>,
    cache: Option<map<string, Option<Part>>>)

  function Resolve(zones: Zones, tzid: string): (zone: Option<Option<Part>>) {
    if tzid in zones.byTzid then Some(zones.byTzid[tzid])
    else if tzid in zones.byName then Some(zones.byName[tzid])
    else if zones.cache.Some? && tzid in zones.cache.value then Some(zones.cache.value[tzid])
    else None
  }

  /** The definition under the name that the items use, if the zone resolves and can be renamed. */
  function Definition(zones: Zones, tzid: string): (part: Option<Part>)
    ensures part.Some? ==> part.value.Zone? && part.value.tzid == Some(tzid)
  {
    match Resolve(zones, tzid)
    case Some(Some(Zone(Some(_), rules))) => Some(Zone(Some(tzid), rules))
    case _ => None
  }

  predicate Defines(parts: seq<Part>, tzid: string) {
    exists i :: 0 <= i < |parts| && parts[i].Zone? && parts[i].tzid == Some(tzid)
  }

  function AddTzid(tzids: seq<string>, property: Property): (r: seq<string>) {
    if property.tzid.Some? && property.tzid.value != "" && property.tzid.value !in tzids
    then tzids + [property.tzid.value] else tzids
  }

  function AddTzids(tzids: seq<string>, content: Content): (r: seq<string>)
    decreases |content|
  {
    if content == [] then tzids else AddTzid(AddTzids(tzids, content[..|content| - 1]), content[|content| - 1])
  }

  /** The time zones that the contents name, each once, in the order of their first mention. */
  function Tzids(contents: seq<Content>): (tzids: seq<string>) {
    if contents == [] then [] else AddTzids(Tzids(contents[..|contents| - 1]), contents[|contents| - 1])
  }

  predicate Mentions(content: Content, tzid: string) {
    exists i :: 0 <= i < |content| && content[i].tzid == Some(tzid)
  }

  predicate Mentioned(contents: seq<Content>, tzid: string) {
    tzid != "" && exists i :: 0 <= i < |contents| && Mentions(contents[i], tzid)
  }

  predicate NoRepeat(tzids: seq<string>) {
    forall i, j :: 0 <= i < j < |tzids| ==> tzids[i] != tzids[j]
  }

  lemma {:induction false} AddTzidsAre(tzids: seq<string>, content: Content, tzid: string)
    requires NoRepeat(tzids)
    ensures NoRepeat(AddTzids(tzids, content))
    ensures tzid in AddTzids(tzids, content) <==> tzid in tzids || (tzid != "" && Mentions(content, tzid))
    decreases |content|
  {
    if content != [] {
      var before, last := content[..|content| - 1], content[|content| - 1];
      AddTzidsAre(tzids, before, tzid);
      assert Mentions(content, tzid) <==> Mentions(before, tzid) || last.tzid == Some(tzid) by {
        assert content[|content| - 1] == last;
        assert forall i :: 0 <= i < |before| ==> content[i] == before[i];
      }
    }
  }

  /** The collected time zones are exactly the non-empty ones that some property names. */
  lemma {:induction false} TzidsAre(contents: seq<Content>, tzid: string)
    ensures NoRepeat(Tzids(contents))
    ensures tzid in Tzids(contents) <==> Mentioned(contents, tzid)
  {
    if contents != [] {
      var before, last := contents[..|contents| - 1], contents[|contents| - 1];
      TzidsAre(before, tzid);
      AddTzidsAre(Tzids(before), last, tzid);
      assert contents[|contents| - 1] == last;
      assert forall i :: 0 <= i < |before| ==> contents[i] == before[i];
    }
  }

  method ReferencedTzids(components: seq<ICalComponent>) returns (tzids: seq<string>)
    ensures tzids == Tzids(Contents(components))
  {
    tzids := [];
    var contents := Contents(components);
    for i := 0 to |components|
      invariant tzids == Tzids(contents[..i])
    {
      var content := components[i].content;
      ghost var start := tzids;
      for j := 0 to |content|
        invariant tzids == AddTzids(start, content[..j])
      {
        var property := content[j];
        assert content[..j + 1][..j] == content[..j];
        if property.tzid.Some? {
          var tzid := property.tzid.value;
          if tzid != "" && tzid !in tzids {
            tzids := tzids + [tzid];
          }
        }
      }
      assert content[..|content|] == content;
      assert contents[..i + 1][..i] == contents[..i];
    }
    assert contents[..|components|] == contents;
  }

  function Embed(parts: seq<Part>, zones: Zones, tzid: string): (r: seq<Part>) {
    if !Defines(parts, tzid) && Definition(zones, tzid).Some? then parts + [Definition(zones, tzid).value] else parts
  }

  /** The calendar after a definition for each time zone that lacks one and resolves. */
  function Embedded(parts: seq<Part>, zones: Zones, tzids: seq<string>): (r: seq<Part>)
    decreases |tzids|
  {
    if tzids == [] then parts
    else Embed(Embedded(parts, zones, tzids[..|tzids| - 1]), zones, tzids[|tzids| - 1])
  }

  class Calendar {
    var parts: seq<Part>

    constructor ()
      ensures parts == []
    {
      parts := [];
    }

    method Take(part: Part)
      modifies this
      ensures parts == old(parts) + [part]
    {
      parts := parts + [part];
    }

    /** Adds the definitions that the components need and the calendar lacks. */
    method TakeReferencedTimeZones(components: seq<ICalComponent>, zones: Zones) returns (defined: bool)
      modifies this
      ensures parts == Embedded(old(parts), zones, Tzids(Contents(components)))
      ensures defined <==> parts != old(parts)
    {
      defined := false;
      var tzids := ReferencedTzids(components);
      for i := 0 to |tzids|
        invariant parts == Embedded(old(parts), zones, tzids[..i])
        invariant |old(parts)| <= |parts|
        invariant !defined ==> parts == old(parts)
        invariant defined ==> |old(parts)| < |parts|
      {
        var tzid := tzids[i];
        assert tzids[..i + 1][..i] == tzids[..i];
        if Defines(parts, tzid) {
          continue;
        }
        var zone := Resolve(zones, tzid);
        if zone.None? || zone.value.None? {
          continue;
        }
        var copy := zone.value.value;
        if copy.Zone? && copy.tzid.Some? {
          Take(copy.(tzid := Some(tzid)));
          defined := true;
        }
      }
      assert tzids[..|tzids|] == tzids;
    }
  }

  lemma {:induction false} EmbedDefines(parts: seq<Part>, zones: Zones, tzid: string, other: string)
    ensures parts <= Embed(parts, zones, tzid)
    ensures Defines(Embed(parts, zones, tzid), other) <==>
            Defines(parts, other) || (other == tzid && Definition(zones, tzid).Some?)
  {
    var after := Embed(parts, zones, tzid);
    assert forall i :: 0 <= i < |parts| ==> after[i] == parts[i];
    if |after| > |parts| {
      assert after[|parts|].tzid == Some(tzid);
    }
  }

  /** Prior content stays. A zone is defined afterwards exactly if it was before, or it is listed and
      has a definition to copy. */
  lemma {:induction false} EmbeddedDefines(parts: seq<Part>, zones: Zones, tzids: seq<string>, tzid: string)
    ensures parts <= Embedded(parts, zones, tzids)
    ensures Defines(Embedded(parts, zones, tzids), tzid) <==>
            Defines(parts, tzid) || (tzid in tzids && Definition(zones, tzid).Some?)
    decreases |tzids|
  {
    if tzids != [] {
      var before, last := tzids[..|tzids| - 1], tzids[|tzids| - 1];
      EmbeddedDefines(parts, zones, before, tzid);
      EmbedDefines(Embedded(parts, zones, before), zones, last, tzid);
      assert tzids == before + [last];
    }
  }

  /** How many definitions of a zone the calendar has. */
  function Count(parts: seq<Part>, tzid: string): (n: nat) {
    if parts == [] then 0
    else Count(parts[..|parts| - 1], tzid) +
         (if parts[|parts| - 1].Zone? && parts[|parts| - 1].tzid == Some(tzid) then 1 else 0)
  }

  lemma {:induction false} CountDefines(parts: seq<Part>, tzid: string)
    ensures Count(parts, tzid) > 0 <==> Defines(parts, tzid)
  {
    if parts != [] {
      CountDefines(parts[..|parts| - 1], tzid);
      assert parts[|parts| - 1] in parts;
    }
  }

  /** A zone gains one definition if it is listed, undefined and has a definition to copy; else none. */
  lemma {:induction false} EmbeddedCounts(parts: seq<Part>, zones: Zones, tzids: seq<string>, tzid: string)
    ensures Count(Embedded(parts, zones, tzids), tzid) == Count(parts, tzid) +
            (if tzid in tzids && !Defines(parts, tzid) && Definition(zones, tzid).Some? then 1 else 0)
    decreases |tzids|
  {
    if tzids != [] {
      var before, last := tzids[..|tzids| - 1], tzids[|tzids| - 1];
      var mid := Embedded(parts, zones, before);
      EmbeddedCounts(parts, zones, before, tzid);
      EmbeddedDefines(parts, zones, before, tzid);
      assert tzids == before + [last];
      var after := Embed(mid, zones, last);
      if after != mid {
        assert after[..|after| - 1] == mid;
      }
    }
  }

  /** A second pass over the same components adds nothing. */
  lemma {:induction false} EmbeddedIdempotent(parts: seq<Part>, zones: Zones, tzids: seq<string>, again: seq<string>)
    requires forall tzid :: tzid in again ==> tzid in tzids
    ensures Embedded(Embedded(parts, zones, tzids), zones, again) == Embedded(parts, zones, tzids)
    decreases |again|
  {
    if again != [] {
      EmbeddedIdempotent(parts, zones, tzids, again[..|again| - 1]);
      EmbeddedDefines(parts, zones, tzids, again[|again| - 1]);
    }
  }

  /** Every time zone that a component names is defined in the calendar, if there is a definition, and
      once if it was not defined before. */
  lemma {:induction false} TimeZonesClosed(parts: seq<Part>, zones: Zones, contents: seq<Content>, tzid: string)
    ensures Mentioned(contents, tzid) && Definition(zones, tzid).Some? ==>
              Defines(Embedded(parts, zones, Tzids(contents)), tzid)
    ensures Count(Embedded(parts, zones, Tzids(contents)), tzid) ==
            (if Defines(parts, tzid) then Count(parts, tzid)
             else if Mentioned(contents, tzid) && Definition(zones, tzid).Some? then 1 else 0)
    ensures Embedded(Embedded(parts, zones, Tzids(contents)), zones, Tzids(contents)) == Embedded(parts, zones, Tzids(contents))
  {
    TzidsAre(contents, tzid);
    EmbeddedDefines(parts, zones, Tzids(contents), tzid);
    EmbeddedCounts(parts, zones, Tzids(contents), tzid);
    CountDefines(parts, tzid);
    EmbeddedIdempotent(parts, zones, Tzids(contents), Tzids(contents));
  }

  // ---------------------------------------------------------------------------
  // The whole object

  function Items(components: seq<ICalComponent>): (parts: seq<Part>)
    ensures |parts| == |components|
    ensures forall i :: 0 <= i < |components| ==> parts[i] == Item(components[i].content)
  {
    seq(|components|, i requires 0 <= i < |components| => Item(components[i].content))
  }

  lemma {:induction false} ItemsAppend(components: seq<ICalComponent>, c: ICalComponent)
    ensures Items(components + [c]) == Items(components) + [Item(c.content)]
  {
  }

  lemma {:induction false} WithoutSnoc(components: seq<ICalComponent>, master: ICalComponent)
    requires components != []
    ensures Without(components, master) ==
            Without(components[..|components| - 1], master) +
            (if components[|components| - 1] == master then [] else [components[|components| - 1]])
  {
    if |components| > 1 {
      WithoutSnoc(components[1..], master);
      assert components[1..][..|components| - 2] == components[..|components| - 1][1..];
    }
  }

  /** The calendar that the components make, with the master at position `k`. */
  function Composed(components: seq<ICalComponent>, k: nat, zones: Zones): (parts: seq<Part>)
    requires k < |components|
  {
    Embedded([], zones, Tzids(Contents(components))) +
    [Item(components[k].content)] + Items(Without(components, components[k]))
  }

  method TakeOthers(calendar: Calendar, components: seq<ICalComponent>, master: ICalComponent)
    modifies calendar
    ensures calendar.parts == old(calendar.parts) + Items(Without(components, master))
  {
    for i := 0 to |components|
      invariant calendar.parts == old(calendar.parts) + Items(Without(components[..i], master))
    {
      assert components[..i + 1][..i] == components[..i];
      WithoutSnoc(components[..i + 1], master);
      if components[i] != master {
        ItemsAppend(Without(components[..i], master), components[i]);
        calendar.Take(Item(components[i].content));
      }
    }
    assert components[..|components|] == components;
  }

  method Compose(components: seq<ICalComponent>, k: nat, zones: Zones) returns (parts: seq<Part>)
    requires k < |components|
    ensures parts == Composed(components, k, zones)
  {
    var calendar := new Calendar();
    var _ := calendar.TakeReferencedTimeZones(components, zones);
    calendar.Take(Item(components[k].content));
    TakeOthers(calendar, components, components[k]);
    parts := calendar.parts;
  }

  /** The object of a save: nothing without a master, else the definitions of the named time zones,
      the master, and every other instance in list order. */
  method FromInstances(instances: Node?, ghost nodes: seq<Node>, zones: Zones) returns (saved: Option<seq<Part>>)
    requires Chain(instances, nodes)
    ensures saved.None? <==> MasterAt(Inners(nodes)) == |Inners(nodes)|
    ensures saved.Some? ==> saved.value == Composed(Inners(nodes), MasterAt(Inners(nodes)), zones)
  {
    var components := InstanceComponents(instances, nodes);
    var k := MasterAt(components);
    if k == |components| {
      return None;
    }
    var parts := Compose(components, k, zones);
    return Some(parts);
  }

  /** Of distinct instances, the object holds the master first, then each other instance once and in
      list order, and nothing else. */
  lemma {:induction false} DistinctInstancesSent(components: seq<ICalComponent>, zones: Zones)
    requires Distinct(components) && MasterAt(components) < |components|
    ensures var k := MasterAt(components);
            Composed(components, k, zones) ==
            Embedded([], zones, Tzids(Contents(components))) +
            [Item(components[k].content)] + Items(components[..k] + components[k + 1..])
  {
    WithoutOne(components, MasterAt(components));
  }
}
