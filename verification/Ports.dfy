/** The ports a container exposes: those of its image and those published for it, as the collector
    takes them from the container and as the validator works them out again. */
module Ports {
  import opened Prelude
  import opened CanonicalJson
  import opened JsonRoundTrip
  import opened Sorting

  type PortNumber = n: int | 1 <= n <= 65535 witness 1

  datatype Protocol = Sctp | Tcp | Udp

  datatype Port = Port(number: PortNumber, protocol: Protocol)

  datatype Published = Published(port: Port, hostIp: string, hostPort: string)

  // --------------------------------------------------------------------------------------------
  // Ports as text
  // --------------------------------------------------------------------------------------------

  function Suffix(protocol: Protocol): string {
    match protocol case Sctp => "/sctp" case Tcp => "/tcp" case Udp => "/udp"
  }

  function PortText(p: Port): string {
    PrintNat(p.number) + Suffix(p.protocol)
  }

  /** The pattern: at most five digits, no leading zero, a known protocol. */
  function ReadPort(key: string): Option<Port> {
    match ReadNat(key)
    case Fail => None
    case Got(n, t) =>
      if !(1 <= n <= 65535) then None
      else if t == "/tcp" then Some(Port(n, Tcp))
      else if t == "/udp" then Some(Port(n, Udp))
      else if t == "/sctp" then Some(Port(n, Sctp))
      else None
  }

  lemma PortReads(key: string, p: Port)
    ensures ReadPort(key) == Some(p) <==> key == PortText(p)
  {
    NatRoundTrip(p.number, Suffix(p.protocol));
    if ReadNat(key).Got? { NatSpells(key); }
    hide ReadNat, PrintNat;
  }

  /** A number from 1 to 65535 without leading zeros, and one of three protocols. */
  lemma PortsRead(key: string, n: nat)
    ensures ReadPort(key).Some? ==>
      var p := ReadPort(key).value;
      1 <= p.number <= 65_535
      && key == PrintNat(p.number) + (match p.protocol case Tcp => "/tcp" case Udp => "/udp" case Sctp => "/sctp")
    ensures 1 <= n <= 65_535 ==>
      && ReadPort(PrintNat(n) + "/tcp") == Some(Port(n, Tcp))
      && ReadPort(PrintNat(n) + "/udp") == Some(Port(n, Udp))
      && ReadPort(PrintNat(n) + "/sctp") == Some(Port(n, Sctp))
  {
    hide ReadPort, PrintNat;
    if ReadPort(key).Some? { PortReads(key, ReadPort(key).value); }
    if 1 <= n <= 65_535 {
      PortReads(PrintNat(n) + "/tcp", Port(n, Tcp));
      PortReads(PrintNat(n) + "/udp", Port(n, Udp));
      PortReads(PrintNat(n) + "/sctp", Port(n, Sctp));
    }
  }

  lemma TextsTellPorts(p: Port, q: Port)
    requires PortText(p) == PortText(q)
    ensures p == q
  {
    PortReads(PortText(p), p);
    PortReads(PortText(p), q);
  }

  // --------------------------------------------------------------------------------------------
  // Order
  // --------------------------------------------------------------------------------------------

  /** The sort key: the number, then the protocol's name. */
  function PortKey(p: Port): Str {
    [p.number, match p.protocol case Sctp => 0 case Tcp => 1 case Udp => 2]
  }

  predicate Unrepeated(ports: seq<Port>) {
    forall i, j :: 0 <= i < j < |ports| ==> ports[i] != ports[j]
  }

  function PortSet(ports: seq<Port>): set<Port> { set p <- ports }

  /** The one ascending list of a set. */
  ghost predicate Lists(ports: seq<Port>, s: set<Port>) {
    Increasing(PortKey, ports) && PortSet(ports) == s
  }

  /** Ascending by number, and for one number sctp before tcp before udp. */
  lemma ListsTell(ports: seq<Port>, s: set<Port>)
    ensures Lists(ports, s) <==>
      && (forall p :: p in ports <==> p in s)
      && forall i, j :: 0 <= i < j < |ports| ==>
        || ports[i].number < ports[j].number
        || (ports[i].number == ports[j].number && ports[i].protocol != ports[j].protocol
            && (ports[i].protocol == Sctp || ports[j].protocol == Udp))
  {
    forall i, j | 0 <= i < j < |ports| {
      KeyTells(ports[i], ports[j]);
    }
    hide PortKey, Less;
    assert PortSet(ports) == s <==> forall p :: p in ports <==> p in s;
  }

  lemma KeyTells(p: Port, q: Port)
    ensures Less(PortKey(p), PortKey(q)) <==>
      || p.number < q.number
      || (p.number == q.number && p.protocol != q.protocol && (p.protocol == Sctp || q.protocol == Udp))
  {
    var a, b := PortKey(p), PortKey(q);
    if p.number == q.number {
      assert Less(a, b) <==> Less(a[1..], b[1..]);
    }
  }

  lemma KeysTellPorts(ports: seq<Port>)
    requires Unrepeated(ports)
    ensures Distinct(PortKey, ports)
  {
    forall i, j | 0 <= i < j < |ports| ensures PortKey(ports[i]) != PortKey(ports[j]) {
      assert PortKey(ports[i])[0] == ports[i].number && PortKey(ports[j])[0] == ports[j].number;
      assert PortKey(ports[i])[1] != PortKey(ports[j])[1] || ports[i].protocol == ports[j].protocol;
    }
  }

  lemma IncreasingIsUnrepeated(ports: seq<Port>)
    requires Increasing(PortKey, ports)
    ensures Unrepeated(ports)
  {
    hide PortKey, Less;
    forall i, j | 0 <= i < j < |ports| ensures ports[i] != ports[j] {
      assert Less(PortKey(ports[i]), PortKey(ports[j]));
      LessTotal(PortKey(ports[i]), PortKey(ports[j]));
    }
  }

  lemma {:induction false} CountOnce(ports: seq<Port>, p: Port)
    requires Unrepeated(ports)
    ensures multiset(ports)[p] == if p in ports then 1 else 0
  {
    if ports != [] {
      assert ports == [ports[0]] + ports[1..];
      CountOnce(ports[1..], p);
      forall i | 0 <= i < |ports[1..]| ensures ports[1..][i] != ports[0] {}
    }
  }

  lemma SameMultiset(a: seq<Port>, b: seq<Port>)
    requires Unrepeated(a) && Unrepeated(b) && PortSet(a) == PortSet(b)
    ensures multiset(a) == multiset(b)
  {
    forall p ensures multiset(a)[p] == multiset(b)[p] {
      CountOnce(a, p);
      CountOnce(b, p);
      assert p in PortSet(a) <==> p in PortSet(b);
    }
  }

  lemma OneList(a: seq<Port>, b: seq<Port>, s: set<Port>)
    requires Lists(a, s) && Lists(b, s)
    ensures a == b
  {
    hide Increasing;
    IncreasingIsUnrepeated(a);
    IncreasingIsUnrepeated(b);
    SameMultiset(a, b);
    OneIncreasingOrder(PortKey, a, b);
  }

  lemma {:induction false} SetSize(ports: seq<Port>)
    requires Unrepeated(ports)
    ensures |PortSet(ports)| == |ports|
  {
    if ports != [] {
      SetSize(ports[1..]);
      assert ports == [ports[0]] + ports[1..];
      assert PortSet(ports) == {ports[0]} + PortSet(ports[1..]);
      assert ports[0] !in PortSet(ports[1..]);
    }
  }

  /** Sorting a repeat-free list gives the list of its set. */
  lemma SortLists(ports: seq<Port>)
    requires Unrepeated(ports)
    ensures Lists(SortBy(PortKey, ports), PortSet(ports))
  {
    KeysTellPorts(ports);
    SortingOrders(PortKey, ports);
    hide Increasing, Distinct, Unrepeated;
    var sorted := SortBy(PortKey, ports);
    forall p ensures p in PortSet(sorted) <==> p in PortSet(ports) {
      assert p in sorted <==> p in multiset(sorted);
      assert p in ports <==> p in multiset(ports);
    }
  }

  // --------------------------------------------------------------------------------------------
  // The union
  // --------------------------------------------------------------------------------------------

  function Union(image: seq<Port>, published: seq<Published>): set<Port> {
    PortSet(image) + set p <- published :: p.port
  }

  /** Both scripts sort what a set of keys yields, in whatever order it does. */
  method EffectivePorts(image: seq<Port>, published: seq<Published>) returns (ports: seq<Port>)
    ensures Lists(ports, Union(image, published))
  {
    var left := Union(image, published);
    var listed: seq<Port> := [];
    while left != {}
      invariant Unrepeated(listed)
      invariant PortSet(listed) !! left && PortSet(listed) + left == Union(image, published)
      decreases |left|
    {
      var p :| p in left;
      assert p !in PortSet(listed);
      assert PortSet(listed + [p]) == PortSet(listed) + {p};
      listed := listed + [p];
      left := left - {p};
    }
    SortLists(listed);
    return SortBy(PortKey, listed);
  }

  // --------------------------------------------------------------------------------------------
  // The container's own ports
  // --------------------------------------------------------------------------------------------

  /** What a configuration holds as ExposedPorts; of a value only whether it is an empty object. */
  datatype Exposed = Absent | NoObject | Entries(entries: map<string, bool>)

  function Texts(s: set<Port>): set<string> { set p <- s :: PortText(p) }

  lemma OneMore(ports: seq<Port>, p: Port)
    requires Unrepeated(ports) && PortText(p) !in Texts(PortSet(ports))
    ensures Unrepeated(ports + [p])
    ensures Texts(PortSet(ports + [p])) == Texts(PortSet(ports)) + {PortText(p)}
  {
    hide PortText;
    assert PortSet(ports + [p]) == PortSet(ports) + {p};
    assert p !in PortSet(ports);
  }

  /** These ports and no others, spelled in their one way. */
  ghost predicate Exposes(raw: Exposed, s: set<Port>) {
    match raw
    case Absent => s == {}
    case NoObject => false
    case Entries(entries) => entries.Keys == Texts(s) && forall k <- entries :: entries[k]
  }

  method Normalized(entries: map<string, bool>) returns (r: Option<seq<Port>>)
    ensures r.None? ==> exists k :: k in entries && (ReadPort(k).None? || !entries[k])
    ensures r.Some? ==> Unrepeated(r.value) && Texts(PortSet(r.value)) == entries.Keys && forall k <- entries :: entries[k]
  {
    hide PortText, ReadPort, Texts, PortSet, Unrepeated;
    NoTexts();
    var left := entries.Keys;
    var normalized: seq<Port> := [];
    while left != {}
      invariant left <= entries.Keys && Unrepeated(normalized)
      invariant forall k <- entries.Keys - left :: entries[k]
      invariant Texts(PortSet(normalized)) == entries.Keys - left
      decreases |left|
    {
      var key :| key in left;
      var port := ReadPort(key);
      if port.None? || !entries[key] { return None; }
      PortReads(key, port.value);
      OneMore(normalized, port.value);
      normalized := normalized + [port.value];
      left := left - {key};
    }
    r := Some(normalized);
  }

  method SafeConfigPorts(raw: Exposed) returns (r: Option<seq<Port>>)
    ensures r.Some? ==> Exposes(raw, PortSet(r.value)) && Increasing(PortKey, r.value)
    ensures r.None? ==> forall s :: !Exposes(raw, s)
  {
    hide PortText, ReadPort, PortKey, Texts, PortSet, Unrepeated, Increasing;
    NoTexts();
    if raw.NoObject? { return None; }
    var normalized := Normalized(if raw.Absent? then map[] else raw.entries);
    if normalized.None? {
      var key :| key in raw.entries && (ReadPort(key).None? || !raw.entries[key]);
      forall s ensures !Exposes(raw, s) { Unreadable(raw, key, s); }
      return None;
    }
    SortLists(normalized.value);
    if raw.Absent? { TextsOfNone(PortSet(normalized.value)); }
    r := Some(SortBy(PortKey, normalized.value));
  }

  lemma TextsOfNone(s: set<Port>)
    requires Texts(s) == {}
    ensures s == {}
  {
    hide PortText;
    forall p ensures p in s ==> PortText(p) in Texts(s) {}
  }

  lemma NoTexts()
    ensures Texts({}) == {} && PortSet([]) == {} && Unrepeated([])
  {
  }

  lemma Unreadable(raw: Exposed, key: string, s: set<Port>)
    requires raw.Entries? && key in raw.entries && (ReadPort(key).None? || !raw.entries[key])
    ensures !Exposes(raw, s)
  {
    if Exposes(raw, s) {
      var p :| p in s && key == PortText(p);
      PortReads(key, p);
    }
  }

  lemma ExposesOne(raw: Exposed, s: set<Port>, t: set<Port>)
    requires Exposes(raw, s) && Exposes(raw, t)
    ensures s == t
  {
    if raw.Entries? {
      forall p | p in s ensures p in t { SpelledInBoth(raw.entries.Keys, s, t, p); }
      forall p | p in t ensures p in s { SpelledInBoth(raw.entries.Keys, t, s, p); }
    }
  }

  lemma SpelledInBoth(keys: set<string>, s: set<Port>, t: set<Port>, p: Port)
    requires keys == Texts(s) && keys == Texts(t) && p in s
    ensures p in t
  {
    hide PortText;
    assert PortText(p) in keys;
    var q :| q in t && PortText(q) == PortText(p);
    TextsTellPorts(p, q);
  }

  /** The texts of a list. */
  function Spelled(ports: seq<Port>): seq<string> {
    seq(|ports|, i requires 0 <= i < |ports| => PortText(ports[i]))
  }

  /** The validator takes the list of an image's ports only in ascending order. */
  method SafeExposedPortList(value: seq<string>) returns (r: Option<seq<Port>>)
    ensures r.Some? ==> value == Spelled(r.value) && Increasing(PortKey, r.value)
    ensures r.None? ==> forall ports :: !(value == Spelled(ports) && Increasing(PortKey, ports))
  {
    hide PortText, ReadPort, PortKey;
    var normalized: seq<Port> := [];
    var i := 0;
    while i < |value|
      invariant 0 <= i <= |value| && Spelled(normalized) == value[..i]
    {
      var port := ReadPort(value[i]);
      forall p ensures ReadPort(value[i]) == Some(p) <==> value[i] == PortText(p) { PortReads(value[i], p); }
      if port.None? {
        forall ports ensures value != Spelled(ports) { NotSpelled(value, i, ports); }
        return None;
      }
      assert Spelled(normalized + [port.value]) == Spelled(normalized) + [value[i]];
      normalized := normalized + [port.value];
      i := i + 1;
    }
    assert Spelled(normalized) == value;
    forall ports | value == Spelled(ports) ensures ports == normalized { SpelledOnce(ports, normalized); }
    if Unrepeated(normalized) && SortBy(PortKey, normalized) == normalized {
      SortLists(normalized);
      return Some(normalized);
    }
    if Increasing(PortKey, normalized) {
      IncreasingIsUnrepeated(normalized);
      SortLists(normalized);
      OneList(SortBy(PortKey, normalized), normalized, PortSet(normalized));
    }
    return None;
  }

  lemma NotSpelled(value: seq<string>, i: nat, ports: seq<Port>)
    requires i < |value| && forall p :: value[i] != PortText(p)
    ensures value != Spelled(ports)
  {
    hide PortText;
    assert i < |ports| ==> Spelled(ports)[i] == PortText(ports[i]);
  }

  lemma SpelledOnce(a: seq<Port>, b: seq<Port>)
    requires Spelled(a) == Spelled(b)
    ensures a == b
  {
    hide PortText;
    assert |a| == |Spelled(a)| == |Spelled(b)| == |b|;
    forall i | 0 <= i < |a| ensures a[i] == b[i] {
      assert Spelled(a)[i] == PortText(a[i]) && Spelled(b)[i] == PortText(b[i]);
      TextsTellPorts(a[i], b[i]);
    }
  }

  // --------------------------------------------------------------------------------------------
  // The two accounts
  // --------------------------------------------------------------------------------------------

  datatype PortAccount = PortAccount(ports: seq<Port>, count: nat, published: nat)

  ghost predicate Accounts(a: PortAccount, image: seq<Port>, published: seq<Published>) {
    && Lists(a.ports, Union(image, published))
    && a.count == |Union(image, published)|
    && a.published == |published|
  }

  /** The collector: the container must expose the union, exactly. */
  /** The account in full: every port of either list once, in ascending order, and both numbers. */
  lemma AccountTells(a: PortAccount, image: seq<Port>, published: seq<Published>)
    ensures Accounts(a, image, published) <==>
      && (forall p :: p in a.ports <==> p in image || exists x :: x in published && x.port == p)
      && (forall i, j :: 0 <= i < j < |a.ports| ==>
            || a.ports[i].number < a.ports[j].number
            || (a.ports[i].number == a.ports[j].number && a.ports[i].protocol != a.ports[j].protocol
                && (a.ports[i].protocol == Sctp || a.ports[j].protocol == Udp)))
      && a.count == |a.ports| && a.published == |published|
  {
    var s := Union(image, published);
    assert forall p :: p in s <==> p in image || exists x :: x in published && x.port == p;
    assert Increasing(PortKey, a.ports) <==> Lists(a.ports, PortSet(a.ports));
    assert Lists(a.ports, s) ==> PortSet(a.ports) == s;
    hide Lists, PortKey, Union, Increasing;
    ListsTell(a.ports, s);
    ListsTell(a.ports, PortSet(a.ports));
    if Lists(a.ports, PortSet(a.ports)) {
      IncreasingIsUnrepeated(a.ports);
      SetSize(a.ports);
    }
  }

  method CollectPorts(raw: Exposed, image: seq<Port>, published: seq<Published>) returns (r: Option<PortAccount>)
    ensures r.Some? <==> Exposes(raw, Union(image, published))
    ensures r.Some? ==> Accounts(r.value, image, published)
  {
    hide Exposes, Union, PortSet;
    var ports := EffectivePorts(image, published);
    var own := SafeConfigPorts(raw);
    IncreasingIsUnrepeated(ports);
    SetSize(ports);
    if own.Some? && Exposes(raw, Union(image, published)) {
      ExposesOne(raw, PortSet(own.value), Union(image, published));
      OneList(own.value, ports, Union(image, published));
    }
    if own.None? || own.value != ports { return None; }
    return Some(PortAccount(ports, |ports|, |published|));
  }

  /** The validator, from the image list and the published list it was given. */
  method ExpectedPorts(image: seq<Port>, published: seq<Published>) returns (a: PortAccount)
    ensures Accounts(a, image, published)
  {
    var ports := EffectivePorts(image, published);
    IncreasingIsUnrepeated(ports);
    SetSize(ports);
    return PortAccount(ports, |ports|, |published|);
  }

  /** Whatever the order and the overlaps of the lists they start from, collector and validator give
      the same account exactly when these lists have the same union and as many ports are published. */
  lemma PortsAgree(a: PortAccount, b: PortAccount, image: seq<Port>, published: seq<Published>,
                   otherImage: seq<Port>, otherPublished: seq<Published>)
    requires Accounts(a, image, published) && Accounts(b, otherImage, otherPublished)
    ensures a == b <==>
      Union(image, published) == Union(otherImage, otherPublished) && |published| == |otherPublished|
  {
    hide Union, PortSet;
    if Union(image, published) == Union(otherImage, otherPublished) {
      OneList(a.ports, b.ports, Union(image, published));
    }
  }
}
