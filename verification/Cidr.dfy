/** IPv4 prefixes (RFC 4632, section 3.1): which may be used for the four sandbox networks. */
module Cidr {
  import opened Prelude

  const SPACE := 0x1_0000_0000

  function Pow2(n: nat): (p: nat)
    ensures p > 0
  {
    if n == 0 then 1 else 2 * Pow2(n - 1)
  }

  datatype Network = Network(base: nat, prefix: nat)

  function Size(prefix: nat): (s: nat)
    requires prefix <= 32
    ensures s > 0
  {
    Pow2(32 - prefix)
  }

  function Times(k: nat, s: nat): nat { k * s }

  function Quotient(a: nat, s: nat): nat
    requires s > 0
  {
    a / s
  }

  /** The address with its host bits cleared. */
  function Masked(address: nat, prefix: nat): nat
    requires prefix <= 32
  {
    Times(Quotient(address, Size(prefix)), Size(prefix))
  }

  predicate IsNetwork(n: Network) {
    n.prefix <= 32 && n.base < SPACE && Masked(n.base, n.prefix) == n.base
  }

  predicate Contains(n: Network, address: nat)
    requires n.prefix <= 32
  {
    Masked(address, n.prefix) == n.base
  }

  function Broadcast(n: Network): nat
    requires n.prefix <= 32
  {
    n.base + Size(n.prefix) - 1
  }

  /** The address library's test: an end of one lies in the other. */
  predicate Overlaps(m: Network, n: Network)
    requires m.prefix <= 32 && n.prefix <= 32
  {
    Contains(m, n.base) || Contains(m, Broadcast(n)) || Contains(n, m.base) || Contains(n, Broadcast(m))
  }

  predicate SubnetOf(m: Network, n: Network)
    requires m.prefix <= 32 && n.prefix <= 32
  {
    n.base <= m.base && Broadcast(m) <= Broadcast(n)
  }

  // --------------------------------------------------------------------------------------------
  // Blocks
  // --------------------------------------------------------------------------------------------

  lemma {:induction false} Multiples(i: nat, j: nat, s: nat)
    ensures i < j ==> Times(i, s) + s <= Times(j, s)
  {
    if i < j {
      assert j * s == (j - 1) * s + s;
      Multiples(i, j - 1, s);
    }
  }

  lemma QuotientBounds(a: nat, s: nat, k: nat)
    requires s > 0
    ensures Quotient(a, s) == k <==> Times(k, s) <= a < Times(k, s) + s
  {
    assert a == s * (a / s) + a % s;
    assert Times(Quotient(a, s), s) <= a < Times(Quotient(a, s), s) + s;
    hide Times, Quotient;
    Multiples(Quotient(a, s), k, s);
    Multiples(k, Quotient(a, s), s);
  }

  /** A network holds one block of consecutive addresses. */
  lemma ContainsIsRange(n: Network, address: nat)
    requires IsNetwork(n)
    ensures Contains(n, address) <==> n.base <= address <= Broadcast(n)
  {
    hide Times, Quotient;
    var s := Size(n.prefix);
    var k := Quotient(n.base, s);
    QuotientBounds(address, s, k);
    Multiples(Quotient(address, s), k, s);
    Multiples(k, Quotient(address, s), s);
  }

  /** A block of size s that meets a run of such blocks is one of them. */
  lemma BlockInRun(p: nat, q: nat, j: nat, s: nat, a: nat)
    requires Times(p, s) <= a < Times(q, s) && Times(j, s) <= a < Times(j, s) + s
    ensures Times(p, s) <= Times(j, s) && Times(j, s) + s <= Times(q, s)
  {
    hide Times;
    Multiples(j, p, s);
    Multiples(p, j, s);
    Multiples(q, j, s);
    Multiples(j, q, s);
    assert j < q;
  }

  lemma {:induction false} PowersSplit(i: nat, j: nat)
    ensures Pow2(i + j) == Pow2(i) * Pow2(j)
  {
    if i > 0 {
      PowersSplit(i - 1, j);
      assert Pow2(i) * Pow2(j) == 2 * (Pow2(i - 1) * Pow2(j));
    }
  }

  lemma Powers()
    ensures Pow2(16) == 0x1_0000 && Pow2(20) == 0x10_0000 && Pow2(24) == 0x100_0000 && Pow2(32) == SPACE
    ensures Pow2(8) == 0x100
  {
    assert Pow2(4) == 16;
    PowersSplit(4, 4);
    PowersSplit(8, 8);
    PowersSplit(16, 4);
    PowersSplit(16, 8);
    PowersSplit(16, 16);
  }

  lemma Regroup(i: nat, t: nat, s: nat)
    ensures Times(i, Times(t, s)) == Times(Times(i, t), s)
    ensures Times(i, Times(t, s)) + Times(t, s) == Times(Times(i, t) + t, s)
  {
    assert i * (t * s) == (i * t) * s;
    assert (i * t + t) * s == (i * t) * s + t * s;
  }

  lemma SizesDivide(p: nat, q: nat)
    requires p <= q <= 32
    ensures Size(p) == Times(Pow2(q - p), Size(q))
  {
    PowersSplit(q - p, 32 - q);
  }

  /** Of two blocks that share an address the one with the longer prefix lies in the other. */
  lemma SharedMeansNested(m: Network, n: Network, address: nat)
    requires IsNetwork(m) && IsNetwork(n) && m.prefix <= n.prefix
    requires Contains(m, address) && Contains(n, address)
    ensures SubnetOf(n, m)
  {
    ContainsIsRange(m, address);
    ContainsIsRange(n, address);
    hide Times, Quotient, Pow2, Size;
    var s, t := Size(n.prefix), Pow2(n.prefix - m.prefix);
    SizesDivide(m.prefix, n.prefix);
    var i, j := Quotient(m.base, Size(m.prefix)), Quotient(n.base, s);
    Regroup(i, t, s);
    BlockInRun(Times(i, t), Times(i, t) + t, j, s, address);
  }

  predicate Disjoint(m: Network, n: Network)
    requires m.prefix <= 32 && n.prefix <= 32
  {
    forall a: nat | a < SPACE :: !(Contains(m, a) && Contains(n, a))
  }

  lemma WholeSpace()
    ensures Size(0) == SPACE
  {
    Powers();
  }

  lemma EndsInside(n: Network)
    requires IsNetwork(n)
    ensures Contains(n, n.base) && Contains(n, Broadcast(n)) && Broadcast(n) < SPACE
  {
    ContainsIsRange(n, n.base);
    ContainsIsRange(n, Broadcast(n));
    hide Times, Quotient, Pow2, Size;
    var s, t := Size(n.prefix), Pow2(n.prefix);
    SizesDivide(0, n.prefix);
    WholeSpace();
    var k := Quotient(n.base, s);
    Multiples(k, t, s);
    Multiples(t, k, s);
    assert k < t;
  }

  /** Two prefix blocks are nested or have no address in common, and testing their ends tells which. */
  lemma BlocksNestOrPart(m: Network, n: Network)
    requires IsNetwork(m) && IsNetwork(n)
    ensures Overlaps(m, n) <==> exists a: nat :: a < SPACE && Contains(m, a) && Contains(n, a)
    ensures Overlaps(m, n) <==> SubnetOf(m, n) || SubnetOf(n, m)
    ensures Overlaps(m, n) <==> !Disjoint(m, n)
  {
    EndsInside(m);
    EndsInside(n);
    ContainsIsRange(m, n.base);
    ContainsIsRange(n, m.base);
    hide Contains, IsNetwork, Size;
    forall a: nat | a < SPACE && Contains(m, a) && Contains(n, a) ensures SubnetOf(m, n) || SubnetOf(n, m) {
      if m.prefix <= n.prefix { SharedMeansNested(m, n, a); } else { SharedMeansNested(n, m, a); }
    }
  }

  // --------------------------------------------------------------------------------------------
  // The four proposed networks
  // --------------------------------------------------------------------------------------------

  /** RFC 1918, section 3. */
  const PRIVATE := [Network(0x0a00_0000, 8), Network(0xac10_0000, 12), Network(0xc0a8_0000, 16)]

  predicate IsPrivate(address: nat) {
    || 0x0a00_0000 <= address < 0x0b00_0000
    || 0xac10_0000 <= address < 0xac20_0000
    || 0xc0a8_0000 <= address < 0xc0a9_0000
  }

  /** What a text says when read as a network, host bits included; None is no network at all. */
  datatype Reading = V4(address: nat, prefix: nat) | V6

  predicate Legible(r: Reading) {
    r.V4? ==> r.address < SPACE && r.prefix <= 32
  }

  /** Strict reading: host bits must be clear. */
  predicate Admitted(value: Option<Reading>) {
    && value.Some? && value.value.V4? && value.value.prefix == 24
    && value.value.address < SPACE && Masked(value.value.address, 24) == value.value.address
    && exists i :: 0 <= i < 3 && SubnetOf(Network(value.value.address, 24), PRIVATE[i])
  }

  function NetworkOf(r: Reading): Network
    requires r.V4?
  {
    Network(r.address, r.prefix)
  }

  method ClosedSubnets(values: seq<Option<Reading>>) returns (r: Option<seq<Network>>)
    requires |values| == 4
    requires forall i :: 0 <= i < 4 && values[i].Some? ==> Legible(values[i].value)
    ensures r.Some? <==>
      && (forall i :: 0 <= i < 4 ==> Admitted(values[i]))
      && (forall i, j :: 0 <= i < j < 4 ==> values[i] != values[j])
    ensures r.Some? ==> |r.value| == 4 && forall i :: 0 <= i < 4 ==> r.value[i] == NetworkOf(values[i].value)
  {
    hide Admitted, Legible;
    var networks: seq<Network> := [];
    var i := 0;
    while i < |values|
      invariant 0 <= i <= 4 && |networks| == i
      invariant forall j :: 0 <= j < i ==> Admitted(values[j]) && IsV4(values[j]) && networks[j] == NetworkOf(values[j].value)
    {
      if !Admitted(values[i]) { return None; }
      AdmittedIsV4(values[i]);
      networks := networks + [NetworkOf(values[i].value)];
      i := i + 1;
    }
    CountFour(networks);
    if |(set n <- networks)| != 4 { return None; }
    return Some(networks);
  }

  predicate IsV4(value: Option<Reading>) { value.Some? && value.value.V4? }

  lemma AdmittedIsV4(value: Option<Reading>)
    requires Admitted(value)
    ensures IsV4(value)
  {
  }

  lemma CountFour(s: seq<Network>)
    requires |s| == 4
    ensures |(set n <- s)| == 4 <==> forall i, j :: 0 <= i < j < 4 ==> s[i] != s[j]
  {
    assert s == [s[0], s[1], s[2], s[3]];
    assert (set n <- s) == {s[0], s[1], s[2], s[3]};
  }

  lemma PrivateBlocks()
    ensures forall i :: 0 <= i < 3 ==> IsNetwork(PRIVATE[i])
    ensures Broadcast(PRIVATE[0]) == 0x0aff_ffff && Broadcast(PRIVATE[1]) == 0xac1f_ffff
    ensures Broadcast(PRIVATE[2]) == 0xc0a8_ffff
  {
    Powers();
    hide Pow2;
    assert Size(8) == 0x100_0000 && Size(12) == 0x10_0000 && Size(16) == 0x1_0000;
  }

  lemma AdmittedIsPrivate(value: Option<Reading>)
    requires Admitted(value)
    ensures IsNetwork(NetworkOf(value.value))
    ensures forall a: nat :: Contains(NetworkOf(value.value), a) ==> IsPrivate(a)
  {
    PrivateBlocks();
    forall a: nat | Contains(NetworkOf(value.value), a) ensures IsPrivate(a) {
      ContainsIsRange(NetworkOf(value.value), a);
    }
  }

  /** Clearing the host bits is dropping the remainder of the block. */
  lemma MaskedTells(a: nat)
    ensures Masked(a, 8) == a - a % 0x100_0000 && Masked(a, 12) == a - a % 0x10_0000
    ensures Masked(a, 16) == a - a % 0x1_0000 && Masked(a, 24) == a - a % 0x100
    ensures Masked(a, 0) == a - a % 0x1_0000_0000 && Masked(a, 32) == a
  {
    Powers();
    WholeSpace();
    assert Pow2(0) == 1;
    hide Pow2;
    assert Size(8) == 0x100_0000 && Size(12) == 0x10_0000 && Size(16) == 0x1_0000 && Size(24) == 0x100;
    assert Size(0) == 0x1_0000_0000 && Size(32) == 1;
  }

  /** Admitted are the networks of 24 bits inside 10.0.0.0/8, 172.16.0.0/12 and 192.168.0.0/16, written
      without host bits. */
  lemma AdmittedTells(value: Option<Reading>)
    ensures Admitted(value) <==>
      && value.Some? && value.value.V4? && value.value.prefix == 24 && value.value.address % 256 == 0
      && (|| 10 * 0x100_0000 <= value.value.address < 11 * 0x100_0000
          || 172 * 0x100_0000 + 16 * 0x1_0000 <= value.value.address < 172 * 0x100_0000 + 32 * 0x1_0000
          || 192 * 0x100_0000 + 168 * 0x1_0000 <= value.value.address < 192 * 0x100_0000 + 169 * 0x1_0000)
  {
    PrivateBlocks();
    Powers();
    if value.Some? && value.value.V4? {
      MaskedTells(value.value.address);
      assert Size(24) == 0x100;
      hide Pow2, Masked, Size;
      var a := value.value.address;
      assert PRIVATE[0].base == 0x0a00_0000 && PRIVATE[1].base == 0xac10_0000 && PRIVATE[2].base == 0xc0a8_0000;
      assert forall i :: 0 <= i < 3 ==> (SubnetOf(Network(a, 24), PRIVATE[i]) <==>
        PRIVATE[i].base <= a && a + 0xff <= Broadcast(PRIVATE[i]));
    }
  }

  /** Distinct admitted networks share no address. */
  lemma AdmittedAreDisjoint(v: Option<Reading>, w: Option<Reading>)
    requires Admitted(v) && Admitted(w) && v != w
    ensures Disjoint(NetworkOf(v.value), NetworkOf(w.value))
  {
    var m, n := NetworkOf(v.value), NetworkOf(w.value);
    BlocksNestOrPart(m, n);
  }

  // --------------------------------------------------------------------------------------------
  // Networks in use
  // --------------------------------------------------------------------------------------------

  /** One configuration as Docker reports it. */
  datatype Config = NoSubnet | Unreadable | Subnet(reading: Reading)

  /** One reported network: no document, no list of configurations, or the list. */
  datatype Document = NoDocument | NoList | Configs(configs: seq<Config>)

  predicate Reported(c: Config) {
    c.Subnet? && c.reading.V4? && Legible(c.reading)
  }

  /** Host bits are dropped. */
  function Existing(c: Config): (n: Network)
    requires Reported(c)
    ensures n.prefix <= 32
  {
    Network(Masked(c.reading.address, c.reading.prefix), c.reading.prefix)
  }

  predicate Clear(c: Config, proposed: seq<Network>)
    requires forall i :: 0 <= i < |proposed| ==> IsNetwork(proposed[i])
  {
    Reported(c) ==> forall n <- proposed :: n.prefix <= 32 && Disjoint(Existing(c), n)
  }

  predicate Unused(d: Document, proposed: seq<Network>)
    requires forall i :: 0 <= i < |proposed| ==> IsNetwork(proposed[i])
  {
    d.Configs? && forall k :: 0 <= k < |d.configs| ==> Clear(d.configs[k], proposed)
  }

  /** One document for every distinct identifier, and each of them clear. */
  predicate AllUnused(identifiers: seq<string>, documents: seq<Document>, proposed: seq<Network>)
    requires forall i :: 0 <= i < |proposed| ==> IsNetwork(proposed[i])
  {
    && |documents| == |(set i <- identifiers)|
    && forall i :: 0 <= i < |documents| ==> Unused(documents[i], proposed)
  }

  predicate LegibleDocument(d: Document) {
    d.Configs? ==> forall k :: 0 <= k < |d.configs| && d.configs[k].Subnet? ==> Legible(d.configs[k].reading)
  }

  lemma ExistingIsNetwork(c: Config)
    requires Reported(c)
    ensures IsNetwork(Existing(c))
  {
    hide Times, Quotient, Pow2;
    var s := Size(c.reading.prefix);
    var k := Quotient(c.reading.address, s);
    QuotientBounds(c.reading.address, s, k);
    QuotientBounds(Times(k, s), s, k);
  }

  /** Passes exactly when no address lies both in a proposed network and in a reported IPv4 subnet. */
  method CidrsUnused(identifiers: seq<string>, documents: Option<seq<Document>>, proposed: seq<Network>)
      returns (ok: bool)
    requires forall i :: 0 <= i < |proposed| ==> IsNetwork(proposed[i])
    requires documents.Some? ==> forall i :: 0 <= i < |documents.value| ==> LegibleDocument(documents.value[i])
    ensures ok <==> identifiers == [] || (documents.Some? && AllUnused(identifiers, documents.value, proposed))
  {
    if identifiers == [] { return true; }
    if documents.None? || |documents.value| != |(set i <- identifiers)| { return false; }
    var i := 0;
    while i < |documents.value|
      invariant 0 <= i <= |documents.value|
      invariant forall j :: 0 <= j < i ==> Unused(documents.value[j], proposed)
    {
      var document := documents.value[i];
      if !document.Configs? { return false; }
      var k := 0;
      while k < |document.configs|
        invariant 0 <= k <= |document.configs|
        invariant forall j :: 0 <= j < k ==> Clear(document.configs[j], proposed)
      {
        var clear := CheckConfig(document.configs[k], proposed);
        if !clear { return false; }
        k := k + 1;
      }
      i := i + 1;
    }
    return true;
  }

  method CheckConfig(c: Config, proposed: seq<Network>) returns (clear: bool)
    requires c.Subnet? ==> Legible(c.reading)
    requires forall i :: 0 <= i < |proposed| ==> IsNetwork(proposed[i])
    ensures clear <==> Clear(c, proposed)
  {
    if !c.Subnet? || !c.reading.V4? { return true; }
    hide Disjoint, Overlaps, IsNetwork;
    ExistingIsNetwork(c);
    var existing := Existing(c);
    forall i | 0 <= i < |proposed| ensures Overlaps(existing, proposed[i]) <==> !Disjoint(existing, proposed[i]) {
      BlocksNestOrPart(existing, proposed[i]);
    }
    return !exists i :: 0 <= i < |proposed| && Overlaps(existing, proposed[i]);
  }

  /** A reported configuration stands in the way exactly when it is an IPv4 subnet that has an address in
      common with a proposed network; its host bits do not matter. */
  lemma ClearTells(c: Config, proposed: seq<Network>)
    requires c.Subnet? ==> Legible(c.reading)
    requires forall i :: 0 <= i < |proposed| ==> IsNetwork(proposed[i])
    ensures !Clear(c, proposed) <==>
      && c.Subnet? && c.reading.V4?
      && exists i, a: nat :: 0 <= i < |proposed| && a < 0x1_0000_0000 && Contains(proposed[i], a)
                             && Masked(a, c.reading.prefix) == Masked(c.reading.address, c.reading.prefix)
  {
    hide Masked, IsNetwork;
    if c.Subnet? && c.reading.V4? {
      forall i | 0 <= i < |proposed|
        ensures proposed[i].prefix <= 32
        ensures !Disjoint(Existing(c), proposed[i]) <==>
          exists a: nat :: a < 0x1_0000_0000 && Contains(proposed[i], a)
                           && Masked(a, c.reading.prefix) == Masked(c.reading.address, c.reading.prefix)
      {
        assert IsNetwork(proposed[i]);
        Prefixes(proposed[i]);
      }
    }
  }

  lemma Prefixes(n: Network)
    ensures IsNetwork(n) ==> n.prefix <= 32
  {
  }

  /** Nothing is in use, or there is one list of configurations for each network reported, all clear. */
  lemma UnusedTells(identifiers: seq<string>, documents: seq<Document>, proposed: seq<Network>)
    requires forall i :: 0 <= i < |proposed| ==> IsNetwork(proposed[i])
    ensures AllUnused(identifiers, documents, proposed) <==>
      && |documents| == |(set i <- identifiers)|
      && (forall i :: 0 <= i < |documents| ==> documents[i].Configs?)
      && forall i, k :: 0 <= i < |documents| && 0 <= k < |documents[i].configs| ==> Clear(documents[i].configs[k], proposed)
  {
    hide Clear, IsNetwork;
    if AllUnused(identifiers, documents, proposed) {
      forall i | 0 <= i < |documents|
        ensures documents[i].Configs? && forall k :: 0 <= k < |documents[i].configs| ==> Clear(documents[i].configs[k], proposed)
      {
        assert Unused(documents[i], proposed);
      }
    }
  }
}
