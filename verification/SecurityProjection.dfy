/** The byte form under which activation records a container and management recognises it again. */
module SecurityProjection {
  import opened Prelude
  import opened CanonicalJson
  import opened CanonicalForm
  import CanonicalText
  import opened CreateIntent
  import opened Sorting
  import Paths

  function Member(v: Json, name: string): Option<Json> {
    if v.Obj? && K(name) in v.members then Some(v.members[K(name)]) else None
  }

  /** Where a mount goes; nowhere is no mount. */
  function Destination(m: Json): Str {
    match Member(m, "Destination")
    case Some(Text(s)) => s
    case _ => []
  }

  predicate DistinctMounts(mounts: seq<Json>) {
    Distinct(Destination, mounts) && forall i :: 0 <= i < |mounts| ==> Destination(mounts[i]) != []
  }

  /** What a projection is taken of. */
  datatype Parts = Parts(config: Json, hostConfig: Json, mounts: seq<Json>)

  function PartsOf(container: Json): Option<Parts> {
    match (Member(container, "Config"), Member(container, "HostConfig"), Member(container, "Mounts"))
    case (Some(Obj(c)), Some(Obj(h)), Some(Arr(mounts))) =>
      if DistinctMounts(mounts) then Some(Parts(Obj(c), Obj(h), mounts)) else None
    case _ => None
  }

  /** The order by destination; with distinct destinations no second key is ever compared. */
  function ByDestination(mounts: seq<Json>): (r: seq<Json>)
    ensures multiset(r) == multiset(mounts)
  {
    SortBy(Destination, mounts)
  }

  // --------------------------------------------------------------------------------------------
  // Projection
  // --------------------------------------------------------------------------------------------

  function Shape(p: Parts): map<string, Json> {
    map["Config" := p.config, "HostConfig" := p.hostConfig, "Mounts" := Arr(ByDestination(p.mounts))]
  }

  function Projection(p: Parts): string {
    Print(Of(Shape(p)))
  }

  method Project(container: Json) returns (r: Option<string>)
    ensures r.Some? <==> PartsOf(container).Some?
    ensures r.Some? ==> r.value == Projection(PartsOf(container).value)
  {
    hide Of, Print, ByDestination, K;
    var config, host, mounts := Member(container, "Config"), Member(container, "HostConfig"), Member(container, "Mounts");
    if config.None? || !config.value.Obj? || host.None? || !host.value.Obj? || mounts.None? || !mounts.value.Arr? {
      return None;
    }
    var items := mounts.value.items;
    var destinations: set<Str> := {};
    var i := 0;
    while i < |items|
      invariant 0 <= i <= |items| && DistinctMounts(items[..i])
      invariant destinations == set j | 0 <= j < i :: Destination(items[..i][j])
    {
      var mount := items[i];
      assert items[..i + 1] == items[..i] + [mount];
      if Destination(mount) == [] || Destination(mount) in destinations {
        assert !DistinctMounts(items);
        return None;
      }
      destinations := destinations + {Destination(mount)};
      i := i + 1;
    }
    assert items[..i] == items;
    return Some(Print(Of(map["Config" := config.value, "HostConfig" := host.value, "Mounts" := Arr(ByDestination(items))])));
  }

  predicate WellFormedParts(p: Parts) {
    && DistinctMounts(p.mounts)
    && WellFormed(p.config) && WellFormed(p.hostConfig)
    && forall i :: 0 <= i < |p.mounts| ==> WellFormed(p.mounts[i])
  }

  /** Whatever a reader of JSON text delivers has well-formed parts. */
  lemma PartsAreWellFormed(container: Json)
    requires WellFormed(container) && PartsOf(container).Some?
    ensures WellFormedParts(PartsOf(container).value)
  {
    hide K, DistinctMounts;
    var p := PartsOf(container).value;
    assert Member(container, "Config") == Some(p.config);
    assert Member(container, "HostConfig") == Some(p.hostConfig);
    assert Member(container, "Mounts") == Some(Arr(p.mounts));
    assert DistinctMounts(p.mounts);
    assert WellFormed(Arr(p.mounts));
  }

  lemma ShapeIsWellFormed(p: Parts)
    requires WellFormedParts(p)
    ensures WellFormed(Of(Shape(p)))
  {
    hide DistinctMounts, Of, ByDestination, Destination;
    var sorted := ByDestination(p.mounts);
    forall i | 0 <= i < |sorted| ensures WellFormed(sorted[i]) {
      assert sorted[i] in multiset(sorted);
    }
    var fields := Shape(p);
    forall k | k in Of(fields).members ensures Unpaired(k) && WellFormed(Of(fields).members[k]) {
      LiteralsInjective();
      var n := NameOf(fields, k);
      assert Get(Of(fields), n) == fields[n];
    }
  }

  /** The projection is a canonical form: it forgets the order of the mounts and nothing else. */
  lemma ProjectionsEqualExactly(p: Parts, q: Parts)
    requires WellFormedParts(p) && WellFormedParts(q)
    ensures Projection(p) == Projection(q) <==>
      p.config == q.config && p.hostConfig == q.hostConfig && multiset(p.mounts) == multiset(q.mounts)
  {
    hide Print, Of, WellFormed, Distinct, SortBy;
    SortedEqualExactly(Destination, p.mounts, q.mounts);
    if Projection(p) == Projection(q) {
      ShapeIsWellFormed(p);
      ShapeIsWellFormed(q);
      PrintingIsInjective(Of(Shape(p)), Of(Shape(q)));
      OfDetermines(Shape(p), Shape(q));
      assert Shape(p)["Config"] == Shape(q)["Config"];
      assert Shape(p)["HostConfig"] == Shape(q)["HostConfig"];
      assert Shape(p)["Mounts"] == Shape(q)["Mounts"];
    }
  }

  // --------------------------------------------------------------------------------------------
  // The text in full
  // --------------------------------------------------------------------------------------------

  /** A container is projected exactly when it has two objects and a list of mounts, each of which is an
      object with a destination of its own. */
  lemma ProjectableTells(container: Json)
    ensures PartsOf(container).Some? <==>
      && container.Obj?
      && K("Config") in container.members && container.members[K("Config")].Obj?
      && K("HostConfig") in container.members && container.members[K("HostConfig")].Obj?
      && K("Mounts") in container.members && container.members[K("Mounts")].Arr?
      && var mounts := container.members[K("Mounts")].items;
        && (forall i :: 0 <= i < |mounts| ==>
              && mounts[i].Obj? && K("Destination") in mounts[i].members
              && mounts[i].members[K("Destination")].Text? && mounts[i].members[K("Destination")].s != [])
        && forall i, j :: 0 <= i < j < |mounts| ==>
          mounts[i].members[K("Destination")].s != mounts[j].members[K("Destination")].s
    ensures PartsOf(container).Some? ==>
      PartsOf(container).value ==
        Parts(container.members[K("Config")], container.members[K("HostConfig")], container.members[K("Mounts")].items)
  {
    hide K;
  }

  lemma {:induction false} LiteralPrints(s: string)
    requires forall i :: 0 <= i < |s| ==> 0x20 <= s[i] as int < 0x7f && s[i] != '"' && s[i] != '\\'
    ensures PrintChars(K(s)) == s
  {
    if s != "" {
      LiteralPrints(s[1..]);
      assert K(s)[1..] == K(s[1..]);
      CanonicalText.EscapeTells(K(s)[0]);
      assert [s[0]] + s[1..] == s;
    }
  }

  lemma NamesAscend()
    ensures Less(K("Config"), K("HostConfig")) && Less(K("HostConfig"), K("Mounts")) && Less(K("Config"), K("Mounts"))
  {
  }

  lemma ThreeSorted(a: Str, b: Str, c: Str)
    requires Less(a, b) && Less(b, c) && Less(a, c)
    ensures Sorted({a, b, c}) == [a, b, c]
  {
    LessTotal(a, b);
    LessTotal(b, c);
    LessTotal(a, c);
    hide Less;
    LeastUnique(Least({a, b, c}), a, {a, b, c});
    assert {a, b, c} - {a} == {b, c};
    LeastUnique(Least({b, c}), b, {b, c});
    assert {b, c} - {b} == {c};
    assert {c} - {c} == {};
    assert Sorted({c}) == [c];
    assert Sorted({b, c}) == [b] + Sorted({c});
  }

  lemma LastMember(v: Json, k: Str)
    requires v.Obj? && k in v.members
    ensures PrintMembers([k], v) == PrintString(k) + ":" + Print(v.members[k]) + ""
  {
    hide PrintString;
    assert [k][1..] == [];
  }

  lemma NextMember(v: Json, k: Str, more: seq<Str>)
    requires v.Obj? && k in v.members && more != [] && forall x <- more :: x in v.members
    ensures PrintMembers([k] + more, v) == PrintString(k) + ":" + Print(v.members[k]) + ("," + PrintMembers(more, v))
  {
    hide PrintString;
    assert ([k] + more)[1..] == more;
  }

  lemma ThreeMembers(v: Json, a: Str, b: Str, c: Str)
    requires v.Obj? && v.members.Keys == {a, b, c} && Less(a, b) && Less(b, c) && Less(a, c)
    ensures Print(v) ==
      "{" + (PrintString(a) + ":" + Print(v.members[a]) + ("," +
             (PrintString(b) + ":" + Print(v.members[b]) + ("," + (PrintString(c) + ":" + Print(v.members[c]) + ""))))) + "}"
  {
    ThreeSorted(a, b, c);
    LastMember(v, c);
    NextMember(v, b, [c]);
    NextMember(v, a, [b, c]);
    assert [a] + [b, c] == [a, b, c] && [b] + [c] == [b, c];
    assert Print(v) == "{" + PrintMembers(Sorted(v.members.Keys), v) + "}";
    hide PrintString, Less, Sorted, Print, PrintMembers;
  }

  lemma NamesPrint()
    ensures PrintString(K("Config")) == "\"" + "Config" + "\""
    ensures PrintString(K("HostConfig")) == "\"" + "HostConfig" + "\""
    ensures PrintString(K("Mounts")) == "\"" + "Mounts" + "\""
  {
    LiteralPrints("Config");
    LiteralPrints("HostConfig");
    LiteralPrints("Mounts");
    hide PrintChars, K;
  }

  /** What holds the three parts, member by member. */
  lemma ShapeTells(p: Parts)
    ensures var v := Of(Shape(p));
      && v.Obj? && v.members.Keys == {K("Config"), K("HostConfig"), K("Mounts")}
      && v.members[K("Config")] == p.config && v.members[K("HostConfig")] == p.hostConfig
      && v.members[K("Mounts")] == Arr(ByDestination(p.mounts))
  {
    var v := Of(Shape(p));
    assert Shape(p).Keys == {"Config", "HostConfig", "Mounts"};
    hide K, Of, ByDestination;
    assert Keys({"Config", "HostConfig", "Mounts"}) == {K("Config"), K("HostConfig"), K("Mounts")};
    assert Get(v, "Config") == p.config && Get(v, "HostConfig") == p.hostConfig;
    assert Get(v, "Mounts") == Arr(ByDestination(p.mounts));
  }

  lemma ProjectionParts(p: Parts)
    ensures Projection(p) ==
      "{" + (PrintString(K("Config")) + ":" + Print(p.config) + ("," +
             (PrintString(K("HostConfig")) + ":" + Print(p.hostConfig) + ("," +
              (PrintString(K("Mounts")) + ":" + Print(Arr(ByDestination(p.mounts))) + ""))))) + "}"
  {
    ShapeTells(p);
    NamesAscend();
    hide K, Less, Of, ByDestination, PrintString, Print, Shape;
    ThreeMembers(Of(Shape(p)), K("Config"), K("HostConfig"), K("Mounts"));
  }

  lemma ArrayPrints(items: seq<Json>)
    ensures Print(Arr(items)) == "[" + Paths.Join(CanonicalText.Prints(items), ',') + "]"
  {
    CanonicalText.ItemsJoin(items);
    assert Print(Arr(items)) == "[" + PrintItems(items) + "]";
    hide Print, PrintItems;
  }

  /** Configuration, host configuration and mounts, in this order and with nothing in between; the mounts in
      ascending order of their destinations. */
  lemma ProjectionInFull(p: Parts) returns (mounts: seq<Json>)
    requires DistinctMounts(p.mounts)
    ensures multiset(mounts) == multiset(p.mounts) && Increasing(Destination, mounts)
    ensures Projection(p) ==
      "{" + ("\"" + "Config" + "\"" + ":" + Print(p.config) + ("," +
             ("\"" + "HostConfig" + "\"" + ":" + Print(p.hostConfig) + ("," +
              ("\"" + "Mounts" + "\"" + ":" + ("[" + Paths.Join(CanonicalText.Prints(mounts), ',') + "]") + ""))))) + "}"
  {
    mounts := ByDestination(p.mounts);
    SortingOrders(Destination, p.mounts);
    NamesPrint();
    ArrayPrints(mounts);
    ProjectionParts(p);
    hide K, Projection, ByDestination, Increasing, PrintString, Print;
  }
}
