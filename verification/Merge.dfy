/** Image defaults merged with Compose settings: the collector sees the full values, the validator only
    counts and presence bits, and both must come to the same account of the merge. */
module Merge {
  import opened Prelude

  datatype Source = Empty | Absent | ImageInherited | ComposeWithImageDefaults | ComposeExplicit | UnsetZero

  // --------------------------------------------------------------------------------------------
  // Environment
  // --------------------------------------------------------------------------------------------

  datatype EnvironmentAccount = EnvironmentAccount(
    source: Source, imageEntries: int, composeEntries: int, overrides: int, inherited: int, effective: int)

  /** What the account of a merge says about the maps. */
  ghost predicate Accounts(p: EnvironmentAccount, compose: map<string, string>, image: map<string, string>) {
    && p.imageEntries == |image| && p.composeEntries == |compose|
    && p.overrides == |compose.Keys * image.Keys|
    && p.inherited == |image.Keys - compose.Keys|
    && p.effective == |(image + compose).Keys|
    && p.source == (
      if compose == map[] && image == map[] then Empty
      else if compose == map[] then ImageInherited
      else if image.Keys <= compose.Keys then ComposeExplicit
      else ComposeWithImageDefaults)
  }

  /** The collector: Compose values over image values, and the account. */
  method EffectiveEnvironment(compose: map<string, string>, image: map<string, string>)
      returns (effective: map<string, string>, p: EnvironmentAccount)
    ensures forall k :: k in effective <==> k in compose || k in image
    ensures forall k :: k in effective ==> effective[k] == if k in compose then compose[k] else image[k]
    ensures Accounts(p, compose, image)
  {
    effective := image + compose;
    var overrides := |compose.Keys * image.Keys|;
    var inherited := |image| - overrides;
    CountsAddUp(compose.Keys, image.Keys);
    var source: Source;
    if |compose| == 0 {
      source := if |image| > 0 then ImageInherited else Empty;
    } else if inherited != 0 {
      source := ComposeWithImageDefaults;
    } else {
      source := ComposeExplicit;
    }
    NothingCounted(compose, image);
    p := EnvironmentAccount(source, |image|, |compose|, overrides, inherited, |effective|);
  }

  lemma CountsAddUp(a: set<string>, b: set<string>)
    ensures |b - a| == |b| - |a * b|
    ensures |a + b| == |a| + |b| - |a * b|
  {
    assert b == (b - a) + (a * b);
    assert a + b == a + (b - a);
  }

  lemma OverlapFits(a: set<string>, b: set<string>)
    ensures |a * b| <= |a| && |a * b| <= |b|
  {
    assert b == (b - a) + (a * b) && a == (a - b) + (a * b);
  }

  lemma NothingCounted(compose: map<string, string>, image: map<string, string>)
    ensures |image.Keys - compose.Keys| == 0 <==> image.Keys <= compose.Keys
    ensures |compose| == 0 <==> compose == map[]
    ensures |image| == 0 <==> image == map[]
  {
    assert |image.Keys - compose.Keys| == 0 <==> image.Keys - compose.Keys == {};
    forall k | k in image.Keys ensures k in compose.Keys || k in image.Keys - compose.Keys {}
  }

  function MergeSource(composeEntries: int, imageEntries: int, inherited: int): Option<Source> {
    if composeEntries < 0 || imageEntries < 0 || !(0 <= inherited <= imageEntries) then None
    else if composeEntries == 0 then
      if inherited != imageEntries then None
      else Some(if imageEntries != 0 then ImageInherited else Empty)
    else Some(if inherited != 0 then ComposeWithImageDefaults else ComposeExplicit)
  }

  /** The validator: everything is derived anew from the counts and the claimed number of overrides. */
  predicate Validates(imageEntries: nat, composeEntries: nat, p: EnvironmentAccount) {
    && 0 <= p.overrides <= (if imageEntries < composeEntries then imageEntries else composeEntries)
    && var inherited := imageEntries - p.overrides;
    && var source := MergeSource(composeEntries, imageEntries, inherited);
    && source.Some?
    && p == EnvironmentAccount(source.value, imageEntries, composeEntries, p.overrides, inherited,
                               imageEntries + composeEntries - p.overrides)
  }

  /** The account in full. */
  lemma AccountTells(p: EnvironmentAccount, compose: map<string, string>, image: map<string, string>)
    ensures Accounts(p, compose, image) <==>
      && p.imageEntries == |image| && p.composeEntries == |compose|
      && p.overrides == |set k | k in compose && k in image|
      && p.inherited == |set k | k in image && k !in compose|
      && p.effective == |compose.Keys + image.Keys|
      && (p.source == Empty <==> |compose| == 0 && |image| == 0)
      && (p.source == ImageInherited <==> |compose| == 0 && |image| > 0)
      && (p.source == ComposeExplicit <==> |compose| > 0 && forall k :: k in image ==> k in compose)
      && (p.source == ComposeWithImageDefaults <==> |compose| > 0 && exists k :: k in image && k !in compose)
      && p.source in {Empty, ImageInherited, ComposeExplicit, ComposeWithImageDefaults}
  {
    assert compose.Keys * image.Keys == set k | k in compose && k in image;
    assert image.Keys - compose.Keys == set k | k in image && k !in compose;
    assert (image + compose).Keys == compose.Keys + image.Keys;
  }

  lemma CollectedIsValid(p: EnvironmentAccount, compose: map<string, string>, image: map<string, string>)
    requires Accounts(p, compose, image)
    ensures Validates(|image|, |compose|, p)
  {
    CountsAddUp(compose.Keys, image.Keys);
    OverlapFits(compose.Keys, image.Keys);
    assert (image + compose).Keys == compose.Keys + image.Keys;
    NothingCounted(compose, image);
  }

  function Letters(n: nat): (s: string)
    ensures |s| == n
  {
    seq(n, _ => 'A')
  }

  /** Keys told apart by their length, from `low` up to `high`. */
  function Keyed(low: nat, high: nat): map<string, string>
    requires low <= high
    decreases high - low
  {
    if low == high then map[] else Keyed(low, high - 1)[Letters(high) := ""]
  }

  lemma {:induction false} KeyedSize(low: nat, high: nat)
    requires low <= high
    ensures |Keyed(low, high)| == |Keyed(low, high).Keys| == high - low
    ensures forall k :: k in Keyed(low, high) <==> low < |k| <= high && k == Letters(|k|)
    decreases high - low
  {
    if low < high {
      KeyedSize(low, high - 1);
      assert Keyed(low, high).Keys == Keyed(low, high - 1).Keys + {Letters(high)};
    }
  }

  lemma KeyedOverlap(start: nat, i: nat, c: nat)
    requires start <= i <= start + c
    ensures |Keyed(0, i)| == i && |Keyed(start, start + c)| == c
    ensures |Keyed(start, start + c).Keys * Keyed(0, i).Keys| == i - start
  {
    KeyedSize(0, i);
    KeyedSize(start, start + c);
    KeyedSize(start, i);
    hide Keyed, Letters;
    assert Keyed(start, start + c).Keys * Keyed(0, i).Keys == Keyed(start, i).Keys;
  }

  /** The validated account fits any two maps with these counts and this overlap. */
  lemma AccountsByCounts(p: EnvironmentAccount, compose: map<string, string>, image: map<string, string>)
    requires Validates(|image|, |compose|, p) && |compose.Keys * image.Keys| == p.overrides
    ensures Accounts(p, compose, image)
  {
    CountsAddUp(compose.Keys, image.Keys);
    assert (image + compose).Keys == compose.Keys + image.Keys;
    NothingCounted(compose, image);
  }

  /** Whatever the validator accepts is the account of some pair of maps with those counts. */
  lemma ValidIsCollected(imageEntries: nat, composeEntries: nat, p: EnvironmentAccount)
    requires Validates(imageEntries, composeEntries, p)
    ensures exists compose, image :: |image| == imageEntries && |compose| == composeEntries && Accounts(p, compose, image)
  {
    var start := imageEntries - p.overrides;
    KeyedOverlap(start, imageEntries, composeEntries);
    hide Keyed, Accounts;
    AccountsByCounts(p, Keyed(start, start + composeEntries), Keyed(0, imageEntries));
  }

  /** Counts and the number of overrides decide everything: the validator accepts exactly the accounts
      the collector can give of maps with those counts. */
  lemma EnvironmentAgreement(imageEntries: nat, composeEntries: nat, p: EnvironmentAccount)
    ensures Validates(imageEntries, composeEntries, p) <==>
      exists compose, image :: |image| == imageEntries && |compose| == composeEntries && Accounts(p, compose, image)
  {
    if Validates(imageEntries, composeEntries, p) { ValidIsCollected(imageEntries, composeEntries, p); }
    forall compose, image | |image| == imageEntries && |compose| == composeEntries && Accounts(p, compose, image)
      ensures Validates(imageEntries, composeEntries, p)
    {
      CollectedIsValid(p, compose, image);
    }
  }

  // --------------------------------------------------------------------------------------------
  // Healthcheck
  // --------------------------------------------------------------------------------------------

  datatype Field = Test | Interval | Timeout | StartPeriod | StartInterval | Retries

  const FIELDS := [Test, Interval, Timeout, StartPeriod, StartInterval, Retries]

  datatype Value = Words(words: seq<string>) | Number(n: nat)

  /** A test command and five numbers; an empty test or a zero is not set. */
  datatype Healthcheck = Healthcheck(
    test: seq<string>, interval: nat, timeout: nat, startPeriod: nat, startInterval: nat, retries: nat)

  function Get(h: Healthcheck, f: Field): Value {
    match f
    case Test => Words(h.test)
    case Interval => Number(h.interval)
    case Timeout => Number(h.timeout)
    case StartPeriod => Number(h.startPeriod)
    case StartInterval => Number(h.startInterval)
    case Retries => Number(h.retries)
  }

  function Zero(f: Field): Value {
    if f.Test? then Words([]) else Number(0)
  }

  function GetOr(h: Option<Healthcheck>, f: Field): Value {
    if h.Some? then Get(h.value, f) else Zero(f)
  }

  predicate Set(v: Value) {
    match v case Words(w) => w != [] case Number(n) => n != 0
  }

  function Presence(h: Option<Healthcheck>): map<Field, bool> {
    map f | f in FIELDS :: h.Some? && Set(Get(h.value, f))
  }

  datatype HealthcheckAccount = HealthcheckAccount(source: Source, fields: map<Field, Source>)

  lemma AllFields()
    ensures forall f: Field :: f in FIELDS
  {
    forall f: Field ensures f in FIELDS {
      match f
      case Test => assert FIELDS[0] == f;
      case Interval => assert FIELDS[1] == f;
      case Timeout => assert FIELDS[2] == f;
      case StartPeriod => assert FIELDS[3] == f;
      case StartInterval => assert FIELDS[4] == f;
      case Retries => assert FIELDS[5] == f;
    }
  }

  /** The collector's account says where each value of the merged check comes from. */
  ghost predicate Explains(p: HealthcheckAccount, effective: Option<map<Field, Value>>,
                           compose: Option<Healthcheck>, image: Option<Healthcheck>) {
    && (forall f: Field :: f in p.fields)
    && (effective.None? <==> compose.None? && image.None?)
    && (effective.None? ==> p.source == Absent && forall f: Field :: p.fields[f] == Absent)
    && (effective.Some? ==>
      && (forall f: Field :: f in effective.value && match p.fields[f]
          case ComposeExplicit => Set(GetOr(compose, f)) && effective.value[f] == GetOr(compose, f)
          case ImageInherited =>
            !Set(GetOr(compose, f)) && Set(GetOr(image, f)) && effective.value[f] == GetOr(image, f)
          case UnsetZero => !Set(GetOr(compose, f)) && !Set(GetOr(image, f)) && effective.value[f] == Zero(f)
          case _ => false)
      && p.source ==
        if compose.None? then ImageInherited
        else if exists f: Field :: p.fields[f] == ImageInherited then ComposeWithImageDefaults
        else ComposeExplicit)
  }

  predicate AnyInherited(fields: map<Field, Source>) {
    exists f | f in fields :: fields[f] == ImageInherited
  }

  function Merged(compose: Option<Healthcheck>, image: Option<Healthcheck>, f: Field): Value {
    if Set(GetOr(compose, f)) then GetOr(compose, f)
    else if Set(GetOr(image, f)) then GetOr(image, f)
    else Zero(f)
  }

  method EffectiveHealthcheck(compose: Option<Healthcheck>, image: Option<Healthcheck>)
      returns (effective: Option<map<Field, Value>>, p: HealthcheckAccount)
    ensures Explains(p, effective, compose, image)
  {
    AllFields();
    if compose.None? && image.None? {
      return None, HealthcheckAccount(Absent, map f | f in FIELDS :: Absent);
    }
    var merged: map<Field, Value> := map[];
    var sources: map<Field, Source> := map[];
    var i := 0;
    while i < |FIELDS|
      invariant 0 <= i <= |FIELDS|
      invariant forall f :: f in merged <==> f in FIELDS[..i]
      invariant forall f :: f in sources <==> f in FIELDS[..i]
      invariant forall f :: f in sources ==>
        sources[f] == FieldSource(Set(GetOr(compose, f)), Set(GetOr(image, f)))
      invariant forall f :: f in merged ==> merged[f] == Merged(compose, image, f)
    {
      var field := FIELDS[i];
      var composeValue, imageValue := GetOr(compose, field), GetOr(image, field);
      if Set(composeValue) {
        merged := merged[field := composeValue];
        sources := sources[field := ComposeExplicit];
      } else if Set(imageValue) {
        merged := merged[field := imageValue];
        sources := sources[field := ImageInherited];
      } else {
        merged := merged[field := Zero(field)];
        sources := sources[field := UnsetZero];
      }
      assert FIELDS[..i + 1] == FIELDS[..i] + [field];
      i := i + 1;
    }
    assert FIELDS[..i] == FIELDS;
    var source := if compose.None? then ImageInherited
      else if AnyInherited(sources) then ComposeWithImageDefaults else ComposeExplicit;
    return Some(merged), HealthcheckAccount(source, sources);
  }

  function FieldSource(compose: bool, image: bool): Source {
    if compose then ComposeExplicit else if image then ImageInherited else UnsetZero
  }

  /** The validator: the Compose side in full, the image side as one bit and one bit per field. */
  method DeriveHealthcheck(compose: Option<Healthcheck>, present: bool, bits: map<Field, bool>)
      returns (p: HealthcheckAccount)
    requires forall f: Field :: f in bits
    ensures forall image: Option<Healthcheck>, effective, q ::
      present == image.Some? && bits == Presence(image) && Explains(q, effective, compose, image) ==> p == q
  {
    AllFields();
    if compose.None? && !present {
      p := HealthcheckAccount(Absent, map f | f in FIELDS :: Absent);
    } else {
      var sources: map<Field, Source> := map[];
      var i := 0;
      while i < |FIELDS|
        invariant 0 <= i <= |FIELDS|
        invariant forall f :: f in sources <==> f in FIELDS[..i]
        invariant forall f :: f in sources ==> sources[f] == FieldSource(Set(GetOr(compose, f)), bits[f])
      {
        var field := FIELDS[i];
        var source: Source;
        if compose.Some? && Set(Get(compose.value, field)) {
          source := ComposeExplicit;
        } else if bits[field] {
          source := ImageInherited;
        } else {
          source := UnsetZero;
        }
        sources := sources[field := source];
        assert FIELDS[..i + 1] == FIELDS[..i] + [field];
        i := i + 1;
      }
      assert FIELDS[..i] == FIELDS;
      p := HealthcheckAccount(
        if compose.None? then ImageInherited
        else if AnyInherited(sources) then ComposeWithImageDefaults else ComposeExplicit, sources);
    }
    forall image: Option<Healthcheck>, effective, q |
      present == image.Some? && bits == Presence(image) && Explains(q, effective, compose, image)
      ensures p == q
    {
      SameAccount(compose, image, effective, p, q);
    }
  }

  /** The bits leave no choice. */
  lemma SameAccount(compose: Option<Healthcheck>, image: Option<Healthcheck>, effective: Option<map<Field, Value>>,
                    p: HealthcheckAccount, q: HealthcheckAccount)
    requires Explains(q, effective, compose, image) && forall f: Field :: f in p.fields
    requires compose.None? && image.None? ==> p.source == Absent && forall f: Field :: p.fields[f] == Absent
    requires compose.Some? || image.Some? ==>
      && (forall f: Field :: p.fields[f] == FieldSource(Set(GetOr(compose, f)), Presence(image)[f]))
      && p.source == if compose.None? then ImageInherited
        else if AnyInherited(p.fields) then ComposeWithImageDefaults else ComposeExplicit
    ensures p == q
  {
    forall f: Field ensures p.fields[f] == q.fields[f] {
      AllFields();
    }
    assert p.fields == q.fields;
  }

  /** Every value of the merged check and where it comes from: what Compose sets, else what the image
      sets, else an empty test or zero. */
  lemma HealthcheckInFull(p: HealthcheckAccount, effective: Option<map<Field, Value>>,
                          compose: Option<Healthcheck>, image: Option<Healthcheck>)
    requires Explains(p, effective, compose, image) && effective.Some?
    ensures var c, i := if compose.Some? then compose.value else Healthcheck([], 0, 0, 0, 0, 0),
                        if image.Some? then image.value else Healthcheck([], 0, 0, 0, 0, 0);
      && effective.value[Test] == Words(if c.test != [] then c.test else i.test)
      && effective.value[Interval] == Number(if c.interval != 0 then c.interval else i.interval)
      && effective.value[Timeout] == Number(if c.timeout != 0 then c.timeout else i.timeout)
      && effective.value[StartPeriod] == Number(if c.startPeriod != 0 then c.startPeriod else i.startPeriod)
      && effective.value[StartInterval] == Number(if c.startInterval != 0 then c.startInterval else i.startInterval)
      && effective.value[Retries] == Number(if c.retries != 0 then c.retries else i.retries)
      && p.fields[Test] == (if c.test != [] then ComposeExplicit else if i.test != [] then ImageInherited else UnsetZero)
      && p.fields[Interval] ==
        (if c.interval != 0 then ComposeExplicit else if i.interval != 0 then ImageInherited else UnsetZero)
      && p.fields[Timeout] ==
        (if c.timeout != 0 then ComposeExplicit else if i.timeout != 0 then ImageInherited else UnsetZero)
      && p.fields[StartPeriod] ==
        (if c.startPeriod != 0 then ComposeExplicit else if i.startPeriod != 0 then ImageInherited else UnsetZero)
      && p.fields[StartInterval] ==
        (if c.startInterval != 0 then ComposeExplicit else if i.startInterval != 0 then ImageInherited else UnsetZero)
      && p.fields[Retries] ==
        (if c.retries != 0 then ComposeExplicit else if i.retries != 0 then ImageInherited else UnsetZero)
  {
  }

  /** The bits the validator is given of an image. */
  lemma PresenceInFull(h: Option<Healthcheck>)
    ensures var x, bits := if h.Some? then h.value else Healthcheck([], 0, 0, 0, 0, 0), Presence(h);
      && (forall f: Field :: f in bits)
      && (bits[Test] <==> x.test != []) && (bits[Interval] <==> x.interval > 0) && (bits[Timeout] <==> x.timeout > 0)
      && (bits[StartPeriod] <==> x.startPeriod > 0) && (bits[StartInterval] <==> x.startInterval > 0)
      && (bits[Retries] <==> x.retries > 0)
  {
    AllFields();
    hide FIELDS;
  }
}
