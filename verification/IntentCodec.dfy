/** The create-intent codec: how long a built document can get, and what the parser accepts. */
module IntentCodec {
  import opened Prelude
  import opened CanonicalJson
  import opened JsonRoundTrip
  import opened CanonicalForm
  import opened CreateIntent
  import opened ExecutorIngress
  import opened IntentShape
  import Offences

  predicate AllPlain(s: Str) {
    forall i :: 0 <= i < |s| ==> Plain(s[i])
  }

  lemma {:induction false} PlainPrintsAsIs(s: Str)
    requires AllPlain(s)
    ensures |PrintChars(s)| == |s| && |PrintString(s)| == |s| + 2
  {
    if s != [] { PlainPrintsAsIs(s[1..]); }
  }

  lemma {:induction false} NatSize(n: nat, digits: nat, limit: nat)
    requires digits > 0 && n < limit && limit == Power(digits)
    ensures |PrintNat(n)| <= digits
    decreases digits
  {
    if n >= 10 {
      NatSize(n / 10, digits - 1, Power(digits - 1));
    }
  }

  function Power(digits: nat): (p: nat)
    ensures p > 0
  {
    if digits == 0 then 1 else 10 * Power(digits - 1)
  }

  lemma {:induction false} ItemsSize(items: seq<Json>, cap: nat)
    requires forall i :: 0 <= i < |items| ==> |Print(items[i])| + 1 <= cap
    ensures |PrintItems(items)| <= |items| * cap
  {
    if items != [] {
      ItemsSize(items[1..], cap);
      assert |items| * cap == cap + (|items| - 1) * cap;
    }
  }

  function EntrySize(k: Str, v: Json): nat
    requires v.Obj? && k in v.members
  {
    |PrintString(k)| + |Print(v.members[k])| + 2
  }

  lemma Distributes(n: nat, cap: nat)
    ensures (n + 1) * cap == n * cap + cap
  {
  }

  lemma MembersStep(keys: seq<Str>, v: Json)
    requires keys != [] && v.Obj? && forall k <- keys :: k in v.members
    ensures |PrintMembers(keys, v)| <= EntrySize(keys[0], v) + |PrintMembers(keys[1..], v)|
  {
    hide Print, PrintString;
  }

  lemma NoMembers(v: Json)
    requires v.Obj?
    ensures PrintMembers([], v) == ""
  {
  }

  /** Every member fits the cap, but for two that may take more. */
  lemma {:induction false} MembersSize(keys: seq<Str>, v: Json, cap: nat, a: Str, extraA: nat, b: Str, extraB: nat)
    requires v.Obj? && forall k <- keys :: k in v.members
    requires Unique(keys)
    requires forall k <- keys ::
      EntrySize(k, v) <= cap + (if k == a then extraA else 0) + if k == b then extraB else 0
    ensures |PrintMembers(keys, v)| <=
      |keys| * cap + (if a in keys then extraA else 0) + if b in keys then extraB else 0
  {
    hide PrintMembers, EntrySize;
    if keys == [] {
      assert |PrintMembers(keys, v)| == 0 by { NoMembers(v); }
    } else {
      var k, rest := keys[0], keys[1..];
      assert keys == [k] + rest;
      forall i | 0 <= i < |rest| ensures rest[i] != k { assert rest[i] == keys[i + 1]; }
      MembersSize(rest, v, cap, a, extraA, b, extraB);
      MembersStep(keys, v);
      Distributes(|rest|, cap);
    }
  }

  lemma {:induction false} SortedCount(keys: set<Str>)
    ensures |Sorted(keys)| == |keys|
  {
    if keys != {} {
      SortedCount(keys - {Least(keys)});
    }
  }

  lemma {:induction false} KeysCount(names: set<string>)
    ensures |Keys(names)| <= |names|
  {
    if names != {} {
      var n :| n in names;
      KeysCount(names - {n});
      assert Keys(names) == Keys(names - {n}) + {K(n)};
    }
  }

  lemma {:induction false} CharsSize(s: Str)
    ensures |PrintChars(s)| <= 12 * |s|
  {
    if s != [] {
      EscapeSize(s[0]);
      hide Escape;
      CharsSize(s[1..]);
    }
  }

  lemma EscapeSize(c: CodePoint)
    ensures |Escape(c)| <= 12
  {
  }

  lemma LitSize(s: string)
    ensures |PrintString(K(s))| <= 12 * |s| + 2
    ensures |Print(Lit(s))| <= 12 * |s| + 2
  {
    CharsSize(K(s));
  }

  predicate ValuesFit(v: Json, names: set<string>, cap: nat, a: string, extraA: nat, b: string, extraB: nat)
    requires Closed(v, names)
  {
    forall n <- names ::
      |Print(Get(v, n))| <= cap + (if n == a then extraA else 0) + if n == b then extraB else 0
  }

  lemma EntryFits(v: Json, names: set<string>, n: string, longest: nat, cap: nat,
                  a: string, extraA: nat, b: string, extraB: nat)
    requires Closed(v, names) && ValuesFit(v, names, cap, a, extraA, b, extraB)
    requires n in names && |n| <= longest
    ensures EntrySize(K(n), v) <=
      12 * longest + cap + 4 + (if K(n) == K(a) then extraA else 0) + if K(n) == K(b) then extraB else 0
  {
    hide Print, PrintString;
    LitSize(n);
    LiteralsInjective();
    assert |Print(Get(v, n))| <= cap + (if n == a then extraA else 0) + if n == b then extraB else 0;
  }

  /** The size of an object whose names and values fit a cap, but for two values that may take more. */
  lemma ObjectSize(v: Json, names: set<string>, longest: nat, cap: nat,
                   a: string, extraA: nat, b: string, extraB: nat)
    requires Closed(v, names) && ValuesFit(v, names, cap, a, extraA, b, extraB)
    requires forall n <- names :: |n| <= longest
    ensures |Print(v)| <= |names| * (12 * longest + cap + 4) + extraA + extraB + 2
  {
    hide Less, Print, PrintMembers, PrintString, ValuesFit, EntrySize, K;
    var keys := Sorted(v.members.Keys);
    KeysDistinct(keys);
    SortedCount(v.members.Keys);
    KeysCount(names);
    var each := 12 * longest + cap + 4;
    forall k <- keys
      ensures EntrySize(k, v) <= each + (if k == K(a) then extraA else 0) + if k == K(b) then extraB else 0
    {
      var n :| n in names && k == K(n);
      EntryFits(v, names, n, longest, cap, a, extraA, b, extraB);
    }
    MembersSize(keys, v, each, K(a), extraA, K(b), extraB);
    Monotone(|keys|, |names|, each);
    PrintObject(v);
  }

  lemma FlatSize(v: Json, names: set<string>, longest: nat, cap: nat)
    requires Closed(v, names) && forall n <- names :: |n| <= longest && |Print(Get(v, n))| <= cap
    ensures |Print(v)| <= |names| * (12 * longest + cap + 4) + 2
  {
    hide Print;
    ObjectSize(v, names, longest, cap, "", 0, "", 0);
  }

  lemma Monotone(m: nat, n: nat, c: nat)
    requires m <= n
    ensures m * c <= n * c
  {
  }

  lemma PrintObject(v: Json)
    requires v.Obj?
    ensures |Print(v)| == |PrintMembers(Sorted(v.members.Keys), v)| + 2
  {
  }

  // --------------------------------------------------------------------------------------------
  // The parts of a create intent
  // --------------------------------------------------------------------------------------------

  lemma TextSize(s: Str)
    requires AllPlain(s)
    ensures |Print(Text(s))| == |s| + 2
  {
    PlainPrintsAsIs(s);
  }

  lemma AbsentSize(name: Str)
    requires AllPlain(name) && |name| <= 90
    ensures |Print(Of(Absent(name)))| <= 386
  {
    hide Print, Of, AllPlain, K, Lit;
    var v := Of(Absent(name));
    AbsentParts(v, name);
    TextSize(name);
    LitSize("ABSENT");
    FlatSize(v, {"name", "prestate"}, 8, 92);
  }

  lemma PlainJoin(s: Str, t: Str)
    requires AllPlain(s) && AllPlain(t)
    ensures AllPlain(s + t)
  {
  }

  lemma NamePlain(project: Str, joint: string, name: string, suffix: string)
    requires AllPlain(project) && AllPlain(K(joint)) && AllPlain(K(name)) && AllPlain(K(suffix))
    ensures AllPlain(Name(project, joint, name, suffix))
  {
    hide AllPlain, K;
    PlainJoin(project, K(joint));
    PlainJoin(project + K(joint), K(name));
    PlainJoin(project + K(joint) + K(name), K(suffix));
  }

  lemma ResourcesSize(project: Str, joint: string, names: seq<string>, suffix: string, longest: nat)
    requires AllPlain(project) && |project| <= 57 && AllPlain(K(joint)) && |joint| == 1
    requires AllPlain(K(suffix)) && |suffix| <= 2 && longest <= 28
    requires forall n <- names :: AllPlain(K(n)) && |n| <= longest
    ensures |Print(Of(Resources(project, joint, names, suffix)))| <= |names| * (12 * longest + 390) + 2
  {
    hide Print, Of, Absent, AllPlain;
    var fields := Resources(project, joint, names, suffix);
    var v := Of(fields);
    NamesOf(v, fields);
    var all := set n <- names;
    assert fields.Keys == all;
    forall n <- all ensures |Print(Get(v, n))| <= 386 {
      NamePlain(project, joint, n, suffix);
      AbsentSize(Name(project, joint, n, suffix));
    }
    FlatSize(v, all, longest, 386);
    CountNames(names);
    Monotone(|all|, |names|, 12 * longest + 390);
  }

  lemma {:induction false} CountNames(names: seq<string>)
    ensures |(set n <- names)| <= |names|
  {
    if names != [] {
      CountNames(names[1..]);
      assert (set n <- names) == (set n <- names[1..]) + {names[0]};
    }
  }

  predicate PlainName(n: string) {
    forall i :: 0 <= i < |n| ==> Plain(n[i] as int)
  }

  lemma PlainNames(names: seq<string>)
    requires forall n <- names :: PlainName(n)
    ensures forall n <- names :: AllPlain(K(n))
  {
    forall n <- names ensures AllPlain(K(n)) { assert PlainName(n); }
  }

  const FIRST_SERVICES := ["api", "db", "edge", "identity-bootstrap", "migrate", "matching-runtime", "web"]
  const LAST_SERVICES := [
    "oidc-egress-guard", "online-credentials-reconcile", "online-credentials-verify", "taxonomy-seed"]

  lemma FirstServicesPlain()
    ensures forall n <- FIRST_SERVICES :: PlainName(n) && |n| <= 28
  {
  }

  lemma LastServicesPlain()
    ensures forall n <- LAST_SERVICES :: PlainName(n) && |n| <= 28
  {
  }

  lemma ServiceNamesPlain()
    ensures forall n <- SERVICES :: PlainName(n) && |n| <= 28
  {
    FirstServicesPlain();
    LastServicesPlain();
    hide PlainName;
    forall n <- SERVICES ensures n in FIRST_SERVICES || n in LAST_SERVICES {
    }
  }

  lemma NetworkNamesPlain()
    ensures forall n <- NETWORKS :: PlainName(n) && |n| <= 11
    ensures forall n <- ["-", "_", "-1", ""] :: PlainName(n)
  {
  }

  lemma ServicesPlain()
    ensures forall n <- SERVICES :: AllPlain(K(n)) && |n| <= 28
  {
    ServiceNamesPlain();
    hide SERVICES, PlainName;
    PlainNames(SERVICES);
  }

  lemma NetworksPlain()
    ensures forall n <- NETWORKS :: AllPlain(K(n)) && |n| <= 11
    ensures AllPlain(K("-")) && AllPlain(K("_")) && AllPlain(K("-1")) && AllPlain(K(""))
  {
    NetworkNamesPlain();
    hide NETWORKS, PlainName;
    PlainNames(NETWORKS);
    var marks := ["-", "_", "-1", ""];
    PlainNames(marks);
    assert marks[0] in marks && marks[1] in marks && marks[2] in marks && marks[3] in marks;
  }

  lemma ThreeFit(v: Json, a: string, b: string, c: string, cap: nat, extra: nat)
    requires Closed(v, {a, b, c})
    requires |Print(Get(v, a))| <= cap + extra && |Print(Get(v, b))| <= cap && |Print(Get(v, c))| <= cap
    ensures ValuesFit(v, {a, b, c}, cap, a, extra, "", 0)
  {
    hide Print, K;
  }

  lemma VolumeSize(project: Str)
    requires AllPlain(project) && |project| <= 57
    ensures |Print(Of(Absent(project + K("_postgres-data"))))| <= 386
  {
    hide Print, Of, Absent;
    AbsentSize(project + K("_postgres-data"));
  }

  lemma PrestatePartsSize(project: Str)
    requires AllPlain(project) && |project| <= 57
    ensures |Print(Of(Resources(project, "-", SERVICES, "-1")))| <= 7988
    ensures |Print(Of(Resources(project, "_", NETWORKS, "")))| <= 2090
  {
    ServicesPlain();
    NetworksPlain();
    CountResources();
    hide Print, Of, Resources, AllPlain, K, NETWORKS, SERVICES;
    ResourcesSize(project, "-", SERVICES, "-1", 28);
    ResourcesSize(project, "_", NETWORKS, "", 11);
  }

  lemma PrestateSize(project: Str)
    requires AllPlain(project) && |project| <= 57
    ensures |Print(Of(Prestate(project)))| <= 12722
  {
    hide Print, Of, Absent, Resources, AllPlain, K, Prestate, NETWORKS, SERVICES, Keys;
    var v := Of(Prestate(project));
    PrestateParts(v, project);
    PrestatePartsSize(project);
    VolumeSize(project);
    ThreeFit(v, "containers", "networks", "postgres_volume", 2090, 5898);
    hide ValuesFit, Closed;
    ObjectSize(v, {"containers", "networks", "postgres_volume"}, 15, 2090, "containers", 5898, "", 0);
  }

  lemma CountResources()
    ensures |SERVICES| == 11 && |NETWORKS| == 4
  {
  }

  lemma DescriptorSize(n: int)
    requires IsDescriptor(n)
    ensures |Print(Num(n))| <= 19
  {
    assert Power(19) == 10_000_000_000_000_000_000 by {
      assert Power(9) == 1_000_000_000;
      assert Power(18) == 1_000_000_000_000_000_000;
    }
    NatSize(n, 19, Power(19));
  }

  lemma HashSize(s: Str)
    requires IsSha256(s)
    ensures AllPlain(s) && |s| == 64
  {
  }

  lemma ManifestSize(f: Fields)
    requires ValidBindings(f)
    ensures |Print(Of(Manifest(f)))| <= 428
  {
    hide Print, Of, Manifest, AllPlain, K, IsProject;
    HashSize(f.snapshot);
    var v := Of(Manifest(f));
    ManifestParts(v, f);
    TextSize(f.snapshot);
    DescriptorSize(f.device);
    DescriptorSize(f.inode);
    FlatSize(v, {"sha256", "device", "inode"}, 6, 66);
  }

  lemma ProjectSize(project: Str)
    requires IsProject(project)
    ensures AllPlain(project) && |project| <= 57
  {
    var prefix := K("desire-real-oidc-");
    assert project == prefix + project[|prefix|..];
  }

  lemma BindingsSize(f: Fields)
    requires ValidBindings(f)
    ensures |Print(Of(Bindings(f)))| <= 2546
  {
    hide Print, Of, Manifest, Bindings, AllPlain, K, IsProject, IsSha256, Keys;
    var v := Of(Bindings(f));
    BindingsParts(v, f);
    HashSize(f.snapshot);
    HashSize(f.compose);
    ManifestSize(f);
    ProjectSize(f.project);
    TextSize(f.project);
    TextSize(f.snapshot);
    TextSize(f.compose);
    FlatSize(v, BINDING_NAMES, 17, 428);
  }

  lemma IdPlain(id: Str)
    requires IsImageId(id)
    ensures AllPlain(id) && |id| == 71
  {
    assert id == K("sha256:") + id[7..];
  }

  lemma ReferencePlain(reference: Str)
    requires IsReference(reference)
    ensures AllPlain(reference) && |reference| <= 512
  {
  }

  lemma ImageSize(image: (Str, Str))
    requires IsReference(image.0) && IsImageId(image.1)
    ensures |Print(Of(Image(image)))| <= 1254
  {
    hide Print, Of, K, AllPlain, IsReference, IsImageId;
    var v := Of(Image(image));
    ImageParts(v, image);
    IdPlain(image.1);
    ReferencePlain(image.0);
    TextSize(image.0);
    TextSize(image.1);
    FlatSize(v, {"reference", "id"}, 9, 514);
  }

  lemma ImagesSize(images: seq<(Str, Str)>)
    requires ValidImages(images)
    ensures |Print(Images(images))| <= 6277
  {
    hide PrintItems, Of, Image, IsReference, IsImageId, Less;
    forall i | 0 <= i < 5 ensures |Print(Of(Image(images[i])))| <= 1254 {
      ImageSize(images[i]);
    }
    ItemsSize(Images(images).items, 1255);
  }

  lemma ScalarSizes()
    ensures |Print(Num(11))| == 2 && |Print(Num(0))| == 1
    ensures |Print(Bool(false))| == 5 && |Print(Bool(true))| == 4
  {
    assert PrintNat(11) == PrintNat(1) + ['1'];
  }

  lemma PostconditionSize()
    ensures |Print(Of(POSTCONDITION))| <= 3092
  {
    LitSize("CREATED_ZERO_START");
    ScalarSizes();
    hide Of, POSTCONDITION, Lit, Print, K, Keys;
    var v := Of(POSTCONDITION);
    PostconditionParts(v);
    FlatSize(v, POSTCONDITION_NAMES, 33, 218);
  }

  lemma HeadersSize()
    ensures forall n <- HEADERS :: |Print(HEADERS[n])| <= 554
    ensures |Print(Lit(FORMAT))| <= 554
  {
    ScalarSizes();
    hide Lit, Print;
    LitSize("VALIDATED_REQUEST_NOT_AUTHORITY");
    LitSize("NOT_AUTHORITY");
    LitSize("CREATE_BOUND_REAL_OIDC_RESOURCES_ZERO_START_V1");
    LitSize("PRESERVE_POSTGRES_VOLUME");
    LitSize(FORMAT);
  }

  lemma RootNamesSize()
    ensures forall n <- ROOT_NAMES :: |n| <= 25
    ensures |ROOT_NAMES| <= 10
  {
  }

  lemma HeadersFit(v: Json)
    requires Holds(v, HEADERS)
    ensures forall n <- HEADERS :: K(n) in v.members && |Print(Get(v, n))| <= 554
  {
    HeadersSize();
    hide Print, HEADERS, K;
  }

  lemma PartsSize(v: Json, f: Fields)
    requires Valid(f) && HoldsParts(v, f)
    ensures |Print(Get(v, "bindings"))| <= 2546 && |Print(Get(v, "images"))| <= 6277
    ensures |Print(Get(v, "expected_prestate"))| <= 12722 && |Print(Get(v, "expected_postcondition"))| <= 3092
  {
    SplitValid(f);
    hide Print, Of, Valid, Prestate, Bindings, Images, POSTCONDITION, ValidImages;
    BindingsSize(f);
    ImagesSize(f.images);
    ProjectSize(f.project);
    PrestateSize(f.project);
    PostconditionSize();
  }

  lemma RootFit(v: Json, headers: set<string>, a: string, b: string, c: string, d: string, e: string)
    requires Closed(v, headers + {a, b, c, d} + {e})
    requires forall n <- headers :: |Print(Get(v, n))| <= 3092
    requires |Print(Get(v, a))| <= 3092 && |Print(Get(v, b))| <= 6277 && |Print(Get(v, c))| <= 12722
    requires |Print(Get(v, d))| <= 3092 && |Print(Get(v, e))| <= 3092
    ensures ValuesFit(v, headers + {a, b, c, d} + {e}, 3092, b, 3185, c, 9630)
  {
    hide Print, K;
  }

  lemma RootMembersSize(v: Json, f: Fields)
    requires Valid(f) && HoldsRoot(v, f)
    ensures ValuesFit(v, ROOT_NAMES, 3092, "images", 3185, "expected_prestate", 9630)
  {
    NamesDisjoint();
    HeadersSize();
    HeadersFit(v);
    PartsSize(v, f);
    hide Print, HEADERS, Lit, Valid, K, HoldsParts, Keys, ROOT_NAMES, ValuesFit;
    RootFit(v, HEADERS.Keys, "bindings", "images", "expected_prestate", "expected_postcondition", "format");
  }

  /** The document limit turns no built document away. */
  lemma BuiltFits(f: Fields)
    requires Valid(f)
    ensures |Canonical(Build(f))| <= MAX_DOCUMENT
  {
    hide Print, Build, Valid, K, Of, HEADERS, Lit, HoldsParts, ValuesFit;
    RootParts(Build(f), f);
    RootMembersSize(Build(f), f);
    RootNamesSize();
    hide ROOT_NAMES;
    ObjectSize(Build(f), ROOT_NAMES, 25, 3092, "images", 3185, "expected_prestate", 9630);
    Monotone(|ROOT_NAMES|, 10, 3396);
  }

  // --------------------------------------------------------------------------------------------
  // The codec
  // --------------------------------------------------------------------------------------------

  datatype Intake = Accepted(intent: Fields) | Invalid | LegacyRejected

  /** Accepts exactly the byte forms of documents built from valid fields, and tells the fields. A
      canonical object is called legacy exactly when the first of its offences is a legacy format. */
  method ParseIngress(raw: string) returns (r: Intake)
    ensures forall f :: r == Accepted(f) <==> Valid(f) && raw == Canonical(Build(f))
    ensures forall f :: r == Accepted(f) <==>
      Valid(f) && ReadCanonical(raw).Some? && Requests(ReadCanonical(raw).value, f)
    ensures r.Accepted? ==>
      && ReadCanonical(raw).Some?
      && var v := ReadCanonical(raw).value;
        && Closed(v, {"format", "status", "authority", "legacy_execution_accepted", "bindings", "images",
                      "expected_prestate", "operation_template_id", "expected_postcondition", "rollback_policy"})
        && Get(v, "format") == Lit("desire-real-oidc-broker-create-intent-v1")
        && Get(v, "status") == Lit("VALIDATED_REQUEST_NOT_AUTHORITY")
        && Get(v, "authority") == Lit("NOT_AUTHORITY")
        && Get(v, "legacy_execution_accepted") == Bool(false)
        && Get(v, "operation_template_id") == Lit("CREATE_BOUND_REAL_OIDC_RESOURCES_ZERO_START_V1")
        && Get(v, "rollback_policy") == Lit("PRESERVE_POSTGRES_VOLUME")
    ensures r.LegacyRejected? <==>
      && 0 < |raw| <= 65_536
      && ReadCanonical(raw).Some? && ReadCanonical(raw).value.Obj?
      && exists p ::
        Offences.First(ReadCanonical(raw).value, p) && Offences.OffenceAt(ReadCanonical(raw).value, p) == Legacy
  {
    hide ReadCanonical, Canonical, Build, Valid, Scan, Lit, K, Spotless, WellFormed, Requests;
    hide Offences.First, Offences.OffenceAt;
    AcceptedFormsAreCanonical(raw);
    RequestsAccepted(raw);
    forall f | Valid(f) && raw == Canonical(Build(f))
      ensures ReadCanonical(raw) == Some(Build(f)) && Scan(Build(f)) == Clean
      ensures 0 < |raw| <= MAX_DOCUMENT
      ensures Build(f).Obj? && K("format") in Build(f).members && Get(Build(f), "format") == Lit(FORMAT)
    {
      BuiltFits(f);
      BuiltIsSound(f);
      ScanFindsEverything(Build(f));
      EndsWithNewline();
      BuildHasFormat(f);
    }
    if !(0 < |raw| <= MAX_DOCUMENT) { return Invalid; }
    var document := ReadCanonical(raw);
    if document.None? || !document.value.Obj? { return Invalid; }
    Offences.ScanTellsFirstOffence(document.value, Legacy);
    var verdict := Scan(document.value);
    if verdict.Malformed? { return Invalid; }
    if verdict.Legacy? { return LegacyRejected; }
    if K("format") !in document.value.members || Get(document.value, "format") != Lit(FORMAT) { return Invalid; }
    var intent := ValidateCreateIntent(document.value);
    if intent.None? { return Invalid; }
    forall f | Build(f) == Build(intent.value) ensures f == intent.value {
      BuildDetermines(f, intent.value);
    }
    RequestSays(document.value, intent.value);
    return Accepted(intent.value);
  }

  /** The canonical forms of built documents are the canonical texts of requests. */
  lemma RequestsAccepted(raw: string)
    ensures forall f :: Valid(f) && raw == Canonical(Build(f)) <==>
      Valid(f) && ReadCanonical(raw).Some? && Requests(ReadCanonical(raw).value, f)
  {
    AcceptedFormsAreCanonical(raw);
    hide ReadCanonical, Canonical, Build, Valid, Spotless, WellFormed, Requests;
    forall f | Valid(f)
      ensures raw == Canonical(Build(f)) <==> ReadCanonical(raw).Some? && Requests(ReadCanonical(raw).value, f)
    {
      BuiltIsSound(f);
      if ReadCanonical(raw).Some? { RequestInFull(ReadCanonical(raw).value, f); }
    }
  }

  lemma RequestSays(v: Json, f: Fields)
    requires v == Build(f)
    ensures Closed(v, {"format", "status", "authority", "legacy_execution_accepted", "bindings", "images",
                       "expected_prestate", "operation_template_id", "expected_postcondition", "rollback_policy"})
    ensures Get(v, "format") == Lit("desire-real-oidc-broker-create-intent-v1")
    ensures Get(v, "status") == Lit("VALIDATED_REQUEST_NOT_AUTHORITY")
    ensures Get(v, "authority") == Lit("NOT_AUTHORITY")
    ensures Get(v, "legacy_execution_accepted") == Bool(false)
    ensures Get(v, "operation_template_id") == Lit("CREATE_BOUND_REAL_OIDC_RESOURCES_ZERO_START_V1")
    ensures Get(v, "rollback_policy") == Lit("PRESERVE_POSTGRES_VOLUME")
  {
    hide Build, Lit, K, Closed;
    RequestInFull(v, f);
  }

  lemma BuildHasFormat(f: Fields)
    ensures Build(f).Obj? && K("format") in Build(f).members && Get(Build(f), "format") == Lit(FORMAT)
  {
    hide Of, Parts, HEADERS, Lit;
    assert Has(Build(f), Root(f));
  }

  /** A document determines the fields it was built from. */
  lemma BuildDetermines(f: Fields, g: Fields)
    requires Build(f) == Build(g)
    ensures f == g
  {
    hide Of, Build, Bindings, Images, Prestate, HEADERS, POSTCONDITION, Lit, K, Holds;
    RootParts(Build(f), f);
    RootParts(Build(g), g);
    BindingsDetermine(f, g);
    ImagesDetermine(f.images, g.images);
  }
}
