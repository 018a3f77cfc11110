/** The one document a trusted executor takes in: a create intent that is not an authority.
    Its codec is exact: the accepted byte strings are the canonical forms of built documents. */
module CreateIntent {
  import opened CanonicalJson

  const MAX_DOCUMENT := 64 * 1024
  const MAX_DESCRIPTOR := 0x7fff_ffff_ffff_ffff

  const SERVICES := [
    "api", "db", "edge", "identity-bootstrap", "migrate", "matching-runtime", "oidc-egress-guard",
    "online-credentials-reconcile", "online-credentials-verify", "taxonomy-seed", "web"]
  const NETWORKS := ["app", "data", "ingress", "oidc-egress"]

  const FORBIDDEN := {
    "arg", "args", "argument", "arguments", "argv", "command", "commands", "cwd", "docker_socket",
    "endpoint", "env", "environment", "path", "paths", "socket", "socket_path", "working_directory"}

  const LEGACY_FORMATS := {
    "desire-real-oidc-activation-authorization-v1", "desire-real-oidc-collected-safe-projection-digest-v1",
    "desire-real-oidc-create-plan-v1", "desire-real-oidc-execution-stage-lock-v1",
    "desire-real-oidc-execution-stage-v1", "desire-real-oidc-guard-binding-v2",
    "desire-real-oidc-management-authorization-v1", "desire-real-oidc-management-evidence-v1",
    "desire-real-oidc-management-nonce-claim-v1", "desire-real-oidc-management-plan-v1",
    "desire-real-oidc-plan-nonce-claim-v1", "desire-real-oidc-post-create-collection-binding-v1",
    "desire-real-oidc-post-create-collection-plan-v1", "desire-real-oidc-post-create-evidence-v1",
    "desire-real-oidc-post-create-evidence-v2", "desire-real-oidc-post-create-projection-v1",
    "desire-real-oidc-post-create-semantic-projection-v1", "desire-real-oidc-preflight-evidence-v1",
    "desire-real-oidc-safe-container-inspect-v1", "desire-real-oidc-safe-network-inspect-v1",
    "desire-real-oidc-safe-volume-inspect-v1", "desire-real-oidc-start-authorization-v1",
    "desire-real-oidc-start-plan-v1", "desire-real-oidc-status-plan-v1"}

  const FORMAT := "desire-real-oidc-broker-create-intent-v1"

  // --------------------------------------------------------------------------------------------
  // Closed objects with literal keys
  // --------------------------------------------------------------------------------------------

  /** The code points of a literal. */
  function K(s: string): (k: Str)
    ensures |k| == |s| && forall i :: 0 <= i < |s| ==> k[i] == s[i] as int
  {
    seq(|s|, i requires 0 <= i < |s| => s[i] as int)
  }

  lemma LiteralsInjective()
    ensures forall a, b :: K(a) == K(b) ==> a == b
    ensures forall a :: Unpaired(K(a))
  {
    forall a, b | K(a) == K(b) ensures a == b {
      forall i | 0 <= i < |a| ensures a[i] == b[i] {
        assert K(a)[i] == K(b)[i];
      }
    }
  }

  function Lit(s: string): Json {
    Text(K(s))
  }

  function Keys(names: set<string>): set<Str> {
    set n <- names :: K(n)
  }

  predicate Closed(v: Json, names: set<string>) {
    v.Obj? && v.members.Keys == Keys(names)
  }

  function Get(v: Json, name: string): Json
    requires v.Obj? && K(name) in v.members
  {
    v.members[K(name)]
  }

  /** An object and its members by literal name. */
  predicate Has(v: Json, fields: map<string, Json>) {
    Closed(v, fields.Keys) && forall n <- fields :: Get(v, n) == fields[n]
  }

  lemma HasUnique(v: Json, w: Json, fields: map<string, Json>)
    requires Has(v, fields) && Has(w, fields)
    ensures v == w
  {
    forall k | k in v.members ensures v.members[k] == w.members[k] {
      var n :| n in fields && k == K(n);
      assert Get(v, n) == Get(w, n);
    }
    assert v.members == w.members;
  }

  /** The object with the given members. */
  function Of(fields: map<string, Json>): (v: Json)
    ensures Has(v, fields)
  {
    LiteralsInjective();
    Obj(map n | n in fields :: K(n) := fields[n])
  }

  lemma HasIsOf(v: Json, fields: map<string, Json>)
    ensures Has(v, fields) <==> v == Of(fields)
  {
    if Has(v, fields) { HasUnique(v, Of(fields), fields); }
  }

  lemma OfDetermines(a: map<string, Json>, b: map<string, Json>)
    requires Of(a) == Of(b)
    ensures a == b
  {
    hide Of, K;
    var v := Of(a);
    assert Has(v, a) && Has(v, b);
    forall n ensures n in a <==> n in b {
      LiteralsInjective();
      assert n in a ==> K(n) in Keys(b.Keys);
      assert n in b ==> K(n) in Keys(a.Keys);
    }
    forall n | n in a ensures a[n] == b[n] { assert Get(v, n) == a[n] && Get(v, n) == b[n]; }
  }

  // --------------------------------------------------------------------------------------------
  // Fields and the document they determine
  // --------------------------------------------------------------------------------------------

  datatype Fields = Fields(
    project: Str, snapshot: Str, compose: Str, device: int, inode: int, images: seq<(Str, Str)>)

  predicate LowerHex(c: CodePoint) { 0x30 <= c <= 0x39 || 0x61 <= c <= 0x66 }

  predicate LowerAlnum(c: CodePoint) { 0x30 <= c <= 0x39 || 0x61 <= c <= 0x7a }

  predicate Alnum(c: CodePoint) { LowerAlnum(c) || 0x41 <= c <= 0x5a }

  predicate IsSha256(s: Str) {
    |s| == 64 && forall i :: 0 <= i < |s| ==> LowerHex(s[i])
  }

  predicate IsProject(s: Str) {
    var prefix := K("desire-real-oidc-");
    && prefix <= s
    && var tail := s[|prefix|..];
    && 1 <= |tail| <= 40
    && LowerAlnum(tail[0]) && LowerAlnum(tail[|tail| - 1])
    && forall i :: 0 <= i < |tail| ==> LowerAlnum(tail[i]) || tail[i] == 0x2d
  }

  predicate IsReference(s: Str) {
    1 <= |s| <= 512 && Alnum(s[0])
    && forall i :: 0 <= i < |s| ==> Alnum(s[i]) || s[i] in {0x2e, 0x5f, 0x2f, 0x3a, 0x40, 0x2d}  // . _ / : @ -
  }

  predicate IsImageId(s: Str) {
    K("sha256:") <= s && IsSha256(s[7..])
  }

  predicate IsDescriptor(n: int) {
    0 < n <= MAX_DESCRIPTOR
  }

  predicate ValidImages(images: seq<(Str, Str)>) {
    && |images| == 5
    && (forall i :: 0 <= i < 5 ==> IsReference(images[i].0) && IsImageId(images[i].1))
    && (forall i, j :: 0 <= i < j < 5 ==> Less(images[i].0, images[j].0) && images[i].1 != images[j].1)
  }

  predicate Valid(f: Fields) {
    && IsProject(f.project) && IsSha256(f.snapshot) && IsSha256(f.compose)
    && IsDescriptor(f.device) && IsDescriptor(f.inode)
    && ValidImages(f.images)
  }

  function Absent(name: Str): map<string, Json> {
    map["name" := Text(name), "prestate" := Lit("ABSENT")]
  }

  function Resources(project: Str, joint: string, names: seq<string>, suffix: string): map<string, Json> {
    map n <- names :: Of(Absent(project + K(joint) + K(n) + K(suffix)))
  }

  function Image(image: (Str, Str)): map<string, Json> {
    map["reference" := Text(image.0), "id" := Text(image.1)]
  }

  function Images(images: seq<(Str, Str)>): Json {
    Arr(seq(|images|, i requires 0 <= i < |images| => Of(Image(images[i]))))
  }

  function Manifest(f: Fields): map<string, Json> {
    map["sha256" := Text(f.snapshot), "device" := Num(f.device), "inode" := Num(f.inode)]
  }

  function Bindings(f: Fields): map<string, Json> {
    map["project" := Text(f.project), "snapshot_sha256" := Text(f.snapshot),
        "snapshot_manifest" := Of(Manifest(f)), "compose_sha256" := Text(f.compose)]
  }

  function Prestate(project: Str): map<string, Json> {
    map["containers" := Of(Resources(project, "-", SERVICES, "-1")),
        "networks" := Of(Resources(project, "_", NETWORKS, "")),
        "postgres_volume" := Of(Absent(project + K("_postgres-data")))]
  }

  const POSTCONDITION: map<string, Json> :=
    map["state" := Lit("CREATED_ZERO_START"), "containers_created" := Num(11), "containers_started" := Num(0),
        "process_start_allowed" := Bool(false), "post_create_reinspection_required" := Bool(true)]

  /** The members that are the same in every document. */
  const HEADERS: map<string, Json> :=
    map["status" := Lit("VALIDATED_REQUEST_NOT_AUTHORITY"),
        "authority" := Lit("NOT_AUTHORITY"),
        "legacy_execution_accepted" := Bool(false),
        "operation_template_id" := Lit("CREATE_BOUND_REAL_OIDC_RESOURCES_ZERO_START_V1"),
        "rollback_policy" := Lit("PRESERVE_POSTGRES_VOLUME")]

  function Parts(f: Fields): map<string, Json> {
    map["bindings" := Of(Bindings(f)), "images" := Images(f.images),
        "expected_prestate" := Of(Prestate(f.project)), "expected_postcondition" := Of(POSTCONDITION)]
  }

  function Root(f: Fields): map<string, Json> {
    (HEADERS + Parts(f))["format" := Lit(FORMAT)]
  }

  function Build(f: Fields): Json {
    Of(Root(f))
  }

  // --------------------------------------------------------------------------------------------
  // Recursive ingress scan
  // --------------------------------------------------------------------------------------------

  datatype Verdict = Clean | Malformed | Legacy

  function Then(a: Verdict, b: Verdict): Verdict {
    if a.Clean? then b else a
  }

  predicate IsLegacyFormat(v: Json) {
    v.Text? && exists l <- LEGACY_FORMATS :: v.s == K(l)
  }

  /** The first offence met in document order. */
  function Scan(v: Json): Verdict
    decreases v, 1, 0
  {
    match v
    case Obj(members) => ScanMembers(Sorted(members.Keys), v)
    case Arr(items) => ScanItems(items)
    case _ => Clean
  }

  function ScanItems(items: seq<Json>): Verdict
    decreases items, 0, |items|
  {
    if items == [] then Clean else Then(Scan(items[0]), ScanItems(items[1..]))
  }

  function ScanMembers(keys: seq<Str>, v: Json): Verdict
    requires v.Obj? && forall k <- keys :: k in v.members
    decreases v, 0, |keys|
  {
    if keys == [] then Clean
    else if keys[0] in Keys(FORBIDDEN) then Malformed
    else if keys[0] == K("format") && IsLegacyFormat(v.members[keys[0]]) then Legacy
    else Then(Scan(v.members[keys[0]]), ScanMembers(keys[1..], v))
  }

  /** No forbidden name and no legacy format at any depth. */
  predicate Spotless(v: Json)
    decreases v
  {
    match v
    case Obj(members) => forall k :: k in members ==>
      k !in Keys(FORBIDDEN) && !(k == K("format") && IsLegacyFormat(members[k])) && Spotless(members[k])
    case Arr(items) => forall i :: 0 <= i < |items| ==> Spotless(items[i])
    case _ => true
  }

  /** No forbidden name at any depth. */
  predicate Permitted(v: Json)
    decreases v
  {
    match v
    case Obj(members) => forall k :: k in members ==> k !in Keys(FORBIDDEN) && Permitted(members[k])
    case Arr(items) => forall i :: 0 <= i < |items| ==> Permitted(items[i])
    case _ => true
  }

  /** Only documents free of both offences pass, and a legacy format is named as such at any depth
      of a document without forbidden names. */
  lemma {:induction false} ScanFindsEverything(v: Json)
    ensures Scan(v) == Clean <==> Spotless(v)
    ensures Permitted(v) ==> Scan(v) != Malformed
    decreases v, 1, 0
  {
    match v {
      case Obj(members) => ScanMembersFinds(Sorted(members.Keys), v);
      case Arr(items) => ScanItemsFinds(items);
      case _ =>
    }
  }

  lemma {:induction false} ScanItemsFinds(items: seq<Json>)
    ensures ScanItems(items) == Clean <==> forall i :: 0 <= i < |items| ==> Spotless(items[i])
    ensures (forall i :: 0 <= i < |items| ==> Permitted(items[i])) ==> ScanItems(items) != Malformed
    decreases items, 0, |items|
  {
    if items != [] {
      ScanFindsEverything(items[0]);
      ScanItemsFinds(items[1..]);
      assert items == [items[0]] + items[1..];
    }
  }

  lemma {:induction false} ScanMembersFinds(keys: seq<Str>, v: Json)
    requires v.Obj? && forall k <- keys :: k in v.members
    ensures ScanMembers(keys, v) == Clean <==> forall k <- keys ::
      k !in Keys(FORBIDDEN) && !(k == K("format") && IsLegacyFormat(v.members[k])) && Spotless(v.members[k])
    ensures Permitted(v) ==> ScanMembers(keys, v) != Malformed
    decreases v, 0, |keys|
  {
    hide IsLegacyFormat, Keys, K;
    if keys != [] {
      ScanFindsEverything(v.members[keys[0]]);
      ScanMembersFinds(keys[1..], v);
      assert keys == [keys[0]] + keys[1..];
    }
  }

  // --------------------------------------------------------------------------------------------
  // Built documents pass the scan and print reversibly
  // --------------------------------------------------------------------------------------------

  predicate NoSurrogates(s: Str) {
    forall i :: 0 <= i < |s| ==> !High(s[i]) && !Low(s[i])
  }

  predicate Sound(v: Json) {
    Spotless(v) && WellFormed(v)
  }

  /** A member name the scan has nothing to say about. */
  predicate Ordinary(name: string) {
    name !in FORBIDDEN && name != "format"
  }

  predicate AllSound(fields: map<string, Json>) {
    forall n <- fields :: Ordinary(n) && Sound(fields[n])
  }

  lemma NoneIsSound()
    ensures AllSound(map[])
  {
  }

  lemma OneMore(fields: map<string, Json>, name: string, v: Json)
    requires AllSound(fields) && Ordinary(name) && Sound(v)
    ensures AllSound(fields[name := v])
  {
  }

  predicate Entry(name: string, v: Json) {
    name !in FORBIDDEN && !(name == "format" && IsLegacyFormat(v)) && Sound(v)
  }

  lemma EntryPasses(name: string, v: Json)
    requires Entry(name, v)
    ensures K(name) !in Keys(FORBIDDEN) && !(K(name) == K("format") && IsLegacyFormat(v))
    ensures Spotless(v) && WellFormed(v) && Unpaired(K(name))
  {
    hide IsLegacyFormat, Spotless, WellFormed;
    LiteralsInjective();
  }

  lemma EntriesAreSound(fields: map<string, Json>)
    requires forall n <- fields :: Entry(n, fields[n])
    ensures Sound(Of(fields))
  {
    hide Entry, IsLegacyFormat, Keys;
    var v := Of(fields);
    forall k | k in v.members
      ensures k !in Keys(FORBIDDEN) && !(k == K("format") && IsLegacyFormat(v.members[k]))
      ensures Spotless(v.members[k]) && WellFormed(v.members[k]) && Unpaired(k)
    {
      var n := NameOf(fields, k);
      EntryPasses(n, fields[n]);
      assert Get(v, n) == fields[n];
    }
  }

  ghost function NameOf(fields: map<string, Json>, k: Str): (n: string)
    requires k in Of(fields).members
    ensures n in fields && k == K(n)
  {
    var n :| n in fields && k == K(n);
    n
  }

  lemma OfIsSound(fields: map<string, Json>)
    requires AllSound(fields)
    ensures Sound(Of(fields))
  {
    hide Sound;
    EntriesAreSound(fields);
  }

  /** The one place for a format: the root, holding a current one. */
  lemma RootIsSound(fields: map<string, Json>, format: Json)
    requires AllSound(fields) && Sound(format) && !IsLegacyFormat(format)
    ensures Sound(Of(fields["format" := format]))
  {
    hide Sound, IsLegacyFormat, Of;
    FormatIsAllowed();
    EntriesAreSound(fields["format" := format]);
  }

  lemma FormatIsAllowed()
    ensures "format" !in FORBIDDEN
  {
  }

  lemma TextIsSound(s: Str)
    requires NoSurrogates(s)
    ensures Sound(Text(s))
  {
  }

  lemma LitIsSound(s: string)
    ensures Sound(Lit(s))
  {
    TextIsSound(K(s));
  }

  lemma ShortNames()
    ensures Ordinary("name") && Ordinary("prestate") && Ordinary("reference") && Ordinary("id")
    ensures Ordinary("sha256") && Ordinary("device") && Ordinary("inode")
  {
  }

  lemma BindingNames()
    ensures Ordinary("project") && Ordinary("snapshot_sha256") && Ordinary("snapshot_manifest")
    ensures Ordinary("compose_sha256") && Ordinary("containers") && Ordinary("networks")
    ensures Ordinary("postgres_volume")
  {
  }

  lemma PostconditionNames()
    ensures Ordinary("state") && Ordinary("containers_created") && Ordinary("containers_started")
    ensures Ordinary("process_start_allowed") && Ordinary("post_create_reinspection_required")
  {
  }

  lemma RootNames()
    ensures Ordinary("status") && Ordinary("authority") && Ordinary("legacy_execution_accepted")
    ensures Ordinary("bindings") && Ordinary("images") && Ordinary("expected_prestate")
    ensures Ordinary("operation_template_id") && Ordinary("expected_postcondition") && Ordinary("rollback_policy")
  {
  }

  lemma NetworkNames()
    ensures forall n <- NETWORKS :: Ordinary(n)
  {
  }

  lemma ServiceNames()
    ensures forall n <- SERVICES :: Ordinary(n)
  {
  }

  lemma AbsentIsSound(name: Str)
    requires NoSurrogates(name)
    ensures Sound(Of(Absent(name)))
  {
    hide Sound, Ordinary, AllSound, Of, NoSurrogates;
    ShortNames();
    NoneIsSound();
    TextIsSound(name);
    LitIsSound("ABSENT");
    OneMore(map[], "name", Text(name));
    OneMore(map["name" := Text(name)], "prestate", Lit("ABSENT"));
    OfIsSound(Absent(name));
  }

  lemma ResourcesAreSound(project: Str, joint: string, names: seq<string>, suffix: string)
    requires NoSurrogates(project) && forall n <- names :: Ordinary(n)
    ensures Sound(Of(Resources(project, joint, names, suffix)))
  {
    hide Sound, Ordinary, Absent, Of;
    var fields := Resources(project, joint, names, suffix);
    forall n | n in fields ensures Sound(fields[n]) && Ordinary(n) {
      AbsentIsSound(project + K(joint) + K(n) + K(suffix));
    }
    OfIsSound(fields);
  }

  lemma ValidTextIsPlain(f: Fields)
    requires Valid(f)
    ensures NoSurrogates(f.project) && NoSurrogates(f.snapshot) && NoSurrogates(f.compose)
    ensures |f.images| == 5
    ensures forall i :: 0 <= i < 5 ==> NoSurrogates(f.images[i].0) && NoSurrogates(f.images[i].1)
  {
    var prefix := K("desire-real-oidc-");
    assert f.project == prefix + f.project[|prefix|..];
    forall i | 0 <= i < 5 ensures NoSurrogates(f.images[i].0) && NoSurrogates(f.images[i].1) {
      var id := f.images[i].1;
      assert IsReference(f.images[i].0) && IsImageId(id);
      assert id == K("sha256:") + id[7..];
    }
  }

  lemma ImageIsSound(image: (Str, Str))
    requires NoSurrogates(image.0) && NoSurrogates(image.1)
    ensures Sound(Of(Image(image)))
  {
    hide Sound, Ordinary, AllSound, Of, NoSurrogates;
    ShortNames();
    NoneIsSound();
    TextIsSound(image.0);
    TextIsSound(image.1);
    OneMore(map[], "reference", Text(image.0));
    OneMore(map["reference" := Text(image.0)], "id", Text(image.1));
    OfIsSound(Image(image));
  }

  lemma ImagesAreSound(images: seq<(Str, Str)>)
    requires forall i :: 0 <= i < |images| ==> NoSurrogates(images[i].0) && NoSurrogates(images[i].1)
    ensures Sound(Images(images))
  {
    hide NoSurrogates, Image, Of;
    forall i | 0 <= i < |images| ensures Sound(Of(Image(images[i]))) {
      ImageIsSound(images[i]);
    }
  }

  lemma PrestateIsSound(project: Str)
    requires NoSurrogates(project)
    ensures Sound(Of(Prestate(project)))
  {
    ServiceNames();
    NetworkNames();
    BindingNames();
    hide Sound, Ordinary, AllSound, Of, Resources, Absent;
    ResourcesAreSound(project, "-", SERVICES, "-1");
    ResourcesAreSound(project, "_", NETWORKS, "");
    AbsentIsSound(project + K("_postgres-data"));
    NoneIsSound();
    ThreeMore("containers", Of(Resources(project, "-", SERVICES, "-1")),
      "networks", Of(Resources(project, "_", NETWORKS, "")),
      "postgres_volume", Of(Absent(project + K("_postgres-data"))));
  }

  lemma ThreeMore(a: string, u: Json, b: string, v: Json, c: string, w: Json)
    requires Ordinary(a) && Ordinary(b) && Ordinary(c) && Sound(u) && Sound(v) && Sound(w)
    ensures Sound(Of(map[a := u, b := v, c := w]))
  {
    hide Sound, Ordinary, AllSound, Of;
    NoneIsSound();
    OneMore(map[], a, u);
    OneMore(map[a := u], b, v);
    OneMore(map[a := u, b := v], c, w);
    OfIsSound(map[a := u, b := v, c := w]);
  }

  lemma ManifestIsSound(f: Fields)
    requires NoSurrogates(f.snapshot)
    ensures Sound(Of(Manifest(f)))
  {
    ShortNames();
    hide Ordinary, AllSound, Of, NoSurrogates;
    TextIsSound(f.snapshot);
    ThreeMore("sha256", Text(f.snapshot), "device", Num(f.device), "inode", Num(f.inode));
  }

  lemma BindingsAreSound(f: Fields)
    requires NoSurrogates(f.project) && NoSurrogates(f.snapshot) && NoSurrogates(f.compose)
    ensures Sound(Of(Bindings(f)))
  {
    hide Sound, Ordinary, AllSound, Of, NoSurrogates, Manifest;
    BindingNames();
    NoneIsSound();
    TextIsSound(f.project);
    TextIsSound(f.snapshot);
    TextIsSound(f.compose);
    ManifestIsSound(f);
    var m0 := map["project" := Text(f.project)];
    var m1 := m0["snapshot_sha256" := Text(f.snapshot)];
    var m2 := m1["snapshot_manifest" := Of(Manifest(f))];
    OneMore(map[], "project", Text(f.project));
    OneMore(m0, "snapshot_sha256", Text(f.snapshot));
    OneMore(m1, "snapshot_manifest", Of(Manifest(f)));
    OneMore(m2, "compose_sha256", Text(f.compose));
    OfIsSound(Bindings(f));
  }

  lemma ScalarsAreSound(n: int, b: bool)
    ensures Sound(Num(n)) && Sound(Bool(b))
  {
  }

  lemma PostconditionIsSound()
    ensures Sound(Of(POSTCONDITION))
  {
    hide Sound, Ordinary, AllSound, Of, Lit;
    PostconditionNames();
    NoneIsSound();
    LitIsSound("CREATED_ZERO_START");
    ScalarsAreSound(11, false);
    ScalarsAreSound(0, true);
    var m0 := map["state" := Lit("CREATED_ZERO_START")];
    var m1 := m0["containers_created" := Num(11)];
    var m2 := m1["containers_started" := Num(0)];
    var m3 := m2["process_start_allowed" := Bool(false)];
    OneMore(map[], "state", Lit("CREATED_ZERO_START"));
    OneMore(m0, "containers_created", Num(11));
    OneMore(m1, "containers_started", Num(0));
    OneMore(m2, "process_start_allowed", Bool(false));
    OneMore(m3, "post_create_reinspection_required", Bool(true));
    OfIsSound(POSTCONDITION);
  }

  lemma FormatIsCurrent()
    ensures !IsLegacyFormat(Lit(FORMAT))
  {
    LiteralsInjective();
  }

  lemma HeadersAreSound()
    ensures AllSound(HEADERS)
  {
    hide Sound, Ordinary, AllSound, Lit;
    RootNames();
    NoneIsSound();
    ScalarsAreSound(0, false);
    LitIsSound("VALIDATED_REQUEST_NOT_AUTHORITY");
    LitIsSound("NOT_AUTHORITY");
    LitIsSound("CREATE_BOUND_REAL_OIDC_RESOURCES_ZERO_START_V1");
    LitIsSound("PRESERVE_POSTGRES_VOLUME");
    var m0 := map["status" := Lit("VALIDATED_REQUEST_NOT_AUTHORITY")];
    var m1 := m0["authority" := Lit("NOT_AUTHORITY")];
    var m2 := m1["legacy_execution_accepted" := Bool(false)];
    var m3 := m2["operation_template_id" := Lit("CREATE_BOUND_REAL_OIDC_RESOURCES_ZERO_START_V1")];
    OneMore(map[], "status", Lit("VALIDATED_REQUEST_NOT_AUTHORITY"));
    OneMore(m0, "authority", Lit("NOT_AUTHORITY"));
    OneMore(m1, "legacy_execution_accepted", Bool(false));
    OneMore(m2, "operation_template_id", Lit("CREATE_BOUND_REAL_OIDC_RESOURCES_ZERO_START_V1"));
    OneMore(m3, "rollback_policy", Lit("PRESERVE_POSTGRES_VOLUME"));
  }

  lemma PartsAreSound(f: Fields)
    requires Valid(f)
    ensures AllSound(Parts(f))
  {
    hide Sound, Ordinary, AllSound, Of, Bindings, Images, Prestate, POSTCONDITION, Valid, NoSurrogates;
    RootNames();
    NoneIsSound();
    ValidTextIsPlain(f);
    BindingsAreSound(f);
    ImagesAreSound(f.images);
    PrestateIsSound(f.project);
    PostconditionIsSound();
    var m0 := map["bindings" := Of(Bindings(f))];
    var m1 := m0["images" := Images(f.images)];
    var m2 := m1["expected_prestate" := Of(Prestate(f.project))];
    OneMore(map[], "bindings", Of(Bindings(f)));
    OneMore(m0, "images", Images(f.images));
    OneMore(m1, "expected_prestate", Of(Prestate(f.project)));
    OneMore(m2, "expected_postcondition", Of(POSTCONDITION));
  }

  /** Every document built from valid fields passes the scan and has a reversible byte form. */
  lemma BuiltIsSound(f: Fields)
    requires Valid(f)
    ensures Spotless(Build(f)) && WellFormed(Build(f))
  {
    hide IsLegacyFormat, Spotless, WellFormed, Lit, HEADERS, Parts, Of, Valid;
    HeadersAreSound();
    PartsAreSound(f);
    LitIsSound(FORMAT);
    FormatIsCurrent();
    RootIsSound(HEADERS + Parts(f), Lit(FORMAT));
  }
}
