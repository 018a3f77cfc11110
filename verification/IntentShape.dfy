/** A create intent member by member, in plain values: what the parts of a built document hold. */
module IntentShape {
  import opened CanonicalJson
  import opened CreateIntent
  import opened ExecutorIngress

  /** The resource of this name is expected to be absent. */
  predicate Awaits(v: Json, name: Str) {
    Closed(v, {"name", "prestate"}) && Get(v, "name") == Text(name) && Get(v, "prestate") == Lit("ABSENT")
  }

  lemma AwaitsAbsent(v: Json, name: Str)
    ensures v == Of(Absent(name)) <==> Awaits(v, name)
  {
    AbsentParts(v, name);
  }

  lemma ResourcesInFull(v: Json, project: Str, joint: string, names: seq<string>, suffix: string, all: set<string>)
    requires all == set n <- names
    ensures v == Of(Resources(project, joint, names, suffix)) <==>
      Closed(v, all) && forall n :: n in all ==> Awaits(Get(v, n), project + K(joint) + K(n) + K(suffix))
  {
    hide Of, Has, Absent, K, Awaits;
    var fields := Resources(project, joint, names, suffix);
    NamesOf(v, fields);
    assert fields.Keys == all;
    if Closed(v, all) {
      forall n <- all
        ensures Get(v, n) == fields[n] <==> Awaits(Get(v, n), project + K(joint) + K(n) + K(suffix))
      {
        AwaitsAbsent(Get(v, n), project + K(joint) + K(n) + K(suffix));
      }
    }
  }

  lemma ServicesInFull()
    ensures (set n <- SERVICES) == {
      "api", "db", "edge", "identity-bootstrap", "migrate", "matching-runtime", "oidc-egress-guard",
      "online-credentials-reconcile", "online-credentials-verify", "taxonomy-seed", "web"}
  {
  }

  /** One container per service, absent. */
  lemma ContainersInFull(v: Json, project: Str)
    ensures var services := {
      "api", "db", "edge", "identity-bootstrap", "migrate", "matching-runtime", "oidc-egress-guard",
      "online-credentials-reconcile", "online-credentials-verify", "taxonomy-seed", "web"};
      v == Of(Resources(project, "-", SERVICES, "-1")) <==>
        Closed(v, services) && forall n :: n in services ==> Awaits(Get(v, n), project + K("-") + K(n) + K("-1"))
  {
    ServicesInFull();
    hide SERVICES, Of, Resources, K, Awaits;
    ResourcesInFull(v, project, "-", SERVICES, "-1", set n <- SERVICES);
  }

  /** One network for each of four names, absent. */
  lemma NetworksInFull(v: Json, project: Str)
    ensures var networks := {"app", "data", "ingress", "oidc-egress"};
      v == Of(Resources(project, "_", NETWORKS, "")) <==>
        Closed(v, networks) && forall n :: n in networks ==> Awaits(Get(v, n), project + K("_") + K(n) + K(""))
  {
    assert (set n <- NETWORKS) == {"app", "data", "ingress", "oidc-egress"};
    hide NETWORKS, Of, Resources, K, Awaits;
    ResourcesInFull(v, project, "_", NETWORKS, "", set n <- NETWORKS);
  }

  /** Containers, networks and one volume, each named after the project, none of them there. */
  predicate AwaitsAll(v: Json, project: Str) {
    && Closed(v, {"containers", "networks", "postgres_volume"})
    && (var services, containers := {
          "api", "db", "edge", "identity-bootstrap", "migrate", "matching-runtime", "oidc-egress-guard",
          "online-credentials-reconcile", "online-credentials-verify", "taxonomy-seed", "web"}, Get(v, "containers");
        Closed(containers, services)
        && forall n :: n in services ==> Awaits(Get(containers, n), project + K("-") + K(n) + K("-1")))
    && (var names, networks := {"app", "data", "ingress", "oidc-egress"}, Get(v, "networks");
        Closed(networks, names)
        && forall n :: n in names ==> Awaits(Get(networks, n), project + K("_") + K(n) + K("")))
    && Awaits(Get(v, "postgres_volume"), project + K("_postgres-data"))
  }

  lemma PrestateInFull(v: Json, project: Str)
    ensures v == Of(Prestate(project)) <==> AwaitsAll(v, project)
  {
    PrestateParts(v, project);
    hide Of, Prestate, Resources, Absent, K, Awaits, SERVICES, NETWORKS;
    if Closed(v, {"containers", "networks", "postgres_volume"}) {
      ContainersInFull(Get(v, "containers"), project);
      NetworksInFull(Get(v, "networks"), project);
      AwaitsAbsent(Get(v, "postgres_volume"), project + K("_postgres-data"));
    }
  }

  predicate Binds(v: Json, f: Fields) {
    && Closed(v, {"project", "snapshot_sha256", "snapshot_manifest", "compose_sha256"})
    && Get(v, "project") == Text(f.project)
    && Get(v, "snapshot_sha256") == Text(f.snapshot)
    && Get(v, "compose_sha256") == Text(f.compose)
    && var manifest := Get(v, "snapshot_manifest");
      && Closed(manifest, {"sha256", "device", "inode"})
      && Get(manifest, "sha256") == Text(f.snapshot)
      && Get(manifest, "device") == Num(f.device)
      && Get(manifest, "inode") == Num(f.inode)
  }

  lemma BindingsInFull(v: Json, f: Fields)
    ensures v == Of(Bindings(f)) <==> Binds(v, f)
  {
    BindingsParts(v, f);
    hide Of, Bindings, Manifest;
    if Closed(v, BINDING_NAMES) { ManifestParts(Get(v, "snapshot_manifest"), f); }
  }

  predicate ListsImages(v: Json, images: seq<(Str, Str)>) {
    && v.Arr? && |v.items| == |images|
    && forall i :: 0 <= i < |images| ==>
      && Closed(v.items[i], {"reference", "id"})
      && Get(v.items[i], "reference") == Text(images[i].0) && Get(v.items[i], "id") == Text(images[i].1)
  }

  lemma ImagesInFull(v: Json, images: seq<(Str, Str)>)
    ensures v == Images(images) <==> ListsImages(v, images)
  {
    hide Of, Image;
    if v.Arr? && |v.items| == |images| {
      forall i | 0 <= i < |images| { ImageParts(v.items[i], images[i]); }
      if ListsImages(v, images) { assert v.items == Images(images).items; }
    }
  }

  /** Nothing started, nothing startable. */
  predicate StartsNothing(v: Json) {
    && Closed(v, {"state", "containers_created", "containers_started", "process_start_allowed",
                  "post_create_reinspection_required"})
    && Get(v, "state") == Lit("CREATED_ZERO_START")
    && Get(v, "containers_created") == Num(11)
    && Get(v, "containers_started") == Num(0)
    && Get(v, "process_start_allowed") == Bool(false)
    && Get(v, "post_create_reinspection_required") == Bool(true)
  }

  lemma PostconditionInFull(v: Json)
    ensures v == Of(POSTCONDITION) <==> StartsNothing(v)
  {
    PostconditionParts(v);
  }

  /** What every request says of itself. */
  lemma HeadersInFull(v: Json)
    ensures Holds(v, HEADERS) <==>
      && v.Obj?
      && K("status") in v.members && Get(v, "status") == Lit("VALIDATED_REQUEST_NOT_AUTHORITY")
      && K("authority") in v.members && Get(v, "authority") == Lit("NOT_AUTHORITY")
      && K("legacy_execution_accepted") in v.members && Get(v, "legacy_execution_accepted") == Bool(false)
      && K("operation_template_id") in v.members
      && Get(v, "operation_template_id") == Lit("CREATE_BOUND_REAL_OIDC_RESOURCES_ZERO_START_V1")
      && K("rollback_policy") in v.members && Get(v, "rollback_policy") == Lit("PRESERVE_POSTGRES_VOLUME")
  {
    hide K, Lit;
    assert HEADERS.Keys == {"status", "authority", "legacy_execution_accepted", "operation_template_id", "rollback_policy"};
  }

  lemma NamesHeld(v: Json)
    requires Closed(v, {"format", "status", "authority", "legacy_execution_accepted", "bindings", "images",
                        "expected_prestate", "operation_template_id", "expected_postcondition", "rollback_policy"})
    ensures K("format") in v.members && K("status") in v.members && K("authority") in v.members
    ensures K("legacy_execution_accepted") in v.members && K("operation_template_id") in v.members
    ensures K("rollback_policy") in v.members && K("bindings") in v.members && K("images") in v.members
    ensures K("expected_prestate") in v.members && K("expected_postcondition") in v.members
  {
    hide K;
  }

  lemma PartsInFull(v: Json, f: Fields)
    requires v.Obj? && Keys(PART_NAMES) <= v.members.Keys
    ensures K("bindings") in v.members && K("images") in v.members
    ensures K("expected_prestate") in v.members && K("expected_postcondition") in v.members
    ensures HoldsParts(v, f) <==>
      && Binds(Get(v, "bindings"), f)
      && ListsImages(Get(v, "images"), f.images)
      && AwaitsAll(Get(v, "expected_prestate"), f.project)
      && StartsNothing(Get(v, "expected_postcondition"))
  {
    hide Of, Bindings, Images, Prestate, POSTCONDITION, K, Binds, ListsImages, AwaitsAll, StartsNothing;
    BindingsInFull(Get(v, "bindings"), f);
    ImagesInFull(Get(v, "images"), f.images);
    PrestateInFull(Get(v, "expected_prestate"), f.project);
    PostconditionInFull(Get(v, "expected_postcondition"));
  }

  /** The whole request: its ten members, each with the one value it may have beside the fields. */
  predicate Requests(v: Json, f: Fields) {
    && Closed(v, {"format", "status", "authority", "legacy_execution_accepted", "bindings", "images",
                  "expected_prestate", "operation_template_id", "expected_postcondition", "rollback_policy"})
    && Get(v, "format") == Lit("desire-real-oidc-broker-create-intent-v1")
    && Get(v, "status") == Lit("VALIDATED_REQUEST_NOT_AUTHORITY")
    && Get(v, "authority") == Lit("NOT_AUTHORITY")
    && Get(v, "legacy_execution_accepted") == Bool(false)
    && Get(v, "operation_template_id") == Lit("CREATE_BOUND_REAL_OIDC_RESOURCES_ZERO_START_V1")
    && Get(v, "rollback_policy") == Lit("PRESERVE_POSTGRES_VOLUME")
    && Binds(Get(v, "bindings"), f)
    && ListsImages(Get(v, "images"), f.images)
    && AwaitsAll(Get(v, "expected_prestate"), f.project)
    && StartsNothing(Get(v, "expected_postcondition"))
  }

  /** The built documents are the requests. */
  lemma RequestInFull(v: Json, f: Fields)
    ensures v == Build(f) <==> Requests(v, f)
  {
    RootParts(v, f);
    assert ROOT_NAMES == {
      "format", "status", "authority", "legacy_execution_accepted", "bindings", "images",
      "expected_prestate", "operation_template_id", "expected_postcondition", "rollback_policy"};
    if Closed(v, ROOT_NAMES) {
      NamesHeld(v);
      RootHasParts(v);
      HeadersInFull(v);
      PartsInFull(v, f);
    }
    hide Build, Lit, K, Binds, ListsImages, AwaitsAll, StartsNothing, HoldsParts, Holds, HEADERS, Closed, Keys;
  }

  // --------------------------------------------------------------------------------------------
  // The fields
  // --------------------------------------------------------------------------------------------

  /** A prefix and one to forty lower-case letters, digits and dashes, no dash at either end. */
  lemma ProjectInFull(s: Str)
    ensures IsProject(s) <==>
      && 18 <= |s| <= 57 && s[..17] == K("desire-real-oidc-")
      && (forall i :: 17 <= i < |s| ==> 0x61 <= s[i] <= 0x7a || 0x30 <= s[i] <= 0x39 || s[i] == 0x2d)
      && s[17] != 0x2d && s[|s| - 1] != 0x2d
  {
    var prefix := K("desire-real-oidc-");
    assert |prefix| == 17;
    if |s| >= 17 {
      assert prefix <= s <==> s[..17] == prefix;
      assert forall i :: 17 <= i < |s| ==> s[17..][i - 17] == s[i];
      assert forall i :: 0 <= i < |s[17..]| ==> s[17..][i] == s[i + 17];
    }
  }

  /** Sixty-four lower-case hexadecimal digits. */
  lemma Sha256InFull(s: Str)
    ensures IsSha256(s) <==>
      |s| == 64 && forall i :: 0 <= i < 64 ==> 0x30 <= s[i] <= 0x39 || 0x61 <= s[i] <= 0x66
  {
  }

  lemma ImageIdInFull(s: Str)
    ensures IsImageId(s) <==>
      && |s| == 71 && s[..7] == K("sha256:")
      && forall i :: 7 <= i < 71 ==> 0x30 <= s[i] <= 0x39 || 0x61 <= s[i] <= 0x66
  {
    if |s| == 71 {
      assert K("sha256:") <= s <==> s[..7] == K("sha256:");
      assert forall i :: 7 <= i < 71 ==> s[7..][i - 7] == s[i];
      assert forall i :: 0 <= i < 64 ==> s[7..][i] == s[i + 7];
    }
  }

  /** At most 512 letters, digits and . _ / : @ -, a letter or digit first. */
  lemma ReferenceInFull(s: Str)
    ensures IsReference(s) <==>
      && 1 <= |s| <= 512
      && (0x30 <= s[0] <= 0x39 || 0x41 <= s[0] <= 0x5a || 0x61 <= s[0] <= 0x7a)
      && forall i :: 0 <= i < |s| ==>
        || 0x30 <= s[i] <= 0x39 || 0x41 <= s[i] <= 0x5a || 0x61 <= s[i] <= 0x7a
        || s[i] == 0x2e || s[i] == 0x5f || s[i] == 0x2f || s[i] == 0x3a || s[i] == 0x40 || s[i] == 0x2d
  {
  }

  /** A project, two digests, two positive 63-bit numbers, and five images in strictly ascending order of
      their references, no identifier twice. */
  lemma FieldsInFull(f: Fields)
    ensures Valid(f) <==>
      && IsProject(f.project) && IsSha256(f.snapshot) && IsSha256(f.compose)
      && 0 < f.device <= 9_223_372_036_854_775_807 && 0 < f.inode <= 9_223_372_036_854_775_807
      && |f.images| == 5
      && (forall i :: 0 <= i < 5 ==> IsReference(f.images[i].0) && IsImageId(f.images[i].1))
      && (forall i, j :: 0 <= i < j < 5 ==> Less(f.images[i].0, f.images[j].0) && f.images[i].1 != f.images[j].1)
  {
    hide IsProject, IsSha256, IsReference, IsImageId, Less;
  }
}
