/** Taking in a create intent: the steps of the trusted executor's parser, each deciding whether its part is
    that of a built document. */
module ExecutorIngress {
  import opened Prelude
  import opened CanonicalJson
  import opened CreateIntent

  // --------------------------------------------------------------------------------------------
  // What each part of a built document holds, and the other way round
  // --------------------------------------------------------------------------------------------

  lemma NamesOf(v: Json, fields: map<string, Json>)
    ensures v == Of(fields) <==> Closed(v, fields.Keys) && forall n <- fields :: Get(v, n) == fields[n]
  {
    HasIsOf(v, fields);
  }

  lemma AbsentParts(v: Json, name: Str)
    ensures v == Of(Absent(name)) <==>
      Closed(v, {"name", "prestate"}) && Get(v, "name") == Text(name) && Get(v, "prestate") == Lit("ABSENT")
  {
    hide Lit, Of, Has;
    NamesOf(v, Absent(name));
    assert Absent(name).Keys == {"name", "prestate"};
  }

  lemma ManifestParts(v: Json, f: Fields)
    ensures v == Of(Manifest(f)) <==>
      && Closed(v, {"sha256", "device", "inode"})
      && Get(v, "sha256") == Text(f.snapshot)
      && Get(v, "device") == Num(f.device)
      && Get(v, "inode") == Num(f.inode)
  {
    hide Of, Has;
    NamesOf(v, Manifest(f));
    assert Manifest(f).Keys == {"sha256", "device", "inode"};
  }

  const BINDING_NAMES := {"project", "snapshot_sha256", "snapshot_manifest", "compose_sha256"}

  lemma BindingsParts(v: Json, f: Fields)
    ensures v == Of(Bindings(f)) <==>
      && Closed(v, BINDING_NAMES)
      && Get(v, "project") == Text(f.project)
      && Get(v, "snapshot_sha256") == Text(f.snapshot)
      && Get(v, "snapshot_manifest") == Of(Manifest(f))
      && Get(v, "compose_sha256") == Text(f.compose)
  {
    hide Of, Has, Manifest;
    NamesOf(v, Bindings(f));
    assert Bindings(f).Keys == BINDING_NAMES;
  }

  lemma ImageParts(v: Json, image: (Str, Str))
    ensures v == Of(Image(image)) <==>
      Closed(v, {"reference", "id"}) && Get(v, "reference") == Text(image.0) && Get(v, "id") == Text(image.1)
  {
    hide Of, Has;
    NamesOf(v, Image(image));
    assert Image(image).Keys == {"reference", "id"};
  }

  lemma PrestateParts(v: Json, project: Str)
    ensures v == Of(Prestate(project)) <==>
      && Closed(v, {"containers", "networks", "postgres_volume"})
      && Get(v, "containers") == Of(Resources(project, "-", SERVICES, "-1"))
      && Get(v, "networks") == Of(Resources(project, "_", NETWORKS, ""))
      && Get(v, "postgres_volume") == Of(Absent(project + K("_postgres-data")))
  {
    hide Of, Has, Resources, Absent, K;
    NamesOf(v, Prestate(project));
    assert Prestate(project).Keys == {"containers", "networks", "postgres_volume"};
  }

  const POSTCONDITION_NAMES := {
    "state", "containers_created", "containers_started", "process_start_allowed", "post_create_reinspection_required"}

  lemma PostconditionParts(v: Json)
    ensures v == Of(POSTCONDITION) <==>
      && Closed(v, POSTCONDITION_NAMES)
      && Get(v, "state") == Lit("CREATED_ZERO_START")
      && Get(v, "containers_created") == Num(11)
      && Get(v, "containers_started") == Num(0)
      && Get(v, "process_start_allowed") == Bool(false)
      && Get(v, "post_create_reinspection_required") == Bool(true)
  {
    hide Of, Has, Lit;
    NamesOf(v, POSTCONDITION);
    assert POSTCONDITION.Keys == POSTCONDITION_NAMES;
  }

  const ROOT_NAMES := {
    "format", "status", "authority", "legacy_execution_accepted", "bindings", "images", "expected_prestate",
    "operation_template_id", "expected_postcondition", "rollback_policy"}

  predicate Holds(v: Json, fields: map<string, Json>) {
    v.Obj? && forall n <- fields :: K(n) in v.members && Get(v, n) == fields[n]
  }

  const PART_NAMES := {"bindings", "images", "expected_prestate", "expected_postcondition"}

  predicate HoldsParts(v: Json, f: Fields) {
    && v.Obj?
    && Keys(PART_NAMES) <= v.members.Keys
    && Get(v, "bindings") == Of(Bindings(f))
    && Get(v, "images") == Images(f.images)
    && Get(v, "expected_prestate") == Of(Prestate(f.project))
    && Get(v, "expected_postcondition") == Of(POSTCONDITION)
  }

  lemma PartsHeld(v: Json, f: Fields)
    ensures Parts(f).Keys == PART_NAMES
    ensures Holds(v, Parts(f)) <==> HoldsParts(v, f)
  {
    hide Of, Bindings, Images, Prestate, POSTCONDITION, Lit, K;
  }

  lemma NamesDisjoint()
    ensures HEADERS.Keys !! PART_NAMES && "format" !in HEADERS && "format" !in PART_NAMES
    ensures HEADERS.Keys + PART_NAMES + {"format"} == ROOT_NAMES
  {
    hide Lit;
  }

  lemma MergeHolds(v: Json, a: map<string, Json>, b: map<string, Json>, name: string, x: Json)
    requires a.Keys !! b.Keys && name !in a && name !in b
    ensures v == Of((a + b)[name := x]) <==>
      Closed(v, a.Keys + b.Keys + {name}) && Holds(v, a) && Holds(v, b) && Get(v, name) == x
  {
    var all := (a + b)[name := x];
    NamesOf(v, all);
    assert all.Keys == a.Keys + b.Keys + {name};
    hide Of, Has, K;
    if v == Of(all) {
      forall n <- a ensures K(n) in v.members && Get(v, n) == a[n] { assert n in all && all[n] == a[n]; }
      forall n <- b ensures K(n) in v.members && Get(v, n) == b[n] { assert n in all && all[n] == b[n]; }
      assert all[name] == x;
    }
  }

  predicate HoldsRoot(v: Json, f: Fields) {
    Closed(v, ROOT_NAMES) && Holds(v, HEADERS) && HoldsParts(v, f) && Get(v, "format") == Lit(FORMAT)
  }

  lemma RootParts(v: Json, f: Fields)
    ensures v == Build(f) <==> HoldsRoot(v, f)
  {
    PartsHeld(v, f);
    NamesDisjoint();
    hide Of, Lit, HEADERS, Parts, HoldsParts, Holds;
    MergeHolds(v, HEADERS, Parts(f), "format", Lit(FORMAT));
  }

  // --------------------------------------------------------------------------------------------
  // Validation
  // --------------------------------------------------------------------------------------------

  function Name(project: Str, joint: string, name: string, suffix: string): Str {
    project + K(joint) + K(name) + K(suffix)
  }

  method ValidateResourceMap(value: Json, project: Str, joint: string, names: seq<string>, suffix: string)
      returns (r: Option<seq<(string, Str)>>)
    ensures r.Some? <==> value == Of(Resources(project, joint, names, suffix))
    ensures r.Some? ==> |r.value| == |names|
    ensures r.Some? ==> forall i :: 0 <= i < |names| ==> r.value[i] == (names[i], Name(project, joint, names[i], suffix))
  {
    hide Of, Has, Absent, Lit;
    ghost var fields := Resources(project, joint, names, suffix);
    NamesOf(value, fields);
    var all := set n <- names;
    assert fields.Keys == all;
    if !Closed(value, all) { return None; }
    var result: seq<(string, Str)> := [];
    var i := 0;
    while i < |names|
      invariant 0 <= i <= |names| && |result| == i
      invariant forall j :: 0 <= j < i ==> result[j] == (names[j], Name(project, joint, names[j], suffix))
      invariant forall j :: 0 <= j < i ==> Get(value, names[j]) == fields[names[j]]
    {
      var item := Get(value, names[i]);
      var expected := Name(project, joint, names[i], suffix);
      AbsentParts(item, expected);
      assert names[i] in fields;
      if !Closed(item, {"name", "prestate"}) { return None; }
      if Get(item, "name") != Text(expected) || Get(item, "prestate") != Lit("ABSENT") { return None; }
      result := result + [(names[i], expected)];
      i := i + 1;
    }
    return Some(result);
  }

  function Distinct(s: seq<Str>): set<Str> { set i | 0 <= i < |s| :: s[i] }

  /** Counting the values tells whether any repeats. */
  lemma {:induction false} CountTellsRepeats(s: seq<Str>)
    ensures |Distinct(s)| <= |s|
    ensures |Distinct(s)| == |s| <==> forall i, j :: 0 <= i < j < |s| ==> s[i] != s[j]
  {
    if s != [] {
      var n := |s| - 1;
      CountTellsRepeats(s[..n]);
      assert Distinct(s) == Distinct(s[..n]) + {s[n]};
    }
  }

  lemma {:induction false} AdjacentIsEnough(s: seq<Str>, i: nat, j: nat)
    requires i < j < |s| && forall a :: 0 <= a < |s| - 1 ==> Less(s[a], s[a + 1])
    ensures Less(s[i], s[j])
    decreases j
  {
    if i < j - 1 {
      AdjacentIsEnough(s, i, j - 1);
      LessTransitive(s[i], s[j - 1], s[j]);
    }
  }

  /** Sorted without repeats is strictly increasing. */
  lemma SortedDistinct(s: seq<Str>)
    requires forall a :: 0 <= a < |s| - 1 ==> !Less(s[a + 1], s[a])
    requires forall i, j :: 0 <= i < j < |s| ==> s[i] != s[j]
    ensures forall i, j :: 0 <= i < j < |s| ==> Less(s[i], s[j])
  {
    forall a | 0 <= a < |s| - 1 ensures Less(s[a], s[a + 1]) { LessTotal(s[a], s[a + 1]); }
    forall i, j | 0 <= i < j < |s| ensures Less(s[i], s[j]) { AdjacentIsEnough(s, i, j); }
  }

  lemma IncreasingIsSorted(s: seq<Str>)
    requires forall i, j :: 0 <= i < j < |s| ==> Less(s[i], s[j])
    ensures forall a :: 0 <= a < |s| - 1 ==> !Less(s[a + 1], s[a])
    ensures forall i, j :: 0 <= i < j < |s| ==> s[i] != s[j]
  {
    forall i, j | 0 <= i < j < |s| ensures s[i] != s[j] && !Less(s[j], s[i]) { LessTotal(s[i], s[j]); }
  }

  method ImagesInOrder(references: seq<Str>, ids: seq<Str>) returns (ok: bool)
    requires |references| == |ids|
    ensures ok <==> forall i, j :: 0 <= i < j < |ids| ==> Less(references[i], references[j]) && ids[i] != ids[j]
  {
    hide Less;
    CountTellsRepeats(references);
    CountTellsRepeats(ids);
    ok := (forall a :: 0 <= a < |references| - 1 ==> !Less(references[a + 1], references[a]))
      && |Distinct(references)| == |references| && |Distinct(ids)| == |ids|;
    if ok {
      SortedDistinct(references);
    } else if forall i, j :: 0 <= i < j < |ids| ==> Less(references[i], references[j]) && ids[i] != ids[j] {
      IncreasingIsSorted(references);
    }
  }

  method ValidateImage(item: Json) returns (r: Option<(Str, Str)>)
    ensures r.Some? ==> item == Of(Image(r.value)) && IsReference(r.value.0) && IsImageId(r.value.1)
    ensures r.None? ==> forall a: (Str, Str) | IsReference(a.0) && IsImageId(a.1) :: item != Of(Image(a))
  {
    hide Of, Has, IsReference, IsImageId, Image;
    forall a | item == Of(Image(a))
      ensures Closed(item, {"reference", "id"}) && Get(item, "reference") == Text(a.0) && Get(item, "id") == Text(a.1)
    {
      ImageParts(item, a);
    }
    if !Closed(item, {"reference", "id"}) { return None; }
    var reference, identifier := Get(item, "reference"), Get(item, "id");
    if !reference.Text? || !IsReference(reference.s) || !identifier.Text? || !IsImageId(identifier.s) { return None; }
    ImageParts(item, (reference.s, identifier.s));
    return Some((reference.s, identifier.s));
  }

  method ValidateImages(value: Json) returns (r: Option<seq<(Str, Str)>>)
    ensures r.Some? ==> ValidImages(r.value) && value == Images(r.value)
    ensures r.None? ==> forall images | ValidImages(images) :: value != Images(images)
  {
    hide Of, Has, IsReference, IsImageId, Less, Image;
    if !value.Arr? || |value.items| != 5 { return None; }
    var images: seq<(Str, Str)> := [];
    var references, ids := [], [];
    var i := 0;
    while i < 5
      invariant 0 <= i <= 5 && |images| == |references| == |ids| == i
      invariant forall j :: 0 <= j < i ==> images[j] == (references[j], ids[j])
      invariant forall j :: 0 <= j < i ==> IsReference(references[j]) && IsImageId(ids[j])
      invariant forall j :: 0 <= j < i ==> value.items[j] == Of(Image(images[j]))
    {
      var image := ValidateImage(value.items[i]);
      if image.None? { return None; }
      images := images + [image.value];
      references := references + [image.value.0];
      ids := ids + [image.value.1];
      i := i + 1;
    }
    assert value == Images(images);
    forall all | value == Images(all) ensures all == images { ImagesDetermine(all, images); }
    var ok := ImagesInOrder(references, ids);
    return if ok then Some(images) else None;
  }

  lemma ImagesDetermine(a: seq<(Str, Str)>, b: seq<(Str, Str)>)
    requires Images(a) == Images(b)
    ensures a == b
  {
    hide Of, Has;
    assert |Images(a).items| == |Images(b).items|;
    forall i | 0 <= i < |a| ensures a[i] == b[i] {
      var item := Images(a).items[i];
      assert item == Images(b).items[i];
      ImageParts(item, a[i]);
      ImageParts(item, b[i]);
    }
  }

  predicate ValidBindings(f: Fields) {
    && IsProject(f.project) && IsSha256(f.snapshot) && IsSha256(f.compose)
    && IsDescriptor(f.device) && IsDescriptor(f.inode)
  }

  method ValidateBindings(value: Json) returns (r: Option<Fields>)
    ensures r.Some? ==> ValidBindings(r.value) && value == Of(Bindings(r.value)) && r.value.images == []
    ensures r.None? ==> forall f :: ValidBindings(f) ==> value != Of(Bindings(f))
  {
    hide Of, Has, IsProject, IsSha256, Bindings, Manifest, IsDescriptor;
    forall f | value == Of(Bindings(f))
      ensures Closed(value, BINDING_NAMES)
      ensures Get(value, "project") == Text(f.project) && Get(value, "snapshot_sha256") == Text(f.snapshot)
      ensures Get(value, "compose_sha256") == Text(f.compose)
      ensures Get(value, "snapshot_manifest") == Of(Manifest(f))
    {
      BindingsParts(value, f);
    }
    if !Closed(value, BINDING_NAMES) { return None; }
    var manifest := Get(value, "snapshot_manifest");
    forall f | manifest == Of(Manifest(f))
      ensures Closed(manifest, {"sha256", "device", "inode"}) && Get(manifest, "sha256") == Text(f.snapshot)
      ensures Get(manifest, "device") == Num(f.device) && Get(manifest, "inode") == Num(f.inode)
    {
      ManifestParts(manifest, f);
    }
    if !Closed(manifest, {"sha256", "device", "inode"}) { return None; }
    var project, snapshot := Get(value, "project"), Get(value, "snapshot_sha256");
    var digest, compose := Get(manifest, "sha256"), Get(value, "compose_sha256");
    if !snapshot.Text? || !IsSha256(snapshot.s) { return None; }
    if !digest.Text? || !IsSha256(digest.s) { return None; }
    if !compose.Text? || !IsSha256(compose.s) { return None; }
    if !project.Text? || !IsProject(project.s) || digest != snapshot { return None; }
    var device, inode := Get(manifest, "device"), Get(manifest, "inode");
    if !device.Num? || !IsDescriptor(device.n) || !inode.Num? || !IsDescriptor(inode.n) { return None; }
    var f := Fields(project.s, snapshot.s, compose.s, device.n, inode.n, []);
    ManifestParts(manifest, f);
    BindingsParts(value, f);
    return Some(f);
  }

  method ValidatePrestate(value: Json, project: Str) returns (ok: bool)
    ensures ok <==> value == Of(Prestate(project))
  {
    hide Of, Has, Prestate, Resources, Absent, K;
    PrestateParts(value, project);
    if !Closed(value, {"containers", "networks", "postgres_volume"}) { return false; }
    var containers := ValidateResourceMap(Get(value, "containers"), project, "-", SERVICES, "-1");
    var networks := ValidateResourceMap(Get(value, "networks"), project, "_", NETWORKS, "");
    return containers.Some? && networks.Some?
      && Get(value, "postgres_volume") == Of(Absent(project + K("_postgres-data")));
  }

  method ValidatePostcondition(value: Json) returns (ok: bool)
    ensures ok <==> value == Of(POSTCONDITION)
  {
    hide Of, Has, POSTCONDITION, K, Lit;
    PostconditionParts(value);
    return Closed(value, POSTCONDITION_NAMES)
      && Get(value, "state") == Lit("CREATED_ZERO_START")
      && Get(value, "containers_created") == Num(11)
      && Get(value, "containers_started") == Num(0)
      && Get(value, "process_start_allowed") == Bool(false)
      && Get(value, "post_create_reinspection_required") == Bool(true);
  }

  lemma BindingsIgnoreImages(f: Fields, images: seq<(Str, Str)>)
    ensures Of(Bindings(f.(images := images))) == Of(Bindings(f))
  {
    hide Of;
    assert Manifest(f.(images := images)) == Manifest(f);
  }

  lemma BindingsDetermine(f: Fields, g: Fields)
    requires Of(Bindings(f)) == Of(Bindings(g))
    ensures f == g.(images := f.images)
  {
    hide Of;
    var v := Of(Bindings(f));
    BindingsParts(v, f);
    BindingsParts(v, g);
    ManifestParts(Get(v, "snapshot_manifest"), f);
    ManifestParts(Get(v, "snapshot_manifest"), g);
  }

  method ValidateCreateIntent(document: Json) returns (r: Option<Fields>)
    ensures r.Some? ==> Valid(r.value) && document == Build(r.value)
    ensures r.None? ==> forall f | Valid(f) :: document != Build(f)
  {
    hide Of, Build, Bindings, Prestate, Images, POSTCONDITION, HEADERS, K, Lit, Valid, ValidImages, ValidBindings;
    forall f ensures document == Build(f) <==> HoldsRoot(document, f) {
      RootParts(document, f);
    }
    forall f | Valid(f) ensures ValidBindings(f) && ValidImages(f.images) {
      SplitValid(f);
    }
    if !Closed(document, ROOT_NAMES) { return None; }
    RootHasParts(document);
    var bindings := ValidateBindings(Get(document, "bindings"));
    if bindings.None? { return None; }
    if !Holds(document, HEADERS) || Get(document, "format") != Lit(FORMAT) { return None; }
    var images := ValidateImages(Get(document, "images"));
    if images.None? { return None; }
    var f := bindings.value.(images := images.value);
    BindingsIgnoreImages(bindings.value, images.value);
    forall g | HoldsParts(document, g) ensures f.project == g.project {
      BindingsDetermine(f, g);
    }
    var prestate := ValidatePrestate(Get(document, "expected_prestate"), f.project);
    if !prestate { return None; }
    var postcondition := ValidatePostcondition(Get(document, "expected_postcondition"));
    if !postcondition { return None; }
    SplitValid(f);
    assert ValidBindings(bindings.value);
    MergeValid(bindings.value, images.value);
    return Some(f);
  }

  lemma RootHasParts(document: Json)
    requires Closed(document, ROOT_NAMES)
    ensures Keys(PART_NAMES + {"format"}) <= document.members.Keys
  {
    NamesDisjoint();
    hide HEADERS;
  }

  lemma SplitValid(f: Fields)
    ensures Valid(f) <==> ValidBindings(f) && ValidImages(f.images)
  {
    hide IsProject, IsSha256, ValidImages, IsDescriptor;
  }

  lemma MergeValid(f: Fields, images: seq<(Str, Str)>)
    ensures ValidBindings(f.(images := images)) <==> ValidBindings(f)
  {
    hide IsProject, IsSha256, IsDescriptor;
  }
}
