/** Provisioning of the five workflow credentials: a directory of files and one database role
    that must agree, although they are two resources and no transaction spans both. */
module Provisioning {
  import opened Prelude
  import opened Faults

  type Bytes = seq<byte>

  datatype Name = SystemFile | DemandSelf | TrustDecision | DemandIdempotency | DemandPayloadHash | Other(leaf: nat)

  type Directory = map<Name, Bytes>

  const SOURCE_FILES := [DemandSelf, TrustDecision, DemandIdempotency, DemandPayloadHash]
  const CREDENTIAL_FILES := [SystemFile] + SOURCE_FILES
  const SECOND := 1_000_000
  const YEAR := 365 * 86_400 * SECOND

  datatype Role = Role(password: Option<Bytes>, scram: bool, validUntil: Option<int>)

  /** The two resources; the directory's entry is durable once its parent was synced. */
  datatype World = World(output: Option<Directory>, durable: bool, role: Role)

  const Pristine := World(None, false, Role(None, false, None))

  /** Everything one run is given or observes outside the two resources. */
  datatype Input = Input(
    source: Directory,
    adminPassword: Bytes,
    now: int,                // microseconds
    token: Bytes,            // freshly generated system password
    roleFactsValid: bool,    // admin preflight, catalogs and role attributes
    sourceLoginsWork: bool,  // demand_self and trust_decision accept their passwords
    canChangePassword: bool) // the adapter offers change_password

  datatype Code =
    | FileInvalid | RoleDrift | SourceDrift | PasswordUnmanaged | MaterialReused | LoginFailed
    | ExpiredOrInvalid | AdapterUnavailable | VerificationFailed | Interrupted

  datatype Outcome = Ready(reused: bool) | Failed(code: Code) | Died

  /** The operations a run depends on, in the order they took effect. */
  datatype Op =
    | Connect | LogIn(role: Name)
    | MakeStaging | SetMode | Create(name: Name) | WriteAndSync(name: Name) | SyncStaging | Rename | SyncParent
    | Begin | SetPassword | SetExpiry | Commit

  // --------------------------------------------------------------------------------------------
  // What the credentials have to satisfy
  // --------------------------------------------------------------------------------------------

  predicate IsKey(name: Name) {
    name == DemandIdempotency || name == DemandPayloadHash
  }

  predicate ValidSecret(name: Name, value: Bytes) {
    && 32 <= |value| <= 4096
    && (IsKey(name) ==> |value| <= 64)
    && forall k :: 0 <= k < |value| ==> value[k] < 128 && value[k] != 0 && value[k] != 10 && value[k] != 13
  }

  predicate ValidFiles(d: Directory, names: seq<Name>) {
    forall n <- names :: n in d && ValidSecret(n, d[n])
  }

  predicate Distinct(d: Directory, adminPassword: Bytes) {
    && (forall n <- d :: d[n] != adminPassword)
    && forall m, n :: m in d && n in d && m != n ==> d[m] != d[n]
  }

  function Names(files: seq<Name>): set<Name> {
    set n <- files
  }

  predicate SameSources(d: Directory, source: Directory) {
    forall n <- SOURCE_FILES :: n in d && n in source && d[n] == source[n]
  }

  /** The directory a first run would publish. */
  function Fresh(inp: Input): (d: Directory)
    requires ValidFiles(inp.source, SOURCE_FILES)
    ensures d.Keys == Names(CREDENTIAL_FILES) && SameSources(d, inp.source) && d[SystemFile] == inp.token
  {
    map n <- CREDENTIAL_FILES :: if n == SystemFile then inp.token else inp.source[n]
  }

  function Expiry(now: int): int {
    now - now % SECOND + YEAR
  }

  /** A year of 365 days from now, less the fraction of the second. */
  lemma ExpiryTells(now: int)
    ensures Expiry(now) <= now + 31_536_000_000_000 < Expiry(now) + 1_000_000
    ensures Expiry(now) % 1_000_000 == 0
    ensures Expiry(now) > now
  {
  }

  /** The two resources agree. */
  predicate Consistent(w: World) {
    && (w.output.Some? ==>
          w.output.value.Keys == Names(CREDENTIAL_FILES) && ValidFiles(w.output.value, CREDENTIAL_FILES))
    && (w.role.password.Some? ==>
          && w.output.Some? && SystemFile in w.output.value
          && w.output.value[SystemFile] == w.role.password.value
          && w.role.scram && w.role.validUntil.Some?)
  }

  lemma ConsistentTells(w: World)
    ensures Consistent(w) <==>
      && (w.role.password.Some? ==>
            && w.output.Some? && SystemFile in w.output.value && w.output.value[SystemFile] == w.role.password.value
            && w.role.scram && w.role.validUntil.Some?)
      && (w.output.Some? ==>
            && w.output.value.Keys == {SystemFile, DemandSelf, TrustDecision, DemandIdempotency, DemandPayloadHash}
            && forall n :: n in w.output.value ==> ValidSecret(n, w.output.value[n]))
  {
    NamesInFull();
  }

  /** What a run checks before it changes anything. */
  predicate Sound(w: World, inp: Input) {
    && ValidFiles(inp.source, SOURCE_FILES) && inp.roleFactsValid && inp.sourceLoginsWork
    && (if w.output.Some? then
          && w.output.value.Keys == Names(CREDENTIAL_FILES)
          && ValidFiles(w.output.value, CREDENTIAL_FILES)
          && SameSources(w.output.value, inp.source)
        else w.role.password.None?)
    && Distinct(Material(w, inp), inp.adminPassword)
  }

  /** The materials in use, or the ones to publish. */
  function Material(w: World, inp: Input): Directory
    requires ValidFiles(inp.source, SOURCE_FILES)
  {
    if w.output.Some? then w.output.value else Fresh(inp)
  }

  /** How a run ends that meets no fault. */
  function Verdict(w: World, inp: Input): Outcome {
    if !ValidFiles(inp.source, SOURCE_FILES) then Failed(FileInvalid)
    else if !inp.roleFactsValid then Failed(RoleDrift)
    else if w.output.Some? && !(w.output.value.Keys == Names(CREDENTIAL_FILES) && ValidFiles(w.output.value, CREDENTIAL_FILES))
    then Failed(FileInvalid)
    else if w.output.Some? && !SameSources(w.output.value, inp.source) then Failed(SourceDrift)
    else if w.output.None? && w.role.password.Some? then Failed(PasswordUnmanaged)
    else if !Distinct(Material(w, inp), inp.adminPassword) then Failed(MaterialReused)
    else if !inp.sourceLoginsWork then Failed(LoginFailed)
    else if w.role.password.None? then (if inp.canChangePassword then Ready(false) else Failed(AdapterUnavailable))
    else if !w.role.scram || w.role.validUntil.None? || w.role.validUntil.value <= inp.now then Failed(ExpiredOrInvalid)
    else if w.role.password.value != w.output.value[SystemFile] then Failed(LoginFailed)
    else Ready(true)
  }

  /** Exactly when a run that meets no fault reports READY. */
  predicate Acceptable(w: World, inp: Input) {
    && Sound(w, inp)
    && (if w.role.password.Some? then
          && w.role.scram && w.role.validUntil.Some? && w.role.validUntil.value > inp.now
          && w.role.password.value == w.output.value[SystemFile]
        else inp.canChangePassword)
  }

  /** The first thing that is not in order decides, and every refusal has exactly this reason. */
  lemma VerdictTells(w: World, inp: Input)
    ensures Verdict(w, inp).Ready? <==> Acceptable(w, inp)
    ensures Verdict(w, inp) == Failed(RoleDrift) <==>
      ValidFiles(inp.source, [DemandSelf, TrustDecision, DemandIdempotency, DemandPayloadHash]) && !inp.roleFactsValid
    ensures Verdict(w, inp) == Failed(FileInvalid) <==>
      || !ValidFiles(inp.source, [DemandSelf, TrustDecision, DemandIdempotency, DemandPayloadHash])
      || (inp.roleFactsValid && w.output.Some?
          && (w.output.value.Keys != {SystemFile, DemandSelf, TrustDecision, DemandIdempotency, DemandPayloadHash}
              || !ValidFiles(w.output.value, [SystemFile, DemandSelf, TrustDecision, DemandIdempotency, DemandPayloadHash])))
  {
    NamesInFull();
    hide Distinct, ValidFiles, SameSources, Fresh, SOURCE_FILES, CREDENTIAL_FILES, Names;
  }

  lemma DriftVerdictTells(w: World, inp: Input)
    requires Verdict(w, inp) !in {Failed(FileInvalid), Failed(RoleDrift)}
    ensures Verdict(w, inp) == Failed(PasswordUnmanaged) <==> w.output.None? && w.role.password.Some?
    ensures Verdict(w, inp) == Failed(SourceDrift) <==>
      && w.output.Some?
      && exists n :: n in w.output.value && n in inp.source && n != SystemFile && w.output.value[n] != inp.source[n]
  {
    if w.output.Some? { DriftTells(w.output.value, inp.source); }
    hide Distinct, ValidFiles, SameSources, Fresh, SOURCE_FILES, CREDENTIAL_FILES, Names;
  }

  lemma ReuseVerdictTells(w: World, inp: Input)
    requires Verdict(w, inp) !in {Failed(FileInvalid), Failed(RoleDrift), Failed(PasswordUnmanaged), Failed(SourceDrift)}
    ensures Verdict(w, inp) == Failed(MaterialReused) <==>
      !Distinct(if w.output.Some? then w.output.value else Fresh(inp), inp.adminPassword)
    ensures Verdict(w, inp) != Failed(MaterialReused) && !inp.sourceLoginsWork ==> Verdict(w, inp) == Failed(LoginFailed)
  {
    hide Distinct, ValidFiles, SameSources, Fresh, SOURCE_FILES, CREDENTIAL_FILES, Names;
  }

  lemma LateVerdictTells(w: World, inp: Input)
    ensures Verdict(w, inp).Failed? ==> Verdict(w, inp).code !in {VerificationFailed, Interrupted}
    ensures Verdict(w, inp) == Failed(AdapterUnavailable) ==> w.role.password.None? && !inp.canChangePassword
    ensures Verdict(w, inp) == Failed(ExpiredOrInvalid) ==>
      w.role.password.Some? && (!w.role.scram || w.role.validUntil.None? || w.role.validUntil.value <= inp.now)
    ensures Verdict(w, inp) == Failed(LoginFailed) && inp.sourceLoginsWork ==>
      && w.output.Some? && SystemFile in w.output.value
      && w.role.password.Some? && w.role.password.value != w.output.value[SystemFile]
      && w.role.scram && w.role.validUntil.Some? && w.role.validUntil.value > inp.now
    ensures Verdict(w, inp).Ready? ==>
      && inp.sourceLoginsWork && Verdict(w, inp).reused == w.role.password.Some?
      && (w.role.password.None? ==> inp.canChangePassword)
      && (w.role.password.Some? ==>
            && w.output.Some? && SystemFile in w.output.value && w.role.password.value == w.output.value[SystemFile]
            && w.role.scram && w.role.validUntil.Some? && w.role.validUntil.value > inp.now)
  {
    NamesInFull();
    hide Distinct, ValidFiles, SameSources, Fresh, SOURCE_FILES, CREDENTIAL_FILES, Names;
  }

  lemma NamesInFull()
    ensures SOURCE_FILES == [DemandSelf, TrustDecision, DemandIdempotency, DemandPayloadHash]
    ensures CREDENTIAL_FILES == [SystemFile, DemandSelf, TrustDecision, DemandIdempotency, DemandPayloadHash]
    ensures Names(CREDENTIAL_FILES) == {SystemFile, DemandSelf, TrustDecision, DemandIdempotency, DemandPayloadHash}
  {
  }

  lemma DriftTells(d: Directory, source: Directory)
    requires ValidFiles(source, SOURCE_FILES) && d.Keys == Names(CREDENTIAL_FILES)
    ensures SameSources(d, source) <==> !exists n :: n in d && n in source && n != SystemFile && d[n] != source[n]
  {
    NamesInFull();
  }

  lemma SoundVerdict(w: World, inp: Input)
    requires Sound(w, inp)
    ensures Acceptable(w, inp) <==> Verdict(w, inp).Ready?
    ensures w.role.password.None? ==>
      Verdict(w, inp) == if inp.canChangePassword then Ready(false) else Failed(AdapterUnavailable)
    ensures w.role.password.Some? ==> w.output.Some? && SystemFile in w.output.value
    ensures w.role.password.Some? ==>
      (Verdict(w, inp) ==
        if !w.role.scram || w.role.validUntil.None? || w.role.validUntil.value <= inp.now then Failed(ExpiredOrInvalid)
        else if w.role.password.value != w.output.value[SystemFile] then Failed(LoginFailed)
        else Ready(true))
  {
    NamesInFull();
    hide Distinct, ValidFiles, SameSources, Fresh, SOURCE_FILES, CREDENTIAL_FILES, Names;
  }

  /** What the checks establish. */
  lemma SoundTells(w: World, inp: Input, d: Directory)
    requires Sound(w, inp) && d == Material(w, inp)
    ensures inp.roleFactsValid && inp.sourceLoginsWork
    ensures ValidFiles(inp.source, [DemandSelf, TrustDecision, DemandIdempotency, DemandPayloadHash])
    ensures d.Keys == {SystemFile, DemandSelf, TrustDecision, DemandIdempotency, DemandPayloadHash} == Names(CREDENTIAL_FILES)
    ensures forall n :: n in {DemandSelf, TrustDecision, DemandIdempotency, DemandPayloadHash} ==>
      n in inp.source && d[n] == inp.source[n]
    ensures Distinct(d, inp.adminPassword)
    ensures if w.output.Some? then d == w.output.value else w.role.password.None? && d[SystemFile] == inp.token
  {
    NamesInFull();
  }

  /** Everything a run may do to the two resources, wherever it fails, dies or loses an answer: from a
      state that is not acceptable nothing. */
  predicate RunEffect(w: World, v: World, inp: Input) {
    || v == w
    || (&& Acceptable(w, inp) && w.role.password.None? && v.output.Some?
        && v.output == (if w.output.Some? then w.output else Some(Fresh(inp)))
        && (w.output.Some? ==> v.durable == w.durable)
        && (w.output.None? && v.role != w.role ==> v.durable)
        && (v.role == w.role
            || v.role == Role(Some(v.output.value[SystemFile]), true, Some(Expiry(inp.now)))))
  }

  // --------------------------------------------------------------------------------------------
  // One run
  // --------------------------------------------------------------------------------------------

  /** The materials in the order of their files. */
  function Values(material: Directory): (values: seq<Bytes>)
    requires material.Keys == Names(CREDENTIAL_FILES)
  {
    [material[SystemFile], material[DemandSelf], material[TrustDecision],
     material[DemandIdempotency], material[DemandPayloadHash]]
  }

  lemma DistinctInOrder(material: Directory, adminPassword: Bytes)
    requires material.Keys == Names(CREDENTIAL_FILES)
    ensures {SystemFile, DemandSelf, TrustDecision, DemandIdempotency, DemandPayloadHash} <= material.Keys
    ensures Values(material) == [material[SystemFile], material[DemandSelf], material[TrustDecision],
                                 material[DemandIdempotency], material[DemandPayloadHash]]
    ensures Distinct(material, adminPassword) <==>
      && (forall i :: 0 <= i < |Values(material)| ==> Values(material)[i] != adminPassword)
      && (forall i, j :: 0 <= i < j < |Values(material)| ==> Values(material)[i] != Values(material)[j])
  {
    NamesInFull();
    var names, values := CREDENTIAL_FILES, Values(material);
    assert forall i, j :: 0 <= i < j < |names| ==> names[i] != names[j];
    assert forall i :: 0 <= i < |names| ==> names[i] in material && values[i] == material[names[i]];
    assert |values| == |names|;
    hide Values, CREDENTIAL_FILES, Names;
    forall n | n in material ensures exists i :: 0 <= i < |names| && names[i] == n {
      assert n in names;
    }
  }

  /** Pairwise comparison of the material with itself and with the administrator's password. */
  method MaterialsDistinct(material: Directory, adminPassword: Bytes) returns (ok: bool)
    requires material.Keys == Names(CREDENTIAL_FILES)
    ensures ok <==> Distinct(material, adminPassword)
  {
    hide Distinct, Values, Names, CREDENTIAL_FILES;
    DistinctInOrder(material, adminPassword);
    var values := Values(material);
    var index := 0;
    while index < |values|
      invariant 0 <= index <= |values|
      invariant forall i :: 0 <= i < index ==> values[i] != adminPassword
      invariant forall i, j :: 0 <= i < j < index ==> values[i] != values[j]
    {
      if values[index] == adminPassword { return false; }
      var prior := 0;
      while prior < index
        invariant 0 <= prior <= index
        invariant forall i :: 0 <= i < prior ==> values[i] != values[index]
      {
        if values[prior] == values[index] { return false; }
        prior := prior + 1;
      }
      index := index + 1;
    }
    ok := true;
  }

  /** Reads the named files: each is there, is 32 to 4096 bytes of ASCII (a key at most 64), and holds
      no NUL, line feed or carriage return. */
  method FilesReadable(d: Directory, names: seq<Name>) returns (ok: bool)
    ensures ok <==> ValidFiles(d, names)
    ensures ok <==> forall i :: 0 <= i < |names| ==>
      && names[i] in d && 32 <= |d[names[i]]| <= 4096
      && (names[i] == DemandIdempotency || names[i] == DemandPayloadHash ==> |d[names[i]]| <= 64)
      && forall k :: 0 <= k < |d[names[i]]| ==> 1 <= d[names[i]][k] <= 127 && d[names[i]][k] !in {10, 13}
  {
    var index := 0;
    while index < |names|
      invariant 0 <= index <= |names|
      invariant forall i :: 0 <= i < index ==> names[i] in d && ValidSecret(names[i], d[names[i]])
    {
      if names[index] !in d { return false; }
      var value := d[names[index]];
      if !ValidSecret(names[index], value) { return false; }
      index := index + 1;
    }
    return true;
  }

  /** What publishing the five files consists of: every file and the staging directory are written
      back before the rename, and the parent directory after it. */
  const PUBLISHING := [
    MakeStaging, SetMode,
    Create(SystemFile), WriteAndSync(SystemFile),
    Create(DemandSelf), WriteAndSync(DemandSelf),
    Create(TrustDecision), WriteAndSync(TrustDecision),
    Create(DemandIdempotency), WriteAndSync(DemandIdempotency),
    Create(DemandPayloadHash), WriteAndSync(DemandPayloadHash),
    SyncStaging, Rename, SyncParent]

  lemma PublishingInOrder()
    ensures |PUBLISHING| == 15 && PUBLISHING[0] == MakeStaging && PUBLISHING[1] == SetMode
    ensures |CREDENTIAL_FILES| == 5
    ensures PUBLISHING[12] == SyncStaging && PUBLISHING[13] == Rename && PUBLISHING[14] == SyncParent
  {
  }

  lemma FileInOrder(index: nat)
    requires index < |CREDENTIAL_FILES|
    ensures |PUBLISHING| == 15 && PUBLISHING[2 + 2 * index] == Create(CREDENTIAL_FILES[index])
    ensures PUBLISHING[3 + 2 * index] == WriteAndSync(CREDENTIAL_FILES[index])
  {
    assert index in {0, 1, 2, 3, 4};
  }

  lemma NamesNext(files: seq<Name>, index: nat)
    requires index < |files|
    ensures Names(files[..index + 1]) == Names(files[..index]) + {files[index]}
    ensures files[index] in Names(files)
  {
    assert files[..index + 1] == files[..index] + [files[index]];
  }

  /** One more file is in the staging directory. */
  lemma FileStaged(index: nat, staging: Directory, materials: Directory)
    requires index < |CREDENTIAL_FILES| && Staged(index, staging, materials)
    ensures CREDENTIAL_FILES[index] in materials
    ensures Staged(index + 1, staging[CREDENTIAL_FILES[index] := materials[CREDENTIAL_FILES[index]]], materials)
  {
    hide CREDENTIAL_FILES, Names;
    NamesNext(CREDENTIAL_FILES, index);
  }

  predicate Staged(index: nat, staging: Directory, materials: Directory) {
    && index <= |CREDENTIAL_FILES| && materials.Keys == Names(CREDENTIAL_FILES)
    && staging.Keys == Names(CREDENTIAL_FILES[..index])
    && forall n :: n in staging ==> n in materials && staging[n] == materials[n]
  }

  lemma NoneStaged(materials: Directory)
    requires materials.Keys == Names(CREDENTIAL_FILES)
    ensures Staged(0, map[], materials)
  {
  }

  lemma AllStaged(staging: Directory, materials: Directory)
    requires Staged(|CREDENTIAL_FILES|, staging, materials)
    ensures staging == materials
  {
    assert CREDENTIAL_FILES[..|CREDENTIAL_FILES|] == CREDENTIAL_FILES;
  }

  const COMMITTING := [Begin, SetPassword, SetExpiry, Commit]

  /** Everything a run does, in order, when it is not kept from it. */
  function Plan(published: bool, managed: bool): seq<Op> {
    [Connect, LogIn(DemandSelf), LogIn(TrustDecision)]
    + (if managed then [] else (if published then [] else PUBLISHING) + COMMITTING)
    + [LogIn(SystemFile)]
  }

  lemma PlanBegins(published: bool, managed: bool)
    ensures var plan := Plan(published, managed);
      && |plan| > 2 && plan[0] == Connect && plan[1] == LogIn(DemandSelf) && plan[2] == LogIn(TrustDecision)
      && (managed ==> |plan| == 4 && plan[3] == LogIn(SystemFile))
  {
  }

  lemma PlanInOrder(published: bool, managed: bool)
    ensures var plan := Plan(published, managed);
      && |plan| == 4 + (if managed then 0 else if published then 4 else 19)
      && plan[|plan| - 1] == LogIn(SystemFile)
      && (!managed && !published ==> plan[3..18] == PUBLISHING && plan[18..22] == COMMITTING)
      && (!managed && published ==> plan[3..7] == COMMITTING)
      && |PUBLISHING| == 15 && |COMMITTING| == 4
  {
  }

  lemma NothingIsEffect(w: World, inp: Input)
    ensures RunEffect(w, w, inp)
  {
  }

  lemma ChangeIsEffect(w: World, v: World, inp: Input)
    requires Sound(w, inp) && w.role.password.None? && inp.canChangePassword
    requires v.output == w.output || v.output == Some(Material(w, inp))
    requires v.output == w.output ==> v.durable == w.durable
    requires v.role == w.role
      || (v.role == Role(Some(Material(w, inp)[SystemFile]), true, Some(Expiry(inp.now)))
          && v.output == Some(Material(w, inp)))
    requires v.role != w.role && w.output.None? ==> v.durable
    ensures RunEffect(w, v, inp)
  {
    hide Distinct, ValidFiles, SameSources, Names;
  }

  /** One directory was left beside those there were. */
  predicate OneStray(before: seq<Directory>, after: seq<Directory>) {
    |after| == |before| + 1 && after[..|before|] == before
  }

  /** The same directories, but for what is in the newest one. */
  predicate SameBefore(before: seq<Directory>, after: seq<Directory>) {
    |after| == |before| > 0 && after[..|before| - 1] == before[..|before| - 1]
  }

  function Newest(stagings: seq<Directory>): Directory
    requires stagings != []
  {
    stagings[|stagings| - 1]
  }

  lemma SameThroughout(a: seq<Directory>, b: seq<Directory>, c: seq<Directory>)
    ensures a != [] ==> SameBefore(a, a)
    ensures SameBefore(a, b) && SameBefore(b, c) ==> SameBefore(a, c)
  {
  }

  class Deployment {
    var output: Option<Directory>
    var durable: bool
    var role: Role
    var stagings: seq<Directory>  // the private directories that are there beside it
    ghost var steps: seq<Op>      // what took effect, over all runs
    ghost var faults: nat         // how often an operation did not return normally

    constructor ()
      ensures Now() == Pristine && stagings == []
    {
      output := None;
      durable := false;
      role := Pristine.role;
      stagings := [];
      steps, faults := [], 0;
    }

    function Now(): World
      reads this
    {
      World(output, durable, role)
    }

    /** The next operation of the plan begun at `origin`. */
    method Do(op: Op, faultless: bool, ghost origin: seq<Op>, ghost plan: seq<Op>) returns (reply: Reply)
      requires Along(origin, steps, plan) && |steps| < |origin| + |plan| && plan[|steps| - |origin|] == op
      modifies this`steps, this`faults
      ensures faultless ==> reply == Done
      ensures steps == if reply == Done then old(steps) + [op] else old(steps)
      ensures faults == if reply == Done then old(faults) else old(faults) + 1
      ensures Along(origin, steps, plan)
    {
      reply := Attempt(faultless);
      if reply == Done {
        NextDone(origin, steps, plan);
        steps := steps + [op];
      } else {
        faults := faults + 1;
      }
    }

    /** An operation that takes something back. */
    method Undo(faultless: bool) returns (reply: Reply)
      modifies this`faults
      ensures faultless ==> reply == Done
      ensures faults == if reply == Done then old(faults) else old(faults) + 1
    {
      reply := Attempt(faultless);
      if reply != Done { faults := faults + 1; }
    }

    /** Creates one file and writes and syncs its content. */
    method StageFile(name: Name, content: Bytes, faultless: bool, ghost origin: seq<Op>) returns (reply: Reply)
      requires stagings != [] && Along(origin, steps, PUBLISHING) && |steps| + 1 < |origin| + |PUBLISHING|
      requires PUBLISHING[|steps| - |origin|] == Create(name) && PUBLISHING[|steps| - |origin| + 1] == WriteAndSync(name)
      modifies this`steps, this`faults, this`stagings
      ensures Along(origin, steps, PUBLISHING) && (faultless ==> reply == Done)
      ensures stagings != [] && SameBefore(old(stagings), stagings)
      ensures reply == Done ==> |steps| == |old(steps)| + 2 && Newest(stagings) == Newest(old(stagings))[name := content]
      ensures faults == if reply == Done then old(faults) else old(faults) + 1
    {
      hide Along, PUBLISHING, SameBefore;
      SameThroughout(stagings, stagings, stagings);
      reply := Do(Create(name), faultless, origin, PUBLISHING);
      if reply != Done { return; }
      Put(name, []);
      ghost var between := stagings;
      reply := Do(WriteAndSync(name), faultless, origin, PUBLISHING);
      if reply != Done { return; }
      Put(name, content);
      SameThroughout(old(stagings), between, stagings);
    }

    /** Writes and syncs the five files, one after the other, into the staging directory. */
    method FillStaging(materials: Directory, faultless: bool, ghost origin: seq<Op>) returns (reply: Reply)
      requires materials.Keys == Names(CREDENTIAL_FILES) && stagings != [] && Newest(stagings) == map[]
      requires Along(origin, steps, PUBLISHING) && |steps| == |origin| + 1
      modifies this`steps, this`faults, this`stagings
      ensures Along(origin, steps, PUBLISHING) && (faultless ==> reply == Done)
      ensures stagings != [] && SameBefore(old(stagings), stagings)
      ensures reply == Done ==> |steps| == |origin| + 12 && Newest(stagings) == materials
      ensures faults == if reply == Done then old(faults) else old(faults) + 1
    {
      PublishingInOrder();
      SameThroughout(stagings, stagings, stagings);
      hide Along, PUBLISHING, Names, Staged, CREDENTIAL_FILES, SameBefore, Newest;
      NoneStaged(materials);
      reply := Do(SetMode, faultless, origin, PUBLISHING);
      if reply != Done { return; }
      var index := 0;
      while index < |CREDENTIAL_FILES|
        invariant 0 <= index <= |CREDENTIAL_FILES| && stagings != [] && SameBefore(old(stagings), stagings)
        invariant Staged(index, Newest(stagings), materials)
        invariant Along(origin, steps, PUBLISHING) && |steps| == |origin| + 2 + 2 * index
        invariant reply == Done && faults == old(faults)
      {
        var name := CREDENTIAL_FILES[index];
        FileInOrder(index);
        FileStaged(index, Newest(stagings), materials);
        ghost var before := stagings;
        reply := StageFile(name, materials[name], faultless, origin);
        SameThroughout(old(stagings), before, stagings);
        if reply != Done { return; }
        index := index + 1;
      }
      AllStaged(Newest(stagings), materials);
    }

    /** One file of the newest staging directory. */
    method Put(name: Name, content: Bytes)
      requires stagings != []
      modifies this`stagings
      ensures stagings != [] && SameBefore(old(stagings), stagings)
      ensures Newest(stagings) == Newest(old(stagings))[name := content]
    {
      var last := |stagings| - 1;
      stagings := stagings[last := stagings[last][name := content]];
    }

    /** Fills a private staging directory file by file, syncs it, renames it into place, and syncs
        the parent. An error that meets no second fault leaves no staging directory behind. */
    method PublishDirectory(materials: Directory, faultless: bool) returns (reply: Reply)
      requires materials.Keys == Names(CREDENTIAL_FILES)
      modifies this`output, this`durable, this`stagings, this`steps, this`faults
      ensures output == old(output) || (old(output) == None && output == Some(materials))
      ensures output == old(output) ==> durable == old(durable)
      ensures reply == Done ==> old(output) == None && output == Some(materials) && durable
      ensures Along(old(steps), steps, PUBLISHING) && (reply == Done ==> steps == old(steps) + PUBLISHING)
      ensures faultless && old(output) == None ==> reply == Done
      ensures stagings == old(stagings) || (reply != Done && OneStray(old(stagings), stagings) && output == old(output))
      ensures reply != Dead && faults <= old(faults) + 1 && (faults > old(faults) ==> old(output).None?) ==>
        stagings == old(stagings)
      ensures faultless ==> faults == old(faults)
    {
      PublishingInOrder();
      hide Along, PUBLISHING, Names, CREDENTIAL_FILES;
      NothingDone(steps, PUBLISHING);
      reply := Do(MakeStaging, faultless, old(steps), PUBLISHING);
      var made: bool := *;
      if reply == Done || (reply == Dead && made) { stagings := stagings + [map[]]; }
      if reply != Done { return; }
      reply := FillStaging(materials, faultless, old(steps));
      if reply == Done { reply := Do(SyncStaging, faultless, old(steps), PUBLISHING); }
      if reply == Done && output.Some? { reply := Raised; }
      if reply == Done { reply := Do(Rename, faultless, old(steps), PUBLISHING); }
      if reply != Done { reply := RemoveStaging(reply, faultless); return; }
      output, stagings := Some(stagings[|stagings| - 1]), stagings[..|stagings| - 1];
      reply := Do(SyncParent, faultless, old(steps), PUBLISHING);
      var synced: bool := *;
      durable := reply == Done || synced;
      AllDone(old(steps), steps, PUBLISHING);
    }

    /** After an error the staging directory is removed file by file, which may fail in turn; a dead
        process removes nothing. */
    method RemoveStaging(error: Reply, faultless: bool) returns (reply: Reply)
      requires error != Done && |stagings| > 0
      modifies this`stagings, this`faults
      ensures reply != Done && (error == Dead ==> reply == Dead)
      ensures stagings == old(stagings[..|stagings| - 1]) || SameBefore(old(stagings), stagings)
      ensures error == Raised && faults == old(faults) ==> reply == Raised && stagings == old(stagings[..|stagings| - 1])
      ensures faults >= old(faults) && (faultless ==> faults == old(faults))
      ensures faults != old(faults) ==> SameBefore(old(stagings), stagings)
    {
      reply := error;
      if reply == Dead { return; }
      while stagings[|stagings| - 1].Keys != {}
        invariant |stagings| > 0 && SameBefore(old(stagings), stagings) && faults == old(faults)
        decreases |stagings[|stagings| - 1].Keys|
      {
        var last := |stagings| - 1;
        var name :| name in stagings[last].Keys;
        var unlinked := Undo(faultless);
        if unlinked != Done { return unlinked; }
        stagings := stagings[last := stagings[last] - {name}];
      }
      var removed := Undo(faultless);  // rmdir
      if removed != Done { return removed; }
      stagings := stagings[..|stagings| - 1];
    }

    /** One transaction that sets password and expiry. An answer other than Done leaves open
        whether the commit was applied. */
    method ChangePassword(password: Bytes, expiresAt: int, faultless: bool) returns (reply: Reply)
      modifies this`role, this`steps, this`faults
      ensures role == old(role) || role == Role(Some(password), true, Some(expiresAt))
      ensures reply == Done ==> role == Role(Some(password), true, Some(expiresAt))
      ensures Along(old(steps), steps, COMMITTING) && (reply == Done ==> steps == old(steps) + COMMITTING)
      ensures role != old(role) ==> old(steps) + [Begin, SetPassword, SetExpiry] <= steps
      ensures faultless ==> reply == Done
    {
      hide Along;
      NothingDone(steps, COMMITTING);
      var pending := role;
      reply := Do(Begin, faultless, old(steps), COMMITTING);  // BEGIN and SET LOCAL
      if reply != Done { return; }
      reply := Do(SetPassword, faultless, old(steps), COMMITTING);
      if reply != Done { return; }
      pending := pending.(password := Some(password), scram := true);
      reply := Do(SetExpiry, faultless, old(steps), COMMITTING);
      if reply != Done { return; }
      pending := pending.(validUntil := Some(expiresAt));
      reply := Do(Commit, faultless, old(steps), COMMITTING);
      var applied: bool := *;
      if reply == Done || applied {
        role := pending;
      }
      AllDone(old(steps), steps, COMMITTING);
    }

    /** The checks before anything is changed: the material to use, or how the run ends. */
    method Examine(inp: Input, faultless: bool, ghost plan: seq<Op>) returns (end: Option<Outcome>, material: Directory)
      requires |plan| > 2 && plan[0] == Connect && plan[1] == LogIn(DemandSelf) && plan[2] == LogIn(TrustDecision)
      modifies this`steps, this`faults
      ensures Along(old(steps), steps, plan)
      ensures end.None? ==> Sound(Now(), inp) && material == Material(Now(), inp) && |steps| == |old(steps)| + 3
      ensures end.Some? ==>
        !end.value.Ready? && (end.value.Failed? ==> end.value.code !in {AdapterUnavailable, VerificationFailed})
      ensures faultless ==> (end.None? <==> Sound(Now(), inp)) && (end.Some? ==> end == Some(Verdict(Now(), inp)))
    {
      hide ValidFiles, Distinct, SameSources, Along, Fresh;
      NothingDone(steps, plan);
      material := map[];
      var readable := FilesReadable(inp.source, SOURCE_FILES);
      if !readable { return Some(Failed(FileInvalid)), material; }
      var reply := Do(Connect, faultless, old(steps), plan);  // preflight, advisory lock, catalogs
      if reply != Done { return Some(Abort(reply, Interrupted)), material; }
      if !inp.roleFactsValid { return Some(Failed(RoleDrift)), material; }
      if output.Some? {
        if output.value.Keys != Names(CREDENTIAL_FILES) { return Some(Failed(FileInvalid)), material; }
        readable := FilesReadable(output.value, CREDENTIAL_FILES);
        if !readable { return Some(Failed(FileInvalid)), material; }
        if !SameSources(output.value, inp.source) { return Some(Failed(SourceDrift)), material; }
        material := output.value;
      } else {
        if role.password.Some? { return Some(Failed(PasswordUnmanaged)), material; }
        material := Fresh(inp);
      }
      var distinct := MaterialsDistinct(material, inp.adminPassword);
      if !distinct { return Some(Failed(MaterialReused)), material; }
      reply := Do(LogIn(DemandSelf), faultless, old(steps), plan);
      if reply != Done { return Some(Abort(reply, LoginFailed)), material; }
      reply := Do(LogIn(TrustDecision), faultless, old(steps), plan);
      if reply != Done { return Some(Abort(reply, LoginFailed)), material; }
      if !inp.sourceLoginsWork { return Some(Failed(LoginFailed)), material; }
      end := None;
    }

    /** Checks an existing password and its expiry, and logs in with it. */
    method Confirm(inp: Input, material: Directory, faultless: bool, ghost origin: seq<Op>, ghost plan: seq<Op>)
        returns (r: Outcome)
      requires role.password.Some? && SystemFile in material
      requires Along(origin, steps, plan) && |steps| == |origin| + 3 && |plan| == 4 && plan[3] == LogIn(SystemFile)
      modifies this`steps, this`faults
      ensures Along(origin, steps, plan) && (r.Ready? ==> |steps| == |origin| + |plan|)
      ensures r.Ready? ==>
        && r == Ready(true) && role.password.value == material[SystemFile]
        && role.scram && role.validUntil.Some? && role.validUntil.value > inp.now
      ensures r.Failed? ==> r.code in {ExpiredOrInvalid, LoginFailed}
      ensures faultless ==>
        (r == if !role.scram || role.validUntil.None? || role.validUntil.value <= inp.now then Failed(ExpiredOrInvalid)
              else if role.password.value != material[SystemFile] then Failed(LoginFailed)
              else Ready(true))
    {
      hide Along;
      if !role.scram || role.validUntil.None? || role.validUntil.value <= inp.now {
        return Failed(ExpiredOrInvalid);
      }
      var reply := Do(LogIn(SystemFile), faultless, origin, plan);
      if reply != Done { return Abort(reply, LoginFailed); }
      if role.password.value != material[SystemFile] { return Failed(LoginFailed); }
      return Ready(true);
    }

    /** Publishes the material unless it is published, and sets the password. */
    method Change(inp: Input, material: Directory, faultless: bool, ghost origin: seq<Op>, ghost plan: seq<Op>)
        returns (r: Outcome)
      requires material.Keys == Names(CREDENTIAL_FILES) && (output.Some? ==> output == Some(material))
      requires role.password.None? && plan == Plan(output.Some?, false)
      requires Along(origin, steps, plan) && |steps| == |origin| + 3
      modifies this
      ensures output == old(output) || output == Some(material)
      ensures output == old(output) ==> durable == old(durable)
      ensures role == old(role)
        || (role == Role(Some(material[SystemFile]), true, Some(Expiry(inp.now))) && output == Some(material))
      ensures role != old(role) && old(output).None? ==> durable
      ensures r.Ready? ==> r == Ready(false) && role != old(role) && |steps| == |origin| + |plan|
      ensures faultless ==> r == Ready(false)
      ensures Along(origin, steps, plan)
      ensures r.Failed? ==> r.code in {Interrupted, LoginFailed}
      ensures stagings == old(stagings)
        || (!r.Ready? && !faultless && OneStray(old(stagings), stagings) && output == old(output) && role == old(role))
    {
      hide Along, PUBLISHING, COMMITTING, Plan, OneStray;
      PlanInOrder(output.Some?, false);
      if output.None? {
        ghost var was := steps;
        var reply := PublishDirectory(material, faultless);
        PartDone(origin, was, steps, plan, PUBLISHING);
        if reply != Done { return Abort(reply, Interrupted); }
      }
      ghost var was := steps;
      var reply := ChangePassword(material[SystemFile], Expiry(inp.now), faultless);
      PartDone(origin, was, steps, plan, COMMITTING);
      if reply != Done { return Abort(reply, Interrupted); }
      if role != Role(Some(material[SystemFile]), true, Some(Expiry(inp.now))) {
        return Failed(VerificationFailed);
      }
      reply := Do(LogIn(SystemFile), faultless, origin, plan);
      if reply != Done { return Abort(reply, LoginFailed); }
      return Ready(false);
    }

    /** The whole run, from reading the sources to the verified login. */
    method PrepareCredentials(inp: Input, faultless: bool) returns (r: Outcome)
      modifies this
      ensures RunEffect(old(Now()), Now(), inp)
      ensures faultless ==> r == Verdict(old(Now()), inp)

      // A run that meets no fault ends as the first thing out of order says; the other refusals are
      // told by the lemmas about the verdict.
      ensures faultless ==>
        (r == Failed(RoleDrift) <==>
           && ValidFiles(inp.source, [DemandSelf, TrustDecision, DemandIdempotency, DemandPayloadHash])
           && !inp.roleFactsValid)
      ensures faultless ==>
        (r == Failed(FileInvalid) <==>
           || !ValidFiles(inp.source, [DemandSelf, TrustDecision, DemandIdempotency, DemandPayloadHash])
           || (inp.roleFactsValid && old(output).Some?
               && (old(output).value.Keys != {SystemFile, DemandSelf, TrustDecision, DemandIdempotency, DemandPayloadHash}
                   || !ValidFiles(old(output).value,
                                  [SystemFile, DemandSelf, TrustDecision, DemandIdempotency, DemandPayloadHash]))))

      // What was reported ready, or was changed at all, had been found in order.
      ensures r.Ready? || Now() != old(Now()) ==>
        && inp.roleFactsValid && inp.sourceLoginsWork
        && ValidFiles(inp.source, [DemandSelf, TrustDecision, DemandIdempotency, DemandPayloadHash])
        && output.Some?
        && output.value.Keys == {SystemFile, DemandSelf, TrustDecision, DemandIdempotency, DemandPayloadHash}
        && (forall n :: n in {DemandSelf, TrustDecision, DemandIdempotency, DemandPayloadHash} ==>
              n in inp.source && output.value[n] == inp.source[n])
        && Distinct(output.value, inp.adminPassword)
        && if old(output).Some? then output == old(output) && durable == old(durable)
           else old(role).password.None? && output.value[SystemFile] == inp.token
      ensures r.Ready? ==>
        && r.reused == old(role).password.Some? && role.scram
        && role.password == Some(output.value[SystemFile])
        && role.validUntil.Some? && role.validUntil.value > inp.now
      ensures Now() != old(Now()) ==> old(role).password.None? && inp.canChangePassword
      ensures role != old(role) ==>
        && (old(output).None? ==> durable)
        && role.password == Some(output.value[SystemFile]) && role.scram && role.validUntil.Some?
        && role.validUntil.value <= inp.now + 31_536_000_000_000 < role.validUntil.value + 1_000_000
        && role.validUntil.value % 1_000_000 == 0

      // What was done, and in which order.
      ensures Along(old(steps), steps, Plan(old(output).Some?, old(role).password.Some?))
      ensures r.Ready? ==> steps == old(steps) + Plan(old(output).Some?, old(role).password.Some?)
      ensures r.Failed? && r.code !in {Interrupted, LoginFailed} ==> Now() == old(Now()) && stagings == old(stagings)
      ensures stagings == old(stagings) || (!r.Ready? && !faultless && OneStray(old(stagings), stagings) && output == old(output))
    {
      hide ValidSecret, ValidFiles, Distinct, SameSources, Plan, Along, Fresh, PUBLISHING, COMMITTING, OneStray;
      hide Names, SOURCE_FILES, CREDENTIAL_FILES, Verdict, Sound, RunEffect, Expiry;
      ExpiryTells(inp.now);
      VerdictTells(Now(), inp);
      NothingIsEffect(Now(), inp);
      ghost var plan := Plan(output.Some?, role.password.Some?);
      PlanBegins(output.Some?, role.password.Some?);
      var end, material := Examine(inp, faultless, plan);
      if end.Some? { return end.value; }
      SoundTells(Now(), inp, material);
      SoundVerdict(Now(), inp);
      if role.password.Some? {
        r := Confirm(inp, material, faultless, old(steps), plan);
        AllDone(old(steps), steps, plan);
        return;
      }
      if !inp.canChangePassword { return Failed(AdapterUnavailable); }
      r := Change(inp, material, faultless, old(steps), plan);
      AllDone(old(steps), steps, plan);
      ChangeIsEffect(old(Now()), Now(), inp);
    }

    function Abort(reply: Reply, code: Code): (r: Outcome)
      requires reply != Done
      ensures !r.Ready? && (r == Died <==> reply == Dead) && (r.Failed? ==> r.code == code)
    {
      if reply == Dead then Died else Failed(code)
    }

    /** Any number of runs, each failing, dying or losing its commit answer anywhere, followed by
        one run that meets no fault. */
    method RecoverAfter(earlier: seq<Input>, last: Input) returns (r: Outcome, hadPassword: bool)
      requires Now() == Pristine
      requires forall inp <- earlier :: SameDeployment(inp, last) && last.now < Expiry(inp.now)
      requires Presentable(last)
      modifies this
      ensures r == Ready(hadPassword)
      ensures output.Some?
      ensures output.value.Keys == {SystemFile, DemandSelf, TrustDecision, DemandIdempotency, DemandPayloadHash}
      ensures forall n :: n in {DemandSelf, TrustDecision, DemandIdempotency, DemandPayloadHash} ==>
        n in last.source && output.value[n] == last.source[n]
      ensures role.password == Some(output.value[SystemFile])
    {
      hide Plan, Along, Acceptable, Verdict, Presentable, Distinct, ValidFiles, RunEffect;
      ghost var worlds, events := [Now()], [];
      for i := 0 to |earlier|
        invariant |worlds| == i + 1 && |events| == i && worlds[i] == Now()
        invariant History(worlds, events)
        invariant forall j :: 0 <= j < i ==> events[j] == Ran(earlier[j])
      {
        assert SameDeployment(earlier[i], last);
        var _ := PrepareCredentials(earlier[i], false);
        HistoryGrows(worlds, events, earlier[i], Now());
        worlds, events := worlds + [Now()], events + [Ran(earlier[i])];
      }
      RerunIsAcceptable(worlds, events, |earlier|, last);
      VerdictTells(Now(), last);
      hadPassword := role.password.Some?;
      r := PrepareCredentials(last, true);
    }
  }

  // --------------------------------------------------------------------------------------------
  // Any sequence of runs and host crashes
  // --------------------------------------------------------------------------------------------

  /** Runs are serialised by the advisory lock; a host may crash between and, as a run may die
      anywhere, within them. */
  datatype Event = Ran(inp: Input) | Crashed

  /** A host crash keeps the committed role and takes the directory's entry unless that was synced. */
  predicate CrashEffect(w: World, v: World) {
    v == w.(durable := w.output.Some?) || (!w.durable && v == World(None, false, w.role))
  }

  predicate Step(w: World, e: Event, v: World) {
    match e
    case Ran(inp) => ValidSecret(SystemFile, inp.token) && RunEffect(w, v, inp)
    case Crashed => CrashEffect(w, v)
  }

  /** Successive states of the two resources. */
  ghost predicate History(worlds: seq<World>, events: seq<Event>) {
    && |worlds| == |events| + 1
    && worlds[0] == Pristine
    && forall i :: 0 <= i < |events| ==> Step(worlds[i], events[i], worlds[i + 1])
  }

  /** A set password is backed by a directory that a crash leaves in place. */
  predicate CrashSafe(w: World) {
    w.role.password.Some? ==> w.durable
  }

  /** Published, but with an entry that may still vanish, and no password yet. */
  predicate Unsynced(w: World) {
    w.output.Some? && !w.durable && w.role.password.None?
  }

  /** What a run must not meet: it would set the password and leave the entry as it is. */
  predicate CommitsUnsynced(w: World, inp: Input) {
    Unsynced(w) && Acceptable(w, inp)
  }

  /** No crash meets a state that is not safe from it. */
  ghost predicate Sheltered(worlds: seq<World>, events: seq<Event>)
    requires |worlds| == |events| + 1
  {
    forall i :: 0 <= i < |events| && events[i].Crashed? ==> CrashSafe(worlds[i])
  }

  /** Same sources and administrator; tokens come from the same generator. */
  predicate SameDeployment(inp: Input, other: Input) {
    && inp.source == other.source && inp.adminPassword == other.adminPassword
    && ValidSecret(SystemFile, inp.token)
  }

  /** Valid role facts and sources, and a fresh token that differs from every other credential. */
  predicate Presentable(inp: Input) {
    && ValidFiles(inp.source, SOURCE_FILES) && ValidSecret(SystemFile, inp.token)
    && inp.roleFactsValid && inp.sourceLoginsWork && inp.canChangePassword
    && Distinct(Fresh(inp), inp.adminPassword)
  }

  lemma HistoryGrows(worlds: seq<World>, events: seq<Event>, inp: Input, v: World)
    requires History(worlds, events) && ValidSecret(SystemFile, inp.token) && RunEffect(worlds[|events|], v, inp)
    ensures History(worlds + [v], events + [Ran(inp)])
  {
    var ws, es := worlds + [v], events + [Ran(inp)];
    hide RunEffect;
    assert forall i :: 0 <= i < |events| ==> Step(worlds[i], events[i], worlds[i + 1]);
    assert forall i :: 0 <= i < |es| ==> Step(ws[i], es[i], ws[i + 1]);
  }

  lemma RunKeepsConsistency(w: World, v: World, inp: Input)
    requires Consistent(w) && RunEffect(w, v, inp) && ValidSecret(SystemFile, inp.token)
    ensures Consistent(v)
    ensures w.output.Some? ==> v.output == w.output && v.durable == w.durable
    ensures w.role.password.Some? ==> v == w
  {
    if v != w && w.output.None? {
      forall n | n in CREDENTIAL_FILES ensures n in v.output.value && ValidSecret(n, v.output.value[n]) {
        assert n == SystemFile || n in SOURCE_FILES;
      }
    }
  }

  /** A consistent state survives every host crash exactly when no password rests on an unsynced entry. */
  lemma CrashKeepsConsistency(w: World)
    requires Consistent(w)
    ensures CrashSafe(w) <==> forall v :: CrashEffect(w, v) ==> Consistent(v)
  {
    if !CrashSafe(w) {
      var v := World(None, false, w.role);
      assert CrashEffect(w, v) && !Consistent(v);
    }
  }

  /** One run followed by a host crash is safe exactly unless the run finds the directory of an
      earlier run whose entry was never synced, and everything else in order: it does not sync the
      entry again before it commits. */
  lemma RunThenCrashIsSafe(w: World, inp: Input)
    requires Consistent(w) && CrashSafe(w) && ValidSecret(SystemFile, inp.token)
    ensures !CommitsUnsynced(w, inp) <==> forall v, x :: RunEffect(w, v, inp) && CrashEffect(v, x) ==> Consistent(x)
    ensures !CommitsUnsynced(w, inp) ==> forall v :: RunEffect(w, v, inp) ==> CrashSafe(v)
  {
    if CommitsUnsynced(w, inp) {
      var v := w.(role := Role(Some(w.output.value[SystemFile]), true, Some(Expiry(inp.now))));
      var x := World(None, false, v.role);
      assert RunEffect(w, v, inp) && CrashEffect(v, x) && !Consistent(x);
    } else {
      forall v, x | RunEffect(w, v, inp) && CrashEffect(v, x) ensures Consistent(x) {
        RunKeepsConsistency(w, v, inp);
      }
    }
  }

  lemma {:induction false} StaysConsistent(worlds: seq<World>, events: seq<Event>, k: nat)
    requires History(worlds, events) && Sheltered(worlds, events) && k < |worlds|
    ensures Consistent(worlds[k])
  {
    if k > 0 {
      StaysConsistent(worlds, events, k - 1);
      assert Step(worlds[k - 1], events[k - 1], worlds[k]);
      match events[k - 1] {
        case Ran(inp) => RunKeepsConsistency(worlds[k - 1], worlds[k], inp);
        case Crashed => CrashKeepsConsistency(worlds[k - 1]);
      }
    }
  }

  /** Whenever the password is set, the directory exists with exactly the five files and its
      system file is that password, after any sequence of failed, dead or uncertain runs, and of
      host crashes none of which meets a password that rests on an unsynced entry. */
  lemma AlwaysConsistent(worlds: seq<World>, events: seq<Event>, k: nat)
    requires History(worlds, events) && Sheltered(worlds, events) && k < |worlds|
    ensures var w := worlds[k];
      && (w.role.password.Some? ==>
            && w.output.Some? && SystemFile in w.output.value && w.output.value[SystemFile] == w.role.password.value
            && w.role.scram && w.role.validUntil.Some?)
      && (w.output.Some? ==>
            && w.output.value.Keys == {SystemFile, DemandSelf, TrustDecision, DemandIdempotency, DemandPayloadHash}
            && forall n :: n in w.output.value ==> ValidSecret(n, w.output.value[n]))
  {
    StaysConsistent(worlds, events, k);
    ConsistentTells(worlds[k]);
  }

  /** None does if no run sets the password on an unsynced entry. */
  lemma {:induction false} SyncedRunsAreSheltered(worlds: seq<World>, events: seq<Event>, k: nat)
    requires History(worlds, events) && k < |worlds|
    requires forall i :: 0 <= i < |events| && events[i].Ran? ==> !CommitsUnsynced(worlds[i], events[i].inp)
    ensures CrashSafe(worlds[k]) && Consistent(worlds[k])
  {
    if k > 0 {
      SyncedRunsAreSheltered(worlds, events, k - 1);
      assert Step(worlds[k - 1], events[k - 1], worlds[k]);
      match events[k - 1] {
        case Ran(inp) =>
          RunKeepsConsistency(worlds[k - 1], worlds[k], inp);
          RunThenCrashIsSafe(worlds[k - 1], inp);
        case Crashed => CrashKeepsConsistency(worlds[k - 1]);
      }
    }
  }

  /** A run that fails when it syncs the parent, a run that commits, and a host crash leave a
      password without a directory, which no later run accepts. */
  lemma UnsyncedDirectoryStrands(inp: Input) returns (worlds: seq<World>, events: seq<Event>)
    requires Presentable(inp)
    ensures History(worlds, events) && events == [Ran(inp), Ran(inp), Crashed]
    ensures worlds[3].output.None? && worlds[3].role.password == Some(inp.token)
    ensures forall last :: !Acceptable(worlds[3], last)
  {
    var w1 := World(Some(Fresh(inp)), false, Pristine.role);
    var w2 := w1.(role := Role(Some(inp.token), true, Some(Expiry(inp.now))));
    var w3 := World(None, false, w2.role);
    worlds, events := [Pristine, w1, w2, w3], [Ran(inp), Ran(inp), Crashed];
    assert Step(Pristine, events[0], w1) && Step(w1, events[1], w2) && Step(w2, events[2], w3);
  }

  /** A committed role never changes again, nor does a published directory whose entry is durable, or
      that no crash meets. Below a committed role the directory stays if every crash is sheltered. */
  lemma {:induction false} PublishedIsFinal(worlds: seq<World>, events: seq<Event>, i: nat, k: nat)
    requires History(worlds, events) && i <= k < |worlds|
    ensures worlds[i].role.password.Some? ==> worlds[k].role == worlds[i].role
    ensures worlds[i].output.Some? && worlds[i].durable ==> worlds[k].output == worlds[i].output && worlds[k].durable
    ensures worlds[i].output.Some? && (forall j :: i <= j < k ==> events[j].Ran?) ==> worlds[k].output == worlds[i].output
    ensures worlds[i].role.password.Some? && Sheltered(worlds, events) ==> worlds[k].output == worlds[i].output
  {
    if i < k {
      PublishedIsFinal(worlds, events, i, k - 1);
      assert Step(worlds[k - 1], events[k - 1], worlds[k]);
    }
  }

  lemma RoleStays(worlds: seq<World>, events: seq<Event>, i: nat, k: nat)
    requires History(worlds, events) && i <= k < |worlds| && worlds[i].role.password.Some?
    ensures worlds[k].role == worlds[i].role
  {
    PublishedIsFinal(worlds, events, i, k);
  }

  lemma RoleIsSet(w: World, e: Event, v: World)
    requires Step(w, e, v) && w.role != v.role
    ensures w.role.password.None? && v.role.password.Some?
  {
  }

  lemma NoLaterChange(worlds: seq<World>, events: seq<Event>, i: nat, j: nat)
    requires History(worlds, events) && i < j < |events| && worlds[i + 1].role.password.Some?
    ensures worlds[j].role == worlds[j + 1].role
  {
    hide Step;
    RoleStays(worlds, events, i + 1, j);
    RoleStays(worlds, events, i + 1, j + 1);
  }

  /** Across any history, host crashes included, at most one run changes the role, and it changes
      unset to set. */
  lemma PasswordChangesOnce(worlds: seq<World>, events: seq<Event>, i: nat, j: nat)
    requires History(worlds, events) && i < |events| && j < |events|
    requires worlds[i].role != worlds[i + 1].role && worlds[j].role != worlds[j + 1].role
    ensures i == j && worlds[i].role.password.None? && worlds[i + 1].role.password.Some?
  {
    hide Step;
    assert Step(worlds[i], events[i], worlds[i + 1]) && Step(worlds[j], events[j], worlds[j + 1]);
    RoleIsSet(worlds[i], events[i], worlds[i + 1]);
    RoleIsSet(worlds[j], events[j], worlds[j + 1]);
    if i < j { NoLaterChange(worlds, events, i, j); }
    if j < i { NoLaterChange(worlds, events, j, i); }
  }

  predicate StillValid(e: Event, inp: Input) {
    e.Ran? ==> SameDeployment(e.inp, inp) && inp.now < Expiry(e.inp.now)
  }

  lemma StepStaysAcceptable(w: World, e: Event, v: World, inp: Input)
    requires Consistent(w) && Acceptable(w, inp) && Step(w, e, v) && Consistent(v)
    requires (e.Crashed? ==> CrashSafe(w)) && Presentable(inp) && StillValid(e, inp)
    ensures Acceptable(v, inp)
  {
    hide Distinct, ValidSecret, Expiry;
    if e.Ran? && w.output.None? && v.output.Some? {
      assert Distinct(Fresh(e.inp), inp.adminPassword);
    }
  }

  /** From every reachable state a rerun before expiry with unchanged sources is acceptable:
      in particular the unmanaged-password refusal is out of reach. */
  lemma {:induction false} RerunIsAcceptable(worlds: seq<World>, events: seq<Event>, k: nat, inp: Input)
    requires History(worlds, events) && Sheltered(worlds, events) && k < |worlds| && Presentable(inp)
    requires forall i :: 0 <= i < |events| ==> StillValid(events[i], inp)
    ensures Acceptable(worlds[k], inp)
  {
    StaysConsistent(worlds, events, k);
    if k > 0 {
      StaysConsistent(worlds, events, k - 1);
      RerunIsAcceptable(worlds, events, k - 1, inp);
      assert Step(worlds[k - 1], events[k - 1], worlds[k]);
      hide Acceptable, Consistent, Presentable, Step;
      StepStaysAcceptable(worlds[k - 1], events[k - 1], worlds[k], inp);
    }
  }
}
