# Verified model of the private-server deployment tooling

The scripts under `scripts/` deploy a private server and fail closed: they stop with an exit code rather
than go on in doubt. This project models the part of them where that is hard, and proves what they
promise, for every input, every run and every point where a process may stop.

The file system, the Docker daemon and the database are abstract state, and every external command is a
step that may fail, kill the process or lose its answer. SHA-256 is never modelled: what the scripts claim
through a digest is proved about the bytes they feed to it.

| module | models |
|---|---|
| `IngressProtocol` | any number of activations and managers over one attempts root, interleaved, with process and host crashes between any two steps |
| `Docker`, `IngressManager`, `LocalSandbox` | starting, stopping and inspecting bound containers in order, against a daemon that may do anything, and against one that only the manager changes |
| `LocalStart`, `LocalRace` | the fresh start of a local root, with a process that may die in any step and a host that may crash; and any number of such starts at once |
| `Provisioning` | a directory published before a database password is committed, across process deaths and host crashes |
| `Faults` | the three ways an external operation ends |
| `CanonicalJson`, `JsonRoundTrip`, `CanonicalForm`, `CanonicalText` | strict parsing of RFC 8259 documents with integers only, printed again and compared byte by byte; and what the printed form looks like |
| `CreateIntent`, `Offences`, `ExecutorIngress`, `IntentCodec`, `IntentShape` | the one document the trusted executor takes in, as it is built, as it is checked, and member by member |
| `SecurityProjection`, `Sorting` | the byte form in which a container is recorded and recognised again |
| `Ustar`, `Archive`, `Publication` | the release bundle: header blocks (pax utility, IEEE Std 1003.1), layout, strict reading, atomic staging |
| `PowerLoss` | the same staging when the host may crash |
| `Symlinks`, `Paths` | lexical resolution of links and the search for cycles |
| `PhysicalLinks` | where the accepted links lead on disk (IEEE Std 1003.1-2017, section 4.13) |
| `TreeHash`, `Framing` | tree walks with an explicit stack and the framed streams they feed to a digest |
| `Merge`, `Ports` | image defaults merged with Compose settings, as collector and validator account for it |
| `Cidr`, `Addresses` | subnets (RFC 4632 section 3.1, RFC 1918 section 3) and the texts that are read as such |
| `ComposeInputs`, `ComposeSubnets` | the two Compose input files, rendered by one script and read by another |

Nine results say precisely when a promise holds:

- Printing and reading canonical JSON is the identity exactly on documents in which no string holds a high
  surrogate directly before a low one (`CanonicalForm.PrintedDocumentReadsBack`); the parser never delivers
  such a string, so every accepted document has one byte form.
- A local stop followed by a resume ends healthy exactly when every container was left with an expected exit
  code and no restart (`LocalSandbox.StopThenResume`); a database that had to be killed counts as stopped and
  yet cannot be resumed (`LocalSandbox.KilledDatabaseBlocksResume`).
- The bundle reader accepts what the bundle writer lays out exactly when no file is empty
  (`Archive.BundleRoundTrip`).
- The activation script accepts a rendered environment file exactly when no frozen token is in it and the
  root holds none of the line separators the parser splits at; the renderer only refuses line feed, carriage
  return, NUL, quote and backslash, so a root with any other separator is rendered and then turned away
  (`ComposeInputs.ValidateEnv`, `ComposeInputs.SeparatorRootIsStranded`).
- The activation script accepts the address file rendered from four closed networks exactly when none of the
  four is frozen (`ComposeSubnets.IpamRoundTrip`). Apart from renderings it accepts the same file with a prefix
  written as a zero-padded 24, as 255.255.255.0 or as 0.0.0.255, and nothing else
  (`ComposeSubnets.AcceptedTexts`).
- A fresh local start builds and launches at most once while its recorded attempt stays in place, also when many
  starts run at the same moment (`LocalStart.AtMostOnce`, `LocalRace.AtMostOnce`). The directory of that record is
  never synced: every host crash that takes the entry may add one build and one launch, and no more
  (`LocalRace.OncePerLoss`, `LocalStart.LostAttemptBuildsTwice`).
- A run of the credential provisioner followed by a host crash leaves directory and password consistent exactly
  unless the run finds a directory whose entry an earlier run failed to sync, no password, and everything else in
  order: it then commits the password without syncing the entry again (`Provisioning.RunThenCrashIsSafe`,
  `Provisioning.UnsyncedDirectoryStrands`).
- A host crash leaves every destination of the bundle stager absent or complete exactly when the trees published so
  far were written back (`PowerLoss.CrashIsSafeExactly`). The stager syncs files and parent but not the directories
  of the tree, so a destination can be torn even after it reported success (`PowerLoss.SuccessMayBeTorn`).
- An accepted link ends on disk where it ends as text if every empty, dot or dot-dot step of every target is taken
  from a recorded directory (`PhysicalLinks.GroundedLinksAgree`), and for links without such a step at or below a
  link only if (`PhysicalLinks.AgreeExactlyWhenGrounded`). The check does not ask for this, and accepts a tree with
  a link that climbs above the root on disk (`PhysicalLinks.TextAndDiskPart`).

`dafny verify dfyconfig.toml` checks the whole project.

## Model

| member | source | states |
|---|---|---|
| IngressProtocol.StepPreserves | scripts/activate_private_server_ingress.py:1777-1866 | every step of an activation or manager, and every process or host crash, keeps the invariant: one claimant per project, claims and markers durable before launch, completions backed by a successful launch, managers at work only under both locks and with all receipts whole |
| IngressProtocol.RunInvariant | scripts/activate_private_server_ingress.py:1777-1866 | the invariant holds in every state of every run |
| IngressProtocol.UpRunsAtMostOnce | scripts/activate_private_server_ingress.py:931-974 | over all activations and crashes `up` is issued at most once for a project |
| IngressProtocol.MarkerDurableBeforeUp | scripts/activate_private_server_ingress.py:1777-1800 | when `up` is first issued, and in every later state, the attempt, its claim and its marker survive any crash |
| IngressProtocol.OneThingAtATime | scripts/activate_private_server_ingress.py:899-974 | each step of an activation brings one thing on disk one step further: the directory appears empty and not yet durable, its entry is synced, or one receipt is created, filled or synced |
| IngressProtocol.OneManagerInside | scripts/manage_private_server_ingress.py:597-643 | at most one manager is inside the locked section |
| IngressProtocol.MutationsFollowCompletion | scripts/manage_private_server_ingress.py:1780-1868 | before every container start or stop of a project its `up` returned, and after that its completion receipt was written |
| IngressProtocol.MutatesUnderLocks | scripts/manage_private_server_ingress.py:597-643 | whoever starts or stops a container holds the root lock and the lock of that attempt, and its three receipts are whole |
| IngressProtocol.ExitCodesTell | scripts/activate_private_server_ingress.py:1850-1941 | 78 means the process issued no `up`, start or stop and wrote no completion receipt, 75 that it issued one, 0 of an activation that all three receipts stand durable, 0 of a manager that the launch had completed |
| IngressProtocol.LaunchedProjectIsConsumed | scripts/activate_private_server_ingress.py:931-974 | an activation that starts after `up` was issued never claims the project and can only exit with 78 |
| IngressProtocol.UndisturbedActivationSucceeds | scripts/activate_private_server_ingress.py:1777-1870 | from any point, an activation left alone gets to exit 0, shows the launch, its success and the completion once and in this order, and leaves three durable receipts |
| IngressProtocol.UndisturbedManagerSucceeds | scripts/manage_private_server_ingress.py:1780-1868 | a manager that finds the locks free and the receipts whole can start and stop any number of containers, exit 0 and leave the locks free |
| Provisioning.MaterialsDistinct | scripts/prepare_local_matching_workflow.py:71-77 | accepts exactly pairwise distinct credentials that differ from the administrator's password |
| Provisioning.Deployment.PublishDirectory | scripts/prepare_local_matching_workflow.py:80-110 | the directory appears whole or not at all, also when the process dies, and an existing one is kept; success means its entry is synced; after an error a staging directory is left only if its removal failed too |
| Provisioning.Deployment.ChangePassword | scripts/prepare_local_matching_workflow.py:208-222 | password and expiry change together or not at all; an answer other than success leaves open which |
| Provisioning.Deployment.PrepareCredentials | scripts/prepare_local_matching_workflow.py:159-227 | what a run may do to both resources wherever it stops, and in which order; any effect or success presupposes readable sources, valid role facts, working logins and a matching directory; without faults the answer is the verdict, with a role drift or an unreadable file exactly as the old state and the input say |
| Provisioning.VerdictTells | scripts/prepare_local_matching_workflow.py:159-190 | ready means acceptable; a role drift means readable sources and role facts that are not valid; an invalid file means unreadable sources, or valid role facts with a directory that lacks one of its five files or holds another |
| Provisioning.DriftVerdictTells | scripts/prepare_local_matching_workflow.py:180-190 | then an unmanaged password is one without a directory, and a source drift a file that differs from its source |
| Provisioning.ReuseVerdictTells | scripts/prepare_local_matching_workflow.py:71-77 | then reused material is two equal credentials, or one equal to the administrator's password |
| Provisioning.LateVerdictTells | scripts/prepare_local_matching_workflow.py:191-227 | what each of the late refusals says of the role, and what readiness says of it |
| Provisioning.SoundTells | scripts/prepare_local_matching_workflow.py:159-200 | what is in the five files once the checks have passed: the four sources, and the token or the file that was there |
| Provisioning.Deployment.RecoverAfter | scripts/prepare_local_matching_workflow.py:174-227 | after any number of failed runs a faultless rerun succeeds, says whether the password was already set, and leaves file and password equal |
| Provisioning.RunKeepsConsistency | scripts/prepare_local_matching_workflow.py:174-227 | one run keeps the two resources consistent, a published directory unchanged, and everything unchanged once the password is set |
| Provisioning.CrashKeepsConsistency | scripts/prepare_local_matching_workflow.py:98-103 | a consistent state survives every host crash if and only if no password is set while the directory's entry is unsynced |
| Provisioning.RunThenCrashIsSafe | scripts/prepare_local_matching_workflow.py:98-220 | from a safe state, a run and then a host crash stay consistent whatever happens if and only if the run does not find an unsynced directory without a password in a state it accepts |
| Provisioning.UnsyncedDirectoryStrands | scripts/prepare_local_matching_workflow.py:98-220 | a run that fails to sync the parent, a run that commits and a host crash leave a password without a directory, which no later run accepts |
| Provisioning.AlwaysConsistent | scripts/prepare_local_matching_workflow.py:174-227 | after any runs, and host crashes none of which meets a password on an unsynced entry, a password in the database implies the published directory with exactly the five files and that password |
| Provisioning.SyncedRunsAreSheltered | scripts/prepare_local_matching_workflow.py:98-220 | when no run accepts a state with an unsynced directory and no password, every state of every history is consistent and safe from a crash |
| Provisioning.PublishedIsFinal | scripts/prepare_local_matching_workflow.py:80-220 | in every history a committed role never changes, nor does a published directory once its entry is synced or while no host crash comes; a directory whose password is set stays provided no host crash meets a password on an unsynced entry |
| Provisioning.PasswordChangesOnce | scripts/prepare_local_matching_workflow.py:180-222 | in every history, with any host crashes, the role changes at most once, from no password to one |
| Provisioning.RerunIsAcceptable | scripts/prepare_local_matching_workflow.py:180-225 | every reachable state is acceptable to a rerun before expiry with the same sources and valid facts, so it never meets the unmanaged-password refusal |
| IngressManager.InspectLive | scripts/manage_private_server_ingress.py:1204-1536 | the classification is that of the containers just looked at |
| IngressManager.WaitHealthy | scripts/manage_private_server_ingress.py:988-1024 | polling changes nothing but health, and succeeds within the attempts if the container warms up in time |
| IngressManager.StartOne | scripts/manage_private_server_ingress.py:1805-1822 | tells whether the start was issued; when the earlier services are ready the order is kept |
| IngressManager.RecoverServices | scripts/manage_private_server_ingress.py:1802-1831 | starts stopped services in start order, each after all before it are running and healthy |
| IngressManager.StopServices | scripts/manage_private_server_ingress.py:1832-1857 | stops running services, never one while a later one still runs |
| IngressManager.Conclude | scripts/manage_private_server_ingress.py:1823-1857 | exit 0 exactly when the last look found the goal, else 75 or 78 by whether something was issued |
| IngressManager.Act | scripts/manage_private_server_ingress.py:1787-1865 | the exact effect contract of the exit codes, against any daemon |
| IngressManager.Manage | scripts/manage_private_server_ingress.py:1780-1868 | for each command, from the states of the containers alone: which starts or stops are issued, in which order, with which code, and how the containers end; against any daemon what each code tells |
| IngressManager.StopThenRecover | scripts/manage_private_server_ingress.py:1802-1858 | a stop followed by a recover ends healthy from every classifiable start |
| IngressManager.ExitedIsStopped | scripts/manage_private_server_ingress.py:1528-1536 | all exited is STOPPED, all running and healthy is HEALTHY |
| IngressManager.TouchesTell | scripts/manage_private_server_ingress.py:1787-1857 | right before every start, stop and look at identities the project was seen |
| Docker.TraceTells | scripts/manage_private_server_ingress.py:1787-1865 | what issued, in order and confirmed mean, by the entries of a trace |
| Docker.CommandsTell | scripts/manage_private_server_ingress.py:1802-1857 | the services said to be started or stopped are those of the issued commands |
| LocalSandbox.LiveState | scripts/manage_local_internal_sandbox.py:2757-2825 | succeeds exactly when every container, without restarts, runs and is healthy or has exited with a code from its table, and sums the states up |
| LocalSandbox.Containment | scripts/manage_local_internal_sandbox.py:2828-2860 | the permissive view used for stopping never rejects a known container |
| LocalSandbox.WaitHealthy | scripts/manage_local_internal_sandbox.py:3016-3049 | polling changes nothing but health and succeeds within the budget |
| LocalSandbox.StartOne | scripts/manage_local_internal_sandbox.py:3070-3097 | tells whether the start was issued and keeps the start order |
| LocalSandbox.ResumeServices | scripts/manage_local_internal_sandbox.py:3070-3097 | starts halted services in start order until all are ready |
| LocalSandbox.Resume | scripts/manage_local_internal_sandbox.py:3052-3106 | a service that has restarted, runs without being healthy, neither runs nor has exited, or has exited with a code not in its table makes it answer 78 with nothing issued and nothing changed; otherwise it answers 0 within the budget, and exactly the exited services were started, in ascending order; against any daemon each code tells what was issued |
| LocalSandbox.StopServices | scripts/manage_local_internal_sandbox.py:3128-3152 | stops running services, never one while a later one still runs |
| LocalSandbox.Stop | scripts/manage_local_internal_sandbox.py:3109-3161 | each code tells what was issued; exactly the services that may still execute are stopped, in descending order, and every container ends halted |
| LocalSandbox.StopThenResume | scripts/manage_local_internal_sandbox.py:3052-3161 | resuming after a stop succeeds if and only if every container exited without restart and with a code from its table |
| LocalSandbox.EdgeTells | scripts/manage_local_internal_sandbox.py:3070-3086 | right before the edge is started its port was seen to be free |
| LocalStart.Trial.WriteNew | scripts/manage_local_internal_sandbox.py:317-337 | an exclusive write that returns has created, written, synced and closed the whole document; one that raises or dies leaves nothing or a prefix of it, which may be all of it |
| LocalStart.Trial.Start | scripts/manage_local_internal_sandbox.py:2908-2980 | the steps are a prefix of the one plan, in order; 75 exactly when a build was issued and the start did not succeed; 0 means build, launch and receipt happened in this order and attempt and receipt are whole; 78 means nothing was issued; without faults it succeeds exactly when prepared and nothing is left of an earlier start |
| LocalStart.AtMostOnce | scripts/manage_local_internal_sandbox.py:2908-2980 | over any starts that may die in any step, and host crashes that leave the recorded attempt, build, launch and receipt happen at most once and in this order |
| LocalStart.OncePerLoss | scripts/manage_local_internal_sandbox.py:2914-2938 | over any starts and host crashes each happens at most once more than the recorded attempt was lost |
| LocalStart.WithoutCrashes | scripts/manage_local_internal_sandbox.py:2908-2980 | so without host crashes, whichever starts die |
| LocalStart.IssuesExactlyWhenClear | scripts/manage_local_internal_sandbox.py:2914-2925 | a start can issue a command if and only if there is no attempt, no receipt, no image tag and no project resource |
| LocalStart.LostAttemptBuildsTwice | scripts/manage_local_internal_sandbox.py:317-337 | a start that dies in its build, a host crash that takes the unsynced entry and another start build twice |
| LocalStart.TornIsRefused | scripts/manage_local_internal_sandbox.py:377-386 | of what a failed write leaves, the strict reader accepts exactly the whole document |
| LocalStart.LoadedReceiptIsWhole | scripts/manage_local_internal_sandbox.py:2671-2732 | a receipt that loads, in any state of any history, is the document of a start that had built and launched |
| LocalRace.MoveKeeps | scripts/manage_local_internal_sandbox.py:2908-2980 | every step of any of many starts at once, every death and host crash keeps: one live claimant, and each step done at most once more than the attempt was lost, the claimant's next one counted in |
| LocalRace.OncePerLoss | scripts/manage_local_internal_sandbox.py:317-324 | however the starts interleave, build, launch and receipt happen at most once more than the recorded attempt was lost |
| LocalRace.AtMostOnce | scripts/manage_local_internal_sandbox.py:317-324 | while no host crash takes the recorded attempt they happen at most once and in order, and one process at most does anything |
| LocalRace.WithoutCrashes | scripts/manage_local_internal_sandbox.py:2908-2980 | so without host crashes, whichever processes die |
| LocalRace.OneGoesOn | scripts/manage_local_internal_sandbox.py:2928-2979 | at most one live process is past the exclusive create; 78 means a process took none of the three steps, 75 that it issued the build at least, 0 that it took all three |
| LocalRace.EffectIsReached | scripts/manage_local_internal_sandbox.py:2908-2980 | whatever one start may do to the files, to Docker and to the log, one start alone does by these steps |
| LocalRace.AloneSucceeds | scripts/manage_local_internal_sandbox.py:2908-2980 | a lone start on a clear root can get to exit 0 with attempt and receipt whole and the three steps done once in order |
| JsonRoundTrip.ValueRoundTrip | scripts/private_server_real_oidc_trusted_executor_contracts.py:155-181 | reading a printed well-formed value consumes exactly its bytes and gives it back, whatever follows |
| CanonicalForm.PrintedDocumentReadsBack | scripts/private_server_real_oidc_trusted_executor_contracts.py:155-181 | the strict reader gives a printed document back if and only if it is well-formed |
| CanonicalForm.SurrogatePairsCollide | scripts/private_server_real_oidc_trusted_executor_contracts.py:155-162 | a high surrogate before a low one prints like the code point the two spell, for every such pair |
| CanonicalForm.ReadValueWellFormed | scripts/manage_private_server_ingress.py:428-447 | whatever the parser delivers is well-formed |
| CanonicalForm.PrintingIsInjective | scripts/manage_local_internal_sandbox.py:305-315 | equal bytes of well-formed documents mean equal documents |
| CanonicalForm.AcceptedFormsAreCanonical | scripts/manage_private_server_ingress.py:428-462 | the accepted texts are precisely the canonical forms of well-formed documents |
| CanonicalForm.NoTornPrefix | scripts/activate_private_server_ingress.py:899-908 | no proper prefix of an accepted document is accepted |
| CanonicalForm.ValuePrintable | scripts/private_server_real_oidc_trusted_executor_contracts.py:155-162 | canonical forms are printable ASCII, so the only line feed is the last byte |
| CanonicalText.CanonicalTells | scripts/private_server_real_oidc_trusted_executor_contracts.py:155-162 | the byte form of each kind of value: members once each in ascending order of their names, commas and colons between them, no white space but one line feed at the end |
| CanonicalText.EscapeTells | scripts/private_server_real_oidc_trusted_executor_contracts.py:155-162 | which code points stand for themselves, which have a letter, and which are spelled in hexadecimal, singly or as two surrogates |
| CreateIntent.ScanFindsEverything | scripts/private_server_real_oidc_trusted_executor_contracts.py:190-200 | the scan passes exactly the documents with no forbidden name and no legacy format at any depth; in a document without forbidden names a legacy format is always refused as legacy |
| Offences.ScanTellsFirstOffence | scripts/private_server_real_oidc_trusted_executor_contracts.py:190-200 | the scan passes a document if and only if it holds no offence at any place, and otherwise gives the verdict of the offence that comes first in document order |
| Offences.PermittedTells | scripts/private_server_real_oidc_trusted_executor_contracts.py:190-200 | a document without forbidden names is one in which no place holds one |
| Offences.OneMemberTells | scripts/private_server_real_oidc_trusted_executor_contracts.py:48-98 | the seventeen names that are refused, and the twenty-four formats of the past |
| CreateIntent.BuiltIsSound | scripts/private_server_real_oidc_trusted_executor_contracts.py:190-369 | every document built from valid fields passes the scan and has a reversible byte form |
| ExecutorIngress.RootParts | scripts/private_server_real_oidc_trusted_executor_contracts.py:234-351 | a document is the built one exactly when its members are the expected ones |
| ExecutorIngress.ValidateResourceMap | scripts/private_server_real_oidc_trusted_executor_contracts.py:215-231 | accepts exactly the map that names every resource of the project as absent, and lists the names in order |
| ExecutorIngress.ImagesInOrder | scripts/private_server_real_oidc_trusted_executor_contracts.py:299-305 | sorting and counting accept exactly strictly increasing references with distinct ids |
| ExecutorIngress.ValidateImage | scripts/private_server_real_oidc_trusted_executor_contracts.py:287-298 | accepts exactly the closed objects with a valid reference and id |
| ExecutorIngress.ValidateImages | scripts/private_server_real_oidc_trusted_executor_contracts.py:283-305 | accepts exactly the lists built from five valid images |
| ExecutorIngress.ValidateBindings | scripts/private_server_real_oidc_trusted_executor_contracts.py:252-281 | accepts exactly the bindings built from valid fields, and tells them |
| ExecutorIngress.ValidatePrestate | scripts/private_server_real_oidc_trusted_executor_contracts.py:307-330 | accepts exactly the prestate of the project |
| ExecutorIngress.ValidatePostcondition | scripts/private_server_real_oidc_trusted_executor_contracts.py:332-351 | accepts exactly the fixed postcondition |
| ExecutorIngress.ValidateCreateIntent | scripts/private_server_real_oidc_trusted_executor_contracts.py:234-369 | accepts exactly the documents that can be rebuilt from valid fields, and tells these fields |
| IntentCodec.BuiltFits | scripts/private_server_real_oidc_trusted_executor_contracts.py:165-168 | no document built from valid fields exceeds the size limit |
| IntentCodec.BuildDetermines | scripts/private_server_real_oidc_trusted_executor_contracts.py:352-369 | a document determines the fields it was built from |
| IntentCodec.ParseIngress | scripts/private_server_real_oidc_trusted_executor_contracts.py:372-379 | accepts with given fields if and only if they are valid and the bytes are the canonical form of a document with exactly the ten members of a request for these fields, each with its literal value, `legacy_execution_accepted` false; calls an object legacy if and only if it is canonical, within 65536 characters, and the first of its offences is a legacy format |
| IntentShape.RequestInFull | scripts/private_server_real_oidc_trusted_executor_contracts.py:234-369 | the built documents are the objects with ten members whose values are, one by one, the literals, the bindings, the five images, the absent resources and the zero-start postcondition |
| IntentShape.HeadersInFull | scripts/private_server_real_oidc_trusted_executor_contracts.py:262-277 | the five fixed members, `legacy_execution_accepted` false among them |
| IntentShape.FieldsInFull | scripts/private_server_real_oidc_trusted_executor_contracts.py:252-305 | the fields that are valid: a project, two digests, two positive 63-bit numbers, five images in strictly ascending order with distinct identifiers |
| Sorting.SortedEqualExactly | scripts/activate_private_server_ingress.py:1260-1276 | sorting by distinct keys forgets the order before and nothing else |
| SecurityProjection.Project | scripts/activate_private_server_ingress.py:1246-1286 | refuses exactly containers without the three parts or with an empty or repeated mount destination, else prints the normalised parts |
| SecurityProjection.ProjectionInFull | scripts/activate_private_server_ingress.py:1246-1286 | the byte form of a projection: the three parts in this order, and the same mounts in ascending order of their destinations |
| SecurityProjection.PartsAreWellFormed | scripts/manage_private_server_ingress.py:1033-1073 | parts of a parsed container are well-formed |
| SecurityProjection.ProjectionsEqualExactly | scripts/manage_private_server_ingress.py:1033-1073 | two projections are equal bytes if and only if config, host config and the collection of mounts are equal |
| Ustar.FieldFound | scripts/prepare_private_server_runtime_release.py:1177-1200 | every field of a joined header is found at its offset |
| Ustar.ChecksumIgnoresItself | scripts/prepare_private_server_runtime_release.py:1177-1200 | the checksum does not depend on what its own field holds |
| Ustar.HeaderRoundTrip | scripts/prepare_private_server_runtime_release.py:1177-1200 | a written header reads back as the same metadata, with the magic where the reader looks |
| Ustar.HeaderName | scripts/prepare_private_server_runtime_release.py:1177-1200 | the name comes first, with a slash after that of a directory, and zeros to 100 |
| Ustar.HeaderLayout | scripts/prepare_private_server_runtime_release.py:1177-1200 | mode, no owner, no group and no time in octal, the type and the magic, byte by byte |
| Ustar.HeaderSize | scripts/prepare_private_server_runtime_release.py:1177-1200 | the size in eleven octal digits at 124 |
| Ustar.HeaderChecksum | scripts/prepare_private_server_runtime_release.py:1273-1288 | six octal digits, a NUL and a space at 148, whose value is the sum of all bytes with eight spaces in that field |
| Ustar.HeadersRead | scripts/prepare_private_server_runtime_release.py:1594-1606 | a block is read as a header if and only if its numbers can be read and its checksum is the sum of all bytes with eight spaces in that field |
| Archive.AddFile | scripts/prepare_private_server_runtime_release.py:1275-1287 | header, content and zeros up to a whole block are appended |
| Archive.Close | scripts/prepare_private_server_runtime_release.py:1273-1288 | two zero blocks and zeros to a whole record |
| Archive.WriteBundle | scripts/prepare_private_server_runtime_release.py:1273-1288 | the bundle is the pieces of all entries end to end, and zeros up to whole records of 10240 bytes, 1024 at least and no whole record too many |
| Archive.ExtractFile | scripts/prepare_private_server_runtime_release.py:1450-1514 | whatever part of each chunk the disk takes, a copy that succeeds is the member's bytes |
| Archive.CheckMember | scripts/prepare_private_server_runtime_release.py:1607-1634 | passes exactly members at the expected offset with magic, closed metadata and zero padding inside the file |
| Archive.CheckTrailer | scripts/prepare_private_server_runtime_release.py:1656-1668 | passes exactly at least two whole blocks of zeros |
| Archive.ExtractMembers | scripts/prepare_private_server_runtime_release.py:1606-1655 | every member lies where the one before ended, and the extracted nodes are the members' contents |
| Archive.ExtractOpenedBundle | scripts/prepare_private_server_runtime_release.py:1580-1668 | with a disk that works it accepts exactly the acceptable archives, and extracts exactly their contents |
| Archive.AcceptedIsTiled | scripts/prepare_private_server_runtime_release.py:1606-1668 | in an accepted archive the members' tiles and a zero trailer are the whole file |
| Archive.AcceptanceIsTiling | scripts/prepare_private_server_runtime_release.py:1596-1668 | for whatever member list the archive library reports, acceptance is the expected names, closed metadata and such a tiling |
| Archive.AcceptanceInFull | scripts/prepare_private_server_runtime_release.py:1596-1668 | acceptance in numbers: at most 128 members, in number and names as expected, no name twice, each where the one before it ended, and zeros to the end, at least 1024 and in whole blocks of 512 |
| Archive.FollowsTells | scripts/prepare_private_server_runtime_release.py:1607-1634 | one member by its bytes: header, magic at 257, metadata, data, and zeros up to a whole block |
| Archive.ExtractedTells | scripts/prepare_private_server_runtime_release.py:1635-1655 | what is extracted of an accepted archive is one node for each expected name, with the bytes behind its header |
| Archive.ListsExactly | scripts/prepare_private_server_runtime_release.py:1594-1606 | the member list of an archive is the one chain of readable headers in it, each where the one before it ends, until the archive is over; without such a chain there is none |
| Archive.MembersFound | scripts/prepare_private_server_runtime_release.py:1594-1606 | the member list of a written bundle is that of its entries, at their offsets |
| Archive.BundleRoundTrip | scripts/prepare_private_server_runtime_release.py:1177-1668 | a written bundle lists its entries, extracts to their contents, and is accepted if and only if no file is empty |
| Publication.StepKeeps | scripts/prepare_private_server_runtime_release.py:1912-2001 | every step of any stager keeps directories owned, and destinations absent, as at first, or complete |
| Publication.DestinationIsAbsentOrComplete | scripts/prepare_private_server_runtime_release.py:1912-2001 | at every point of every run a new destination names the verified contents of an accepted bundle and an old one is untouched |
| Publication.PublishedIsFinal | scripts/prepare_private_server_runtime_release.py:1875-1909 | a destination once there is never replaced and its contents never change |
| Publication.OnePublisher | scripts/prepare_private_server_runtime_release.py:1875-1909 | of the stagers with one destination at most one ever publishes |
| Publication.SuccessIsPublished | scripts/prepare_private_server_runtime_release.py:1962-2001 | a stager that reports success has published the contents of its own accepted bundle at a destination that was absent |
| Publication.UndisturbedStagerSucceeds | scripts/prepare_private_server_runtime_release.py:1912-2001 | a stager with an acceptable bundle and an absent destination can get to success; its destination then names the contents of its bundle and nothing else has changed |
| PowerLoss.CrashIsSafeExactly | scripts/prepare_private_server_runtime_release.py:1969-1975 | a host crash leaves every destination as at first, absent or complete if and only if the trees of all new ones were written back |
| PowerLoss.CrashMayTakeAll | scripts/prepare_private_server_runtime_release.py:1969-1975 | the crashes considered are that bad: any entries not settled and any tree not written back may be lost at once |
| PowerLoss.DestinationSurvives | scripts/prepare_private_server_runtime_release.py:1912-2001 | the same at every point of every run with such host crashes |
| PowerLoss.SuccessSurvives | scripts/prepare_private_server_runtime_release.py:1969-2001 | a reported success stays published with its own contents across such host crashes |
| PowerLoss.SuccessMayBeTorn | scripts/prepare_private_server_runtime_release.py:1969-2001 | otherwise a destination reported as published may name an incomplete tree after a host crash |
| Paths.SplitJoins | scripts/check_private_server_source_readiness.py:573-591 | component lists without slash are told apart by their joined text |
| Symlinks.ResolvedLinkTarget | scripts/check_private_server_source_readiness.py:561-591 | the push and pop loop computes the lexical walk from the link's directory |
| Symlinks.TargetTells | scripts/check_private_server_source_readiness.py:561-591 | a link has a target if and only if its text is relative, of 1 to 100 bytes without NUL and backslash, and walks from the link's directory to a place below the root |
| Symlinks.WalkComposes | scripts/check_private_server_source_readiness.py:573-588 | walking two component lists one after the other is one walk |
| Symlinks.WalkStaysInside | scripts/check_private_server_source_readiness.py:573-590 | a walk succeeds if and only if no prefix climbs above the root and every name is allowed, and ends as deep as its steps add up to |
| Symlinks.WalkNormalises | scripts/check_private_server_source_readiness.py:573-591 | a resolved target holds no empty, dot or dot-dot component |
| Symlinks.RecordParents | scripts/check_private_server_source_readiness.py:597-603 | records the missing directories above a path, or finds one of them known as something else |
| Symlinks.RecordKinds | scripts/check_private_server_source_readiness.py:597-608 | succeeds exactly when no path repeats or lies below another, and then tells every path's kind |
| Symlinks.TreeListIsTree | scripts/check_private_server_source_readiness.py:597-608 | that condition does not depend on the order of the entries |
| Symlinks.ResolveLinks | scripts/check_private_server_source_readiness.py:610-614 | succeeds exactly when every link has a target, and then the table holds them |
| Symlinks.FollowChain | scripts/check_private_server_source_readiness.py:615-626 | terminates, and succeeds exactly when the chain reaches a recorded non-link in finitely many hops |
| Symlinks.LoopsNeverStop | scripts/check_private_server_source_readiness.py:618-623 | links that lead only to one another never end |
| Symlinks.ValidateSymlinks | scripts/check_private_server_source_readiness.py:594-626 | accepts, for entries in any order, exactly trees without clashing paths in which every link resolves and its chain ends at a recorded file or directory |
| Symlinks.EndsTell | scripts/check_private_server_source_readiness.py:615-626 | a chain is over at a recorded directory or file, and otherwise goes on at the target of a recorded link |
| Symlinks.SoundTells | scripts/check_private_server_source_readiness.py:594-626 | what is accepted: no path twice or below another, every link with a target and a chain that ends |
| PhysicalLinks.GroundedStep | scripts/check_private_server_source_readiness.py:573-588 | a target whose unnamed steps are all taken from directories is resolved on disk step by step as it is as text |
| PhysicalLinks.GroundedLinksAgree | scripts/check_private_server_source_readiness.py:594-626 | in an accepted tree of such links every link ends on disk, inside the tree, at the end of its lexical chain |
| PhysicalLinks.UngroundedFails | scripts/check_private_server_source_readiness.py:573-588 | otherwise, unless such a step is taken at or below a link, resolving on disk fails |
| PhysicalLinks.PlacesTell | scripts/check_private_server_source_readiness.py:573-588 | what grounded and clear of links mean: at each empty, dot or dot-dot step, the place the walk has come to is a directory, or has no link on its way |
| PhysicalLinks.AgreeExactlyWhenGrounded | scripts/check_private_server_source_readiness.py:594-626 | in an accepted tree without such steps at or below links, text and disk agree on all links if and only if all unnamed steps are taken from directories |
| PhysicalLinks.TextAndDiskPart | scripts/check_private_server_source_readiness.py:561-626 | an accepted tree with a link that names a recorded file as text and climbs above the root on disk |
| Framing.StreamsDetermine | scripts/manage_local_internal_sandbox.py:701-726 | a stream of self-delimiting records spells one list of records |
| Framing.ManagedStreamsDetermine | scripts/manage_local_internal_sandbox.py:701-726 | equal streams of D and F records list the same paths, kinds, modes and content digests |
| Framing.SourceStreamsDetermine | scripts/check_private_server_source_readiness.py:645-659 | equal source streams bind the same modes, paths, lengths and digests |
| Framing.ReleaseStreamsDetermine | scripts/manage_private_server_ingress.py:557-570 | equal length-prefixed streams list the same inventory |
| TreeHash.PushedComeNext | scripts/manage_local_internal_sandbox.py:705-712 | children pushed in descending order are visited next, in ascending order |
| TreeHash.Enter | scripts/manage_local_internal_sandbox.py:690-726 | one node is accepted exactly when it is fit and the running total stays in bound, and adds its record |
| TreeHash.Drain | scripts/manage_local_internal_sandbox.py:688-726 | the loop terminates and feeds exactly the recursive traversal of the stack |
| TreeHash.BuildSourceStream | scripts/manage_local_internal_sandbox.py:673-727 | one stack with all roots: succeeds exactly when every shown place is a readable directory or a file with one link whose data is there and as long as its size, and the sizes add up to at most 134217728; then streams the roots in order |
| TreeHash.InputTreeStream | scripts/manage_local_internal_sandbox.py:1297-1334 | a stack per root with one running total does the same, up to 33554432 bytes |
| TreeHash.WalkAccepts | scripts/manage_local_internal_sandbox.py:690-723 | the walk accepts exactly the trees that are digestible by recursion on the tree, and counts the bytes they show |
| TreeHash.NoteSpelled | scripts/manage_local_internal_sandbox.py:701-726 | what each visited place adds to the stream, byte by byte |
| TreeHash.WalkNotesWhatShows | scripts/manage_local_internal_sandbox.py:688-726 | the walk notes every visible directory and file and nothing else |
| TreeHash.WalkAscends | scripts/manage_local_internal_sandbox.py:705-712 | a directory comes before what it holds and names come in order, each place once |
| TreeHash.NodesDetermine | scripts/manage_local_internal_sandbox.py:673-727 | two trees have the same notes if and only if they show the same names, kinds, modes and content digests |
| TreeHash.StreamsIdentifyTrees | scripts/manage_local_internal_sandbox.py:673-727 | two lists of trees feed the digest the same bytes if and only if they show the same, in whatever order directories were listed |
| Merge.EffectiveEnvironment | scripts/collect_private_server_real_oidc_post_create.py:1002-1030 | Compose values over image values, and an account that tells the sizes of both maps, of their overlap and of the rest |
| Merge.AccountTells | scripts/collect_private_server_real_oidc_post_create.py:1002-1030 | the numbers of the account are those of the keys in each map, in both, in the image alone and in either; and which of the four sources it names |
| Merge.CollectedIsValid | scripts/preflight_private_server_real_oidc.py:1964-1992 | the validator accepts every account the collector gives |
| Merge.ValidIsCollected | scripts/preflight_private_server_real_oidc.py:1964-1992 | whatever the validator accepts is the account of some pair of maps with those counts |
| Merge.EnvironmentAgreement | scripts/preflight_private_server_real_oidc.py:260-281 | both together: the validator accepts exactly the accounts of maps with the counts it knows |
| Merge.EffectiveHealthcheck | scripts/collect_private_server_real_oidc_post_create.py:1033-1086 | every field is taken from Compose, else from the image, else zero, and the account says from where |
| Merge.HealthcheckInFull | scripts/collect_private_server_real_oidc_post_create.py:1033-1086 | the six values and the six accounts, each from its own field |
| Merge.DeriveHealthcheck | scripts/preflight_private_server_real_oidc.py:2005-2036 | from presence bits alone the validator derives the account the collector gives, for every image with those bits |
| Ports.PortReads | scripts/collect_private_server_real_oidc_post_create.py:35-37 | the pattern matches exactly the one text of each port |
| Ports.PortsRead | scripts/collect_private_server_real_oidc_post_create.py:35-37 | a text that is read is a number from 1 to 65535 without leading zeros and one of three protocols, and every such text is read |
| Ports.SafeConfigPorts | scripts/collect_private_server_real_oidc_post_create.py:740-757 | succeeds exactly when the configuration exposes some set of ports, each with an empty value, and lists that set in ascending order |
| Ports.SafeExposedPortList | scripts/preflight_private_server_real_oidc.py:1749-1768 | accepts exactly the texts of strictly ascending lists of ports |
| Ports.CollectPorts | scripts/collect_private_server_real_oidc_post_create.py:1311-1319 | accepts a container if and only if it exposes the union of image and published ports, and accounts for that union in ascending order with its size |
| Ports.AccountTells | scripts/collect_private_server_real_oidc_post_create.py:1311-1319 | the account holds every port of either list once in ascending order, and the two numbers |
| Ports.ListsTell | scripts/collect_private_server_real_oidc_post_create.py:740-757 | ascending is by number, and for one number sctp before tcp before udp |
| Ports.ExpectedPorts | scripts/preflight_private_server_real_oidc.py:2094-2108 | accounts for the same union, whatever the order and the repeats in both lists |
| Ports.PortsAgree | scripts/preflight_private_server_real_oidc.py:2094-2108 | collector and validator give equal accounts if and only if their lists have the same union and as many ports are published |
| Cidr.BlocksNestOrPart | scripts/manage_local_internal_sandbox.py:935-979 | two prefix blocks are nested or disjoint, and testing their ends tells whether they share an address |
| Cidr.ClosedSubnets | scripts/manage_local_internal_sandbox.py:473-494 | accepts exactly four distinct strict private networks of 24 bits |
| Cidr.AdmittedTells | scripts/prepare_internal_sandbox_compose_inputs.py:224-240 | admitted are the networks of 24 bits inside 10.0.0.0/8, 172.16.0.0/12 and 192.168.0.0/16 without host bits |
| Cidr.AdmittedIsPrivate | scripts/prepare_internal_sandbox_compose_inputs.py:224-240 | every address of an accepted network is private |
| Cidr.AdmittedAreDisjoint | scripts/prepare_internal_sandbox_compose_inputs.py:224-247 | two distinct accepted networks share no address |
| Cidr.CheckConfig | scripts/manage_local_internal_sandbox.py:965-979 | one reported configuration passes exactly when it is no IPv4 subnet or shares no address with a proposed network |
| Cidr.ClearTells | scripts/manage_local_internal_sandbox.py:965-979 | a configuration stands in the way exactly when some address lies in a proposed network and, under its own prefix, in the reported one |
| Cidr.CidrsUnused | scripts/manage_local_internal_sandbox.py:935-979 | passes exactly when Docker reports no network, or one readable document for each and none shares an address with a proposed network |
| ComposeInputs.DotenvReadsBack | scripts/activate_private_server_ingress.py:445-463 | a path is written exactly when it can be quoted, and the unquoting reads it back |
| ComposeInputs.DotenvTells | scripts/prepare_internal_sandbox_compose_inputs.py:213-221 | a path is written bare, in quotes or not at all, by the characters in it |
| ComposeInputs.ParseLines | scripts/activate_private_server_ingress.py:475-480 | succeeds exactly when every line has a key and an item, and returns them |
| ComposeInputs.RenderingParses | scripts/prepare_internal_sandbox_compose_inputs.py:158-172 | a rendered file has the seven lines the reader looks for |
| ComposeInputs.TextInFull | scripts/prepare_internal_sandbox_compose_inputs.py:158-172 | the rendered file line by line |
| ComposeInputs.RenderingInFull | scripts/prepare_internal_sandbox_compose_inputs.py:158-172 | it is written exactly when tag and bundle are tokens and all six paths can be |
| ComposeInputs.RenderableRoots | scripts/prepare_internal_sandbox_compose_inputs.py:213-221 | the renderer refuses exactly the roots with NUL, line feed, carriage return, quote or backslash |
| ComposeInputs.ValidateEnv | scripts/activate_private_server_ingress.py:466-502 | returns a tag and a bundle name if and only if the text is their rendering for this root, no frozen token is in it and the root is one line to the parser |
| ComposeInputs.SeparatorRootIsStranded | scripts/activate_private_server_ingress.py:475-480 | a root with any other line separator is rendered although the reader refuses it |
| Addresses.NetworkReads | scripts/activate_private_server_ingress.py:513-517 | the text of a network reads back as that network |
| Addresses.MasksRead | scripts/activate_private_server_ingress.py:513-517 | the texts of a prefix are its zero-padded digits, its netmask and, between the extremes, its hostmask, and no others |
| Addresses.NetworksRead | scripts/activate_private_server_ingress.py:513-517 | a text reads as a network if and only if it is that address with such a mask, or the address alone for 32 bits |
| ComposeSubnets.FrozenTokenShows | scripts/activate_private_server_ingress.py:505-524 | a frozen token anywhere in a file of four closed networks, however their prefixes are written, means that one of the four is frozen |
| ComposeSubnets.FrozenIsSeen | scripts/activate_private_server_ingress.py:505-524 | the rendering of four closed networks holds a frozen token if and only if one of them is frozen |
| ComposeSubnets.ValidateIpam | scripts/activate_private_server_ingress.py:505-533 | returns four closed thawed networks the text is written from, and refuses only texts that are written from none |
| ComposeSubnets.AcceptedTexts | scripts/activate_private_server_ingress.py:158-164 | the reader's checks pass if and only if the four networks are closed and thawed and the text is their rendering but for the spelling of the four prefixes |
| ComposeSubnets.MasksOf24 | scripts/activate_private_server_ingress.py:513-517 | the texts of the prefix 24 are 24 after any number of zeros, 255.255.255.0 and 0.0.0.255 |
| ComposeSubnets.RenderingInFull | scripts/prepare_internal_sandbox_compose_inputs.py:173-188 | the rendered file word by word |
| ComposeSubnets.AcceptedIsClosed | scripts/activate_private_server_ingress.py:512-527 | accepted networks are four distinct private ones of 24 bits, none of them frozen |
| ComposeSubnets.IpamRoundTrip | scripts/prepare_internal_sandbox_compose_inputs.py:173-188 | the rendering of four closed networks is accepted as these networks if and only if none of them is frozen |

## Left out

- The scripts' long field-by-field validators (Compose configuration, container and network inspection, labels, provenance and SPDX documents) are one branch per claim; they enter as one check that may fail.
- What the commands do when the line with their result cannot be written to standard output.
- Ownership, mode bits, link counts of directories, races with other processes on the same paths, failures of `close` and command timeouts.
- IngressProtocol.ExitCodesTell: an interrupt that reaches `main` outside the guarded section is not modelled.
- IngressManager.Manage: a daemon changed only by the manager also leaves every stopped container exited and never fails a command; against any other daemon only the effect contract is claimed.
- LocalStart.Trial.Start: prerequisites, image and configuration checks are commands that may fail, not modelled further; an interrupt counts as the death of the process or as the failure of a step.
- LocalStart.AtMostOnce: a command counts as issued once it is handed to the process runner, also when it cannot be spawned.
- Provisioning.RerunIsAcceptable: runs are serialised by the database's advisory lock, and tokens are taken to be valid and different from every other credential, as the generator makes them.
- Provisioning.Deployment.PrepareCredentials: a staging directory whose removal fails in turn is left behind; a database commit is taken to survive a host crash.
- CanonicalForm.AcceptedFormsAreCanonical: texts stand for decoded UTF-8; Python's limits on digits of integers and on nesting depth are not modelled.
- SecurityProjection.ProjectionsEqualExactly: documents have integers only; the local sandbox's projection, which also takes mounts without destination, is not modelled.
- Ustar.HeaderRoundTrip: number fields are read as plain octal among blanks; base-256 numbers, signed checksums and other spellings Python tolerates are not modelled. Acceptance and tiling are proved for every member list, so they do not depend on it.
- Archive.MembersFound: member names are bytes; extended headers, long names and sparse members end the list as a refusal, because their data never follows their header.
- Publication.DestinationIsAbsentOrComplete: only stagers act on the parent directory, and the validation of extracted contents is an arbitrary fixed check; host crashes are in `PowerLoss`.
- PowerLoss.CrashIsSafeExactly: a torn tree is any part of its files and directories, and files that were synced are taken to be intact.
- Archive.WriteBundle: the bundle file itself is published by the same no-replace rename as a staged directory, and its size limit and the re-reading before that rename are not modelled again.
- Symlinks.ValidateSymlinks: Unicode normal form, control characters and bad UTF-8 in a target are one fact about the entry.
- PhysicalLinks.AgreeExactlyWhenGrounded: a dot-dot step taken at or below a link may by chance end where the text does, and is not characterised.
- TreeHash.BuildSourceStream: the excluded names of the build source are an arbitrary predicate on paths.
- TreeHash.InputTreeStream: the comparison of the root's names with the expected set precedes the walk and is not modelled.
- TreeHash.WalkAscends: names are bytes; ordering UTF-8 bytes is ordering code points.
- Framing.ReleaseStreamsDetermine: the walk over the closed table of release inputs is a loop over constants and is not modelled.
- Merge.EnvironmentAgreement: limits on the number and length of entries are not modelled.
- Cidr.CidrsUnused: texts are taken as read by the address library; IPv6 subnets and texts it cannot read are skipped, as in the source.
- ComposeInputs.ValidateEnv: texts stand for decoded UTF-8, and a root that starts with exactly two slashes is not modelled.
- Addresses.MasksRead: Python's limit on the digits of an integer, which bounds the zero-padding, is not modelled.
- Ports.CollectPorts: published container ports are taken to lie between 1 and 65535, as Compose resolves them.
- Network clients, TLS preparation, the browser test driver, the guard firewall, and the real-OIDC activation and management plans.
