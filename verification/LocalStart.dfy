/** The fresh start of a prepared local root: a recorded attempt, a build, a launch and a receipt,
    at most once although the process may die in any step. */
module LocalStart {
  import opened Prelude
  import opened CanonicalJson
  import opened Faults
  import CanonicalForm

  // --------------------------------------------------------------------------------------------
  // State
  // --------------------------------------------------------------------------------------------

  /** A file of the metadata directory. The directory is never synced, so a host crash may take
      the entry, and of content that was not synced the end. */
  datatype File = Missing | Present(content: string, synced: bool)

  /** What a start does that outlives it: the two commands, and the creation of the receipt. */
  datatype Action = Build | Up | Record

  const STEPS := [Build, Up, Record]

  /** The two files, whether Docker knows one of the image tags or a resource of the project, and
      everything done so far. A command is done once it is handed over, also when it then fails. */
  datatype World = World(attempt: File, receipt: File, images: bool, project: bool, log: seq<Action>)

  datatype Outcome = Exit(code: nat) | Died

  function Whole(doc: Json): File {
    Present(Canonical(doc), true)
  }

  /** What an exclusive write of the document may leave when it does not return. */
  predicate Partial(f: File, doc: Json) {
    f.Present? ==> f.content <= Canonical(doc) && (f.synced ==> f == Whole(doc))
  }

  /** Nothing is left of an earlier start. */
  predicate Clear(w: World) {
    w.attempt.Missing? && w.receipt.Missing? && !w.images && !w.project
  }

  predicate Issued(c: Action, before: seq<Action>, after: seq<Action>) {
    |before| <= |after| && c in after[|before|..]
  }

  /** What a start did, in this order; the project exists only after the launch. */
  predicate Steps(before: seq<Action>, after: seq<Action>, recorded: bool, project: bool) {
    && before <= after && after[|before|..] <= STEPS
    && (recorded <==> Issued(Record, before, after))
    && (project ==> Issued(Up, before, after))
  }

  /** Everything one start may do, wherever it fails or dies. */
  predicate StartEffect(w: World, v: World, attempt: Json, receipt: Json) {
    || v == w
    || (&& Clear(w) && Partial(v.attempt, attempt)
        && v == w.(attempt := v.attempt))
    || (&& Clear(w) && v.log != w.log && v.attempt == Whole(attempt) && Partial(v.receipt, receipt)
        && Steps(w.log, v.log, v.receipt.Present?, v.project))
  }

  lemma NothingWritten(doc: Json)
    ensures Partial(Missing, doc)
  {
  }

  lemma NotIssued(log: seq<Action>)
    ensures !Issued(Build, log, log)
  {
  }

  lemma NothingIsEffect(w: World, attempt: Json, receipt: Json)
    ensures StartEffect(w, w, attempt, receipt)
  {
  }

  /** Either the attempt alone was written, or it is whole and the steps followed. */
  lemma WrittenIsEffect(w: World, v: World, attempt: Json, receipt: Json)
    requires Clear(w) && Partial(v.attempt, attempt) && Partial(v.receipt, receipt)
    requires v.log == w.log ==> v == w.(attempt := v.attempt)
    requires v.log != w.log ==> v.attempt == Whole(attempt) && Steps(w.log, v.log, v.receipt.Present?, v.project)
    ensures StartEffect(w, v, attempt, receipt)
  {
  }

  lemma StepsTaken(before: seq<Action>, after: seq<Action>, n: nat, recorded: bool, project: bool)
    requires n <= 3 && (recorded <==> n == 3) && (project ==> n >= 2)
    requires n == 0 ==> after == before
    requires n == 1 ==> after == before + [Build]
    requires n == 2 ==> after == before + [Build] + [Up]
    requires n == 3 ==> after == before + [Build] + [Up] + [Record]
    ensures Steps(before, after, recorded, project)
    ensures Issued(Build, before, after) <==> n >= 1
    ensures n == 3 ==> after == before + [Build, Up, Record]
  {
    assert after[|before|..] == STEPS[..n];
    assert STEPS[..n] == if n == 0 then [] else if n == 1 then [Build] else if n == 2 then [Build, Up] else STEPS;
  }

  // --------------------------------------------------------------------------------------------
  // One start
  // --------------------------------------------------------------------------------------------

  /** The operations a start depends on. */
  datatype Op =
    | LoadPrepared | LookAtDocker | LookAtNetworks
    | CreateFile | SetMode | SyncFile | CloseFile
    | BuildImages | VerifyImages | LaunchProject | CaptureProject

  const WRITING := [CreateFile, SetMode, SyncFile, CloseFile]

  const CHECKING := [LoadPrepared, LookAtDocker, LookAtNetworks]

  const LAUNCHING := [BuildImages, VerifyImages, LaunchProject, CaptureProject] + WRITING

  /** Everything looked at; the attempt recorded, whole and synced; then the build, its result verified,
      the launch, its result captured; and the receipt, whole and synced. */
  const PLAN := CHECKING + WRITING + LAUNCHING

  lemma PlanInFull()
    ensures PLAN == [
      LoadPrepared, LookAtDocker, LookAtNetworks,
      CreateFile, SetMode, SyncFile, CloseFile,
      BuildImages, VerifyImages, LaunchProject, CaptureProject,
      CreateFile, SetMode, SyncFile, CloseFile]
    ensures PLAN[0..3] == CHECKING && PLAN[3..7] == WRITING && PLAN[7..15] == LAUNCHING
    ensures |CHECKING| == 3 && |WRITING| == 4 && |LAUNCHING| == 8 && |PLAN| == 15
  {
  }

  lemma WritingInOrder()
    ensures |WRITING| == 4 && WRITING[0] == CreateFile && WRITING[1] == SetMode
    ensures WRITING[2] == SyncFile && WRITING[3] == CloseFile
  {
  }

  lemma CheckingInOrder()
    ensures |CHECKING| == 3 && CHECKING[0] == LoadPrepared && CHECKING[1] == LookAtDocker && CHECKING[2] == LookAtNetworks
  {
  }

  lemma LaunchingInOrder()
    ensures |LAUNCHING| == 8 && LAUNCHING[0] == BuildImages && LAUNCHING[1] == VerifyImages
    ensures LAUNCHING[2] == LaunchProject && LAUNCHING[3] == CaptureProject && LAUNCHING[4..4 + |WRITING|] == WRITING
    ensures |WRITING| == 4
  {
  }

  /** One prepared root. */
  class Trial {
    var attempt: File   // start-attempt.json
    var receipt: File   // start-receipt.json
    var images: bool
    var project: bool
    var log: seq<Action>
    ghost var steps: seq<Op>  // what returned, over all starts

    constructor ()
      ensures Now() == World(Missing, Missing, false, false, [])
    {
      attempt, receipt, images, project, log := Missing, Missing, false, false, [];
      steps := [];
    }

    function Now(): World
      reads this
    {
      World(attempt, receipt, images, project, log)
    }

    /** The next operation of the plan begun at `origin`. */
    method Do(op: Op, faultless: bool, ghost origin: seq<Op>, ghost plan: seq<Op>) returns (reply: Reply)
      requires Along(origin, steps, plan) && |steps| < |origin| + |plan| && plan[|steps| - |origin|] == op
      modifies this`steps
      ensures faultless ==> reply == Done
      ensures steps == if reply == Done then old(steps) + [op] else old(steps)
      ensures Along(origin, steps, plan)
    {
      reply := Attempt(faultless);
      if reply == Done {
        NextDone(origin, steps, plan);
        steps := steps + [op];
      }
    }

    /** Exclusive create, write in as many pieces as the disk likes, sync, close. */
    method WriteNew(doc: Json, faultless: bool) returns (file: File, reply: Reply)
      modifies this`steps
      ensures Partial(file, doc)
      ensures reply == Done ==> file == Present(Canonical(doc), true)
      ensures faultless ==> reply == Done
      ensures Along(old(steps), steps, WRITING) && (reply == Done ==> |steps| == |old(steps)| + 4)
    {
      WritingInOrder();
      hide Along, WRITING, Canonical;
      NothingDone(steps, WRITING);
      var data := Canonical(doc);
      file := Missing;
      reply := Do(CreateFile, faultless, old(steps), WRITING);
      var created: bool := *;
      if reply == Done || (reply == Dead && created) {
        file := Present("", false);
      }
      if reply != Done { return; }
      reply := Do(SetMode, faultless, old(steps), WRITING);
      if reply != Done { return; }
      var written := 0;
      while written < |data|
        invariant 0 <= written <= |data| && file == Present(data[..written], false)
        invariant Along(old(steps), steps, WRITING) && |steps| == |old(steps)| + 2
      {
        reply := Attempt(faultless);
        if reply == Raised { return; }
        var count :| (if faultless then 1 else 0) <= count <= |data| - written;
        written := written + count;
        file := Present(data[..written], false);
        if reply == Dead { return; }
        if count == 0 {
          reply := Raised;
          return;
        }
      }
      assert data[..written] == data;
      reply := Do(SyncFile, faultless, old(steps), WRITING);
      var synced: bool := *;
      file := Present(data, reply == Done || synced);
      if reply != Done { return; }
      reply := Do(CloseFile, faultless, old(steps), WRITING);
    }

    /** Issues the build or the launch; the process may die just before it is handed over. */
    method Run(c: Action, faultless: bool, ghost origin: seq<Op>) returns (reply: Reply)
      requires c != Record && Along(origin, steps, LAUNCHING) && |steps| < |origin| + |LAUNCHING|
      requires LAUNCHING[|steps| - |origin|] == if c == Build then BuildImages else LaunchProject
      modifies this`images, this`project, this`log, this`steps
      ensures faultless ==> reply == Done
      ensures if log == old(log) then reply == Dead else log == old(log) + [c]
      ensures log == old(log) || c == Up ==> images == old(images)
      ensures log == old(log) || c == Build ==> project == old(project)
      ensures Along(origin, steps, LAUNCHING) && |steps| == |old(steps)| + if reply == Done then 1 else 0
    {
      hide Along, LAUNCHING;
      reply := Do(if c == Build then BuildImages else LaunchProject, faultless, origin, LAUNCHING);
      var handedOver: bool := *;
      if reply == Dead && !handedOver { return; }
      log := log + [c];
      var effect: bool := *;
      if c == Build {
        images := images || reply == Done || effect;
      } else {
        project := project || reply == Done || effect;
      }
    }

    /** The part in which every error means that something may have changed. */
    method BuildAndLaunch(receiptDoc: Json, faultless: bool) returns (o: Outcome)
      requires receipt.Missing? && !project
      modifies this`receipt, this`images, this`project, this`log, this`steps
      ensures o.Exit? ==> o.code in {0, 75} && Issued(Build, old(log), log)
      ensures o == Exit(0) ==> log == old(log) + [Build, Up, Record] && receipt == Present(Canonical(receiptDoc), true)
      ensures faultless ==> o == Exit(0)
      ensures Partial(receipt, receiptDoc)
      ensures Steps(old(log), log, receipt.Present?, project)
      ensures log == old(log) ==> receipt == old(receipt) && images == old(images) && project == old(project)
      ensures Along(old(steps), steps, LAUNCHING) && (o == Exit(0) ==> |steps| == |old(steps)| + 8)
    {
      ghost var before := log;
      LaunchingInOrder();
      NothingDone(steps, LAUNCHING);
      assert Partial(receipt, receiptDoc);
      hide Issued, Partial, Steps, Canonical, Along, LAUNCHING, WRITING, STEPS;
      var reply;
      ghost var n;
      reply, n := Launch(faultless);
      if reply == Done {
        ghost var was := steps;
        receipt, reply := WriteNew(receiptDoc, faultless);
        PartDone(old(steps), was, steps, LAUNCHING, WRITING);
        if receipt.Present? {
          log := log + [Record];
          n := 3;
        }
      }
      StepsTaken(before, log, n, receipt.Present?, project);
      return if reply == Done then Exit(0) else Ended(reply, 75);
    }

    /** The two commands, each with the look at what it led to; `n` of them were issued. */
    method Launch(faultless: bool) returns (reply: Reply, ghost n: nat)
      requires !project
      modifies this`images, this`project, this`log, this`steps
      ensures n <= 2 && (reply == Raised ==> n >= 1) && (reply == Done ==> n == 2) && (faultless ==> reply == Done)
      ensures log == if n == 0 then old(log) else if n == 1 then old(log) + [Build] else old(log) + [Build] + [Up]
      ensures n == 0 ==> images == old(images)
      ensures n < 2 ==> !project
      ensures Along(old(steps), steps, LAUNCHING) && (reply == Done ==> |steps| == |old(steps)| + 4)
    {
      LaunchingInOrder();
      NothingDone(steps, LAUNCHING);
      hide Along, LAUNCHING, WRITING;
      reply := Run(Build, faultless, old(steps));
      n := if log == old(log) then 0 else 1;
      if reply != Done { return; }
      reply := Do(VerifyImages, faultless, old(steps), LAUNCHING);  // and source binding, resolved configuration
      if reply != Done { return; }
      reply := Run(Up, faultless, old(steps));
      n := if log == old(log) + [Build] then 1 else 2;
      if reply != Done { return; }
      reply := Do(CaptureProject, faultless, old(steps), LAUNCHING);
    }

    /** Everything looked at before anything is changed. */
    method Check(prepared: bool, faultless: bool) returns (refused: Option<Outcome>)
      modifies this`steps
      ensures refused.None? ==> prepared && attempt.Missing? && receipt.Missing? && !images && !project
      ensures refused.Some? ==> refused.value in {Exit(78), Died}
      ensures faultless ==>
        refused == if prepared && attempt.Missing? && receipt.Missing? && !images && !project then None else Some(Exit(78))
      ensures Along(old(steps), steps, CHECKING) && (refused.None? ==> |steps| == |old(steps)| + 3)
    {
      CheckingInOrder();
      NothingDone(steps, CHECKING);
      hide Along, CHECKING;
      var reply := Do(LoadPrepared, faultless, old(steps), CHECKING);
      if reply != Done { return Some(Ended(reply, 78)); }
      if !prepared || attempt.Present? || receipt.Present? { return Some(Exit(78)); }
      reply := Do(LookAtDocker, faultless, old(steps), CHECKING);
      if reply != Done { return Some(Ended(reply, 78)); }
      if project || images { return Some(Exit(78)); }
      reply := Do(LookAtNetworks, faultless, old(steps), CHECKING);  // and port, resolved configuration
      if reply != Done { return Some(Ended(reply, 78)); }
      return None;
    }

    /** The start command, up to its exit code. */
    method Start(prepared: bool, attemptDoc: Json, receiptDoc: Json, faultless: bool) returns (o: Outcome)
      modifies this
      ensures StartEffect(old(Now()), Now(), attemptDoc, receiptDoc)
      ensures faultless ==>
        o == Exit(if prepared && old(attempt).Missing? && old(receipt).Missing? && !old(images) && !old(project) then 0 else 78)
      ensures o == Exit(0) || Now() != old(Now()) ==>
        prepared && old(attempt).Missing? && old(receipt).Missing? && !old(images) && !old(project)
      ensures o.Exit? ==> o.code in {0, 75, 78} && (o.code == 75 <==> o.code != 0 && Issued(Build, old(log), log))
      ensures o == Exit(0) ==>
        && log == old(log) + [Build, Up, Record]
        && attempt == Present(Canonical(attemptDoc), true) && receipt == Present(Canonical(receiptDoc), true)
      ensures o == Exit(78) ==> log == old(log) && receipt == old(receipt) && images == old(images) && project == old(project)
      ensures Along(old(steps), steps, PLAN)
      ensures o == Exit(0) ==> steps == old(steps) + PLAN
    {
      PlanInFull();
      NothingDone(steps, PLAN);
      NothingIsEffect(Now(), attemptDoc, receiptDoc);
      hide Partial, Steps, Along, PLAN, CHECKING, WRITING, LAUNCHING, Canonical, StartEffect, Issued;
      NotIssued(log);
      var refused := Check(prepared, faultless);
      PartDone(old(steps), old(steps), steps, PLAN, CHECKING);
      if refused.Some? { return refused.value; }
      var reply: Reply;
      ghost var was := steps;
      attempt, reply := WriteNew(attemptDoc, faultless);
      PartDone(old(steps), was, steps, PLAN, WRITING);
      if reply == Done {
        was := steps;
        o := BuildAndLaunch(receiptDoc, faultless);
        PartDone(old(steps), was, steps, PLAN, LAUNCHING);
      } else {
        NothingWritten(receiptDoc);
        o := Ended(reply, 78);
      }
      WrittenIsEffect(old(Now()), Now(), attemptDoc, receiptDoc);
      AllDone(old(steps), steps, PLAN);
    }

    function Ended(reply: Reply, code: nat): (o: Outcome)
      requires reply != Done
      ensures o == if reply == Dead then Died else Exit(code)
    {
      if reply == Dead then Died else Exit(code)
    }
  }

  // --------------------------------------------------------------------------------------------
  // Any sequence of starts and host crashes
  // --------------------------------------------------------------------------------------------

  /** A start with the two documents it would write, a host crash, or others at work on Docker. */
  datatype Event = Started(attempt: Json, receipt: Json) | Crashed | Moved

  /** What a host crash leaves of a file. */
  predicate Survived(f: File, g: File) {
    || g.Missing?
    || (f.Present? && g.content <= f.content && g.synced == f.synced && (f.synced ==> g == f))
  }

  predicate Step(w: World, e: Event, v: World) {
    match e
    case Started(attempt, receipt) => WellFormed(attempt) && WellFormed(receipt) && StartEffect(w, v, attempt, receipt)
    case Crashed =>
      && Survived(w.attempt, v.attempt) && Survived(w.receipt, v.receipt)
      && v == w.(attempt := v.attempt, receipt := v.receipt)
    case Moved => v == w.(images := v.images, project := v.project)
  }

  ghost predicate History(worlds: seq<World>, events: seq<Event>) {
    && |worlds| == |events| + 1
    && worlds[0].attempt.Missing? && worlds[0].receipt.Missing? && worlds[0].log == []
    && forall i :: 0 <= i < |events| ==> Step(worlds[i], events[i], worlds[i + 1])
  }

  predicate Lost(w: World, v: World) {
    w.attempt.Present? && v.attempt.Missing?
  }

  /** How often the recorded attempt vanished in the first k steps. */
  function Losses(worlds: seq<World>, k: nat): nat
    requires k < |worlds|
  {
    if k == 0 then 0 else Losses(worlds, k - 1) + if Lost(worlds[k - 1], worlds[k]) then 1 else 0
  }

  function Times(c: Action, log: seq<Action>): nat {
    multiset(log)[c]
  }

  /** The losses are the steps that find the attempt and leave none. */
  lemma {:induction false} LossesTell(worlds: seq<World>, k: nat)
    requires k < |worlds|
    ensures Losses(worlds, k) == |set i | 0 <= i < k && worlds[i].attempt.Present? && worlds[i + 1].attempt.Missing?|
  {
    var at := set i | 0 <= i < k && worlds[i].attempt.Present? && worlds[i + 1].attempt.Missing?;
    if k > 0 {
      LossesTell(worlds, k - 1);
      var before := set i | 0 <= i < k - 1 && worlds[i].attempt.Present? && worlds[i + 1].attempt.Missing?;
      assert at == before + if Lost(worlds[k - 1], worlds[k]) then {k - 1} else {};
    } else {
      assert at == {};
    }
  }

  /** Only a host crash takes the recorded attempt away. */
  lemma OnlyCrashesLose(w: World, e: Event, v: World)
    requires Step(w, e, v) && Lost(w, v)
    ensures e.Crashed?
  {
  }

  lemma StepsCount(before: seq<Action>, after: seq<Action>, recorded: bool, project: bool, c: Action)
    requires Steps(before, after, recorded, project)
    ensures Times(c, before) <= Times(c, after) <= Times(c, before) + 1
  {
    assert after == before + after[|before|..];
    var n := |after| - |before|;
    assert after[|before|..] == STEPS[..n];
    assert STEPS[..n] == if n == 0 then [] else if n == 1 then [Build] else if n == 2 then [Build, Up] else STEPS;
  }

  /** Each command is issued, and the receipt created, once more than the attempt was lost at most. */
  lemma {:induction false} OncePerLoss(worlds: seq<World>, events: seq<Event>, k: nat, c: Action)
    requires History(worlds, events) && k < |worlds|
    ensures Times(c, worlds[k].log) <= Losses(worlds, k) + if worlds[k].attempt.Present? then 1 else 0
  {
    if k > 0 {
      OncePerLoss(worlds, events, k - 1, c);
      var w, v := worlds[k - 1], worlds[k];
      assert Step(w, events[k - 1], v);
      hide Times, Steps;
      if v.log != w.log { StepsCount(w.log, v.log, v.receipt.Present?, v.project, c); }
    }
  }

  /** While no host crash takes the recorded attempt, everything happens at most once and in order,
      over any sequence of starts that may die in any step. */
  lemma {:induction false} AtMostOnce(worlds: seq<World>, events: seq<Event>, k: nat)
    requires History(worlds, events) && k < |worlds| && Losses(worlds, k) == 0
    ensures worlds[k].log <= [Build, Up, Record] && (worlds[k].attempt.Missing? ==> worlds[k].log == [])
  {
    if k > 0 {
      AtMostOnce(worlds, events, k - 1);
      var w, v := worlds[k - 1], worlds[k];
      assert Step(w, events[k - 1], v);
      assert v.log == w.log + v.log[|w.log|..];
    }
  }

  lemma {:induction false} NoCrashNoLoss(worlds: seq<World>, events: seq<Event>, k: nat)
    requires History(worlds, events) && k < |worlds| && forall i :: 0 <= i < k ==> !events[i].Crashed?
    ensures Losses(worlds, k) == 0
  {
    if k > 0 {
      NoCrashNoLoss(worlds, events, k - 1);
      var w, v := worlds[k - 1], worlds[k];
      assert Step(w, events[k - 1], v);
      if Lost(w, v) { OnlyCrashesLose(w, events[k - 1], v); }
    }
  }

  /** So without host crashes, whichever starts die. */
  lemma WithoutCrashes(worlds: seq<World>, events: seq<Event>, k: nat)
    requires History(worlds, events) && k < |worlds| && forall i :: 0 <= i < k ==> !events[i].Crashed?
    ensures worlds[k].log <= [Build, Up, Record]
  {
    NoCrashNoLoss(worlds, events, k);
    AtMostOnce(worlds, events, k);
  }

  /** A start can issue something exactly when nothing is left of an earlier one. */
  lemma IssuesExactlyWhenClear(w: World)
    ensures w.attempt.Missing? && w.receipt.Missing? && !w.images && !w.project <==>
      exists v, attempt, receipt :: StartEffect(w, v, attempt, receipt) && v.log != w.log
  {
    if Clear(w) {
      var v := w.(attempt := Whole(Null), log := w.log + [Build]);
      StepsTaken(w.log, v.log, 1, false, false);
      assert StartEffect(w, v, Null, Null);
    }
  }

  lemma BuildAlone(w: World, attempt: Json, receipt: Json)
    requires Clear(w)
    ensures StartEffect(w, w.(attempt := Whole(attempt), log := w.log + [Build]), attempt, receipt)
  {
    hide Whole;
    StepsTaken(w.log, w.log + [Build], 1, false, w.project);
  }

  lemma WholeStart(w: World, attempt: Json, receipt: Json)
    requires Clear(w)
    ensures StartEffect(w, World(Whole(attempt), Whole(receipt), true, true, w.log + STEPS), attempt, receipt)
  {
    assert w.log + STEPS == w.log + [Build] + [Up] + [Record];
    StepsTaken(w.log, w.log + STEPS, 3, true, true);
    hide Issued;
  }

  /** The attempt is recorded by a file whose directory is never synced: a start that dies in its
      build, a host crash and a second start build twice. */
  lemma LostAttemptBuildsTwice(attempt: Json, receipt: Json) returns (worlds: seq<World>, events: seq<Event>)
    requires WellFormed(attempt) && WellFormed(receipt)
    ensures History(worlds, events) && |events| == 3 && Losses(worlds, 3) == 1
    ensures worlds[3].log == [Build, Build, Up, Record] && worlds[3].receipt == Whole(receipt)
  {
    var w0 := World(Missing, Missing, false, false, []);
    var w1 := w0.(attempt := Whole(attempt), log := [Build]);
    var w2 := w1.(attempt := Missing);
    var w3 := World(Whole(attempt), Whole(receipt), true, true, [Build] + STEPS);
    BuildAlone(w0, attempt, receipt);
    WholeStart(w2, attempt, receipt);
    assert w0.log + [Build] == [Build];
    hide StartEffect, WellFormed, Canonical;
    var start := Started(attempt, receipt);
    assert Step(w0, start, w1) && Step(w1, Crashed, w2);
    assert Step(w2, start, w3) by { assert w2.log + STEPS == w3.log; }
    assert !Lost(w0, w1) && Lost(w1, w2) && !Lost(w2, w3);
    hide Step, Lost;
    worlds, events := [w0, w1, w2, w3], [start, Crashed, start];
    assert Losses(worlds, 1) == 0 && Losses(worlds, 2) == 1;
  }

  // --------------------------------------------------------------------------------------------
  // What a later command can load
  // --------------------------------------------------------------------------------------------

  /** A document left behind by a write that did not return is read back if it is whole, and refused if it is torn. */
  lemma TornIsRefused(f: File, doc: Json)
    requires WellFormed(doc) && f.Present? && Partial(f, doc)
    ensures CanonicalJson.ReadCanonical(f.content) == if f.content == Canonical(doc) then Some(doc) else None
  {
    CanonicalForm.PrintedDocumentReadsBack(doc);
    hide ReadCanonical, Canonical, WellFormed;
    if f.content != Canonical(doc) {
      assert f.content == Canonical(doc)[..|f.content|];
      CanonicalForm.NoTornPrefix(Canonical(doc), |f.content|);
    }
  }

  /** What this start may have left of its receipt. */
  predicate LeftBy(f: File, e: Event) {
    e.Started? && WellFormed(e.receipt) && Partial(f, e.receipt)
  }

  /** Whether the file is what some start among the first k steps wrote of its receipt. */
  ghost predicate Receipt(f: File, events: seq<Event>, k: nat)
    requires k <= |events|
  {
    f.Present? ==> exists i :: 0 <= i < k && LeftBy(f, events[i])
  }

  lemma {:induction false} ReceiptComesFromStart(worlds: seq<World>, events: seq<Event>, k: nat)
    requires History(worlds, events) && k < |worlds|
    ensures Receipt(worlds[k].receipt, events, k)
    ensures worlds[k].receipt.Present? ==> Record in worlds[k].log
  {
    if k > 0 {
      ReceiptComesFromStart(worlds, events, k - 1);
      var w, v := worlds[k - 1], worlds[k];
      assert Step(w, events[k - 1], v);
      if v.receipt.Present? && v.receipt != w.receipt {
        if events[k - 1].Crashed? {
          var i :| 0 <= i < k - 1 && LeftBy(w.receipt, events[i]);
          assert LeftBy(v.receipt, events[i]);
        } else {
          assert LeftBy(v.receipt, events[k - 1]);
        }
      }
    }
  }

  /** A receipt that loads, be it after a failed or dead start, is the whole document of one that
      had built and launched. */
  lemma LoadedReceiptIsWhole(worlds: seq<World>, events: seq<Event>, k: nat)
    requires History(worlds, events) && k < |worlds| && worlds[k].receipt.Present?
    requires ReadCanonical(worlds[k].receipt.content).Some?
    ensures var loaded := ReadCanonical(worlds[k].receipt.content);
      exists i :: 0 <= i < k && events[i].Started? && loaded == Some(events[i].receipt)
    ensures Build in worlds[k].log && Up in worlds[k].log && Record in worlds[k].log
  {
    ReceiptComesFromStart(worlds, events, k);
    var f := worlds[k].receipt;
    var i :| 0 <= i < k && LeftBy(f, events[i]);
    TornIsRefused(f, events[i].receipt);
    RecordedAfterCommands(worlds, events, k);
  }

  lemma {:induction false} RecordedAfterCommands(worlds: seq<World>, events: seq<Event>, k: nat)
    requires History(worlds, events) && k < |worlds|
    ensures Record in worlds[k].log ==> Up in worlds[k].log
    ensures Up in worlds[k].log ==> Build in worlds[k].log
  {
    if k > 0 {
      RecordedAfterCommands(worlds, events, k - 1);
      var w, v := worlds[k - 1], worlds[k];
      assert Step(w, events[k - 1], v);
      assert v.log == w.log + v.log[|w.log|..];
      if v.log != w.log {
        var n := |v.log| - |w.log|;
        assert v.log[|w.log|..] == STEPS[..n];
        assert STEPS[..n] == if n == 1 then [Build] else if n == 2 then [Build, Up] else STEPS;
      }
    }
  }
}
