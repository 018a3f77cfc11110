/** Any number of starts of one local root at the same time: which of them records the attempt is
    decided by the exclusive create, and only that one goes on. */
module LocalRace {
  import opened CanonicalJson
  import opened LocalStart

  datatype Phase =
    | Looking
    | Unfiled              // it saw neither attempt nor receipt
    | Admitted             // nor an image tag nor a resource of the project
    | Recording            // it created the attempt and is writing it
    | Claimed(steps: nat)  // the attempt is recorded and this many of the three steps are done
    | Ended(code: nat, steps: nat)
    | Gone(steps: nat)     // the process died

  /** A process with the two documents it would write. */
  datatype Starter = Starter(attempt: Json, receipt: Json, phase: Phase)

  datatype State = State(world: World, starters: seq<Starter>)

  datatype Move =
    | Join(attempt: Json, receipt: Json)
    | SeeNoFiles(i: nat)
    | SeeNothingInUse(i: nat)
    | Create(i: nat)
    | WriteAttempt(i: nat, file: File)
    | Claim(i: nat)
    | Issue(i: nat, images: bool, project: bool)
    | CreateReceipt(i: nat)
    | WriteReceipt(i: nat, file: File)
    | Finish(i: nat)
    | Fail(i: nat)
    | Die(i: nat)
    | Crash(attemptLeft: File, receiptLeft: File)
    | Outside(images: bool, project: bool)

  predicate Live(p: Phase) { !p.Ended? && !p.Gone? }

  predicate Holding(p: Phase) { p.Recording? || p.Claimed? }

  function Done(p: Phase): nat {
    match p
    case Claimed(n) => n
    case Ended(_, n) => n
    case Gone(n) => n
    case _ => 0
  }

  /** The file after more of the document was written, or all of it synced. */
  predicate Grown(f: File, g: File, doc: Json) {
    f.Present? && g.Present? && f.content <= g.content && Partial(g, doc)
  }

  predicate In(s: State, i: nat, p: Phase) {
    i < |s.starters| && s.starters[i].phase == p
  }

  predicate Enabled(s: State, m: Move) {
    match m
    case Join(_, _) => true
    case SeeNoFiles(i) => In(s, i, Looking) && s.world.attempt.Missing? && s.world.receipt.Missing?
    case SeeNothingInUse(i) => In(s, i, Unfiled) && !s.world.images && !s.world.project
    case Create(i) => In(s, i, Admitted) && s.world.attempt.Missing?
    case WriteAttempt(i, file) => In(s, i, Recording) && Grown(s.world.attempt, file, s.starters[i].attempt)
    case Claim(i) => In(s, i, Recording) && s.world.attempt == Whole(s.starters[i].attempt)
    case Issue(i, images, project) =>
      || (In(s, i, Claimed(0)) && project == s.world.project)
      || (In(s, i, Claimed(1)) && images == s.world.images)
    case CreateReceipt(i) => In(s, i, Claimed(2)) && s.world.receipt.Missing?
    case WriteReceipt(i, file) => In(s, i, Claimed(3)) && Grown(s.world.receipt, file, s.starters[i].receipt)
    case Finish(i) => In(s, i, Claimed(3)) && s.world.receipt == Whole(s.starters[i].receipt)
    case Fail(i) => i < |s.starters| && Live(s.starters[i].phase) && s.starters[i].phase != Claimed(0)
    case Die(i) => i < |s.starters| && Live(s.starters[i].phase)
    case Crash(attempt, receipt) => Survived(s.world.attempt, attempt) && Survived(s.world.receipt, receipt)
    case Outside(_, _) => true
  }

  function Put(s: State, w: World, i: nat, p: Phase): State
    requires i < |s.starters|
  {
    State(w, s.starters[i := s.starters[i].(phase := p)])
  }

  function Perished(t: Starter): Starter {
    if Live(t.phase) then t.(phase := Gone(Done(t.phase))) else t
  }

  function Next(s: State, m: Move): State
    requires Enabled(s, m)
  {
    var w := s.world;
    match m
    case Join(attempt, receipt) => s.(starters := s.starters + [Starter(attempt, receipt, Looking)])
    case SeeNoFiles(i) => Put(s, w, i, Unfiled)
    case SeeNothingInUse(i) => Put(s, w, i, Admitted)
    case Create(i) => Put(s, w.(attempt := Present("", false)), i, Recording)
    case WriteAttempt(i, file) => s.(world := w.(attempt := file))
    case Claim(i) => Put(s, w, i, Claimed(0))
    case Issue(i, images, project) =>
      var n := s.starters[i].phase.steps;
      Put(s, w.(images := images, project := project, log := w.log + [STEPS[n]]), i, Claimed(n + 1))
    case CreateReceipt(i) => Put(s, w.(receipt := Present("", false), log := w.log + [Record]), i, Claimed(3))
    case WriteReceipt(i, file) => s.(world := w.(receipt := file))
    case Finish(i) => Put(s, w, i, Ended(0, 3))
    case Fail(i) =>
      var p := s.starters[i].phase;
      Put(s, w, i, Ended(if p.Claimed? then 75 else 78, Done(p)))
    case Die(i) => Put(s, w, i, Gone(Done(s.starters[i].phase)))
    case Crash(attempt, receipt) =>
      State(w.(attempt := attempt, receipt := receipt),
            seq(|s.starters|, j requires 0 <= j < |s.starters| => Perished(s.starters[j])))
    case Outside(images, project) => s.(world := w.(images := images, project := project))
  }

  /** Any process may die or, unless it has just recorded its attempt, fail; anyone else may make or
      remove images and resources; and a host crash may take both files. */
  lemma AnythingMayHappen(s: State, i: nat, images: bool, project: bool)
    ensures i < |s.starters| && Live(s.starters[i].phase) ==>
      Enabled(s, Die(i)) && (s.starters[i].phase != Claimed(0) ==> Enabled(s, Move.Fail(i)))
    ensures Enabled(s, Outside(images, project))
    ensures Next(s, Outside(images, project)) == s.(world := s.world.(images := images, project := project))
    ensures Enabled(s, Crash(Missing, Missing))
    ensures Next(s, Crash(Missing, Missing)).world == s.world.(attempt := Missing, receipt := Missing)
  {
  }

  predicate Run(states: seq<State>, moves: seq<Move>) {
    && |states| == |moves| + 1
    && forall k :: 0 <= k < |moves| ==> Enabled(states[k], moves[k]) && states[k + 1] == Next(states[k], moves[k])
  }

  predicate Init(s: State) {
    s.starters == [] && s.world.attempt.Missing? && s.world.receipt.Missing? && s.world.log == []
  }

  // --------------------------------------------------------------------------------------------
  // One claimant
  // --------------------------------------------------------------------------------------------

  /** A live claimant that has still to do this step. */
  predicate Pending(s: State, step: nat) {
    exists i :: 0 <= i < |s.starters| && Holding(s.starters[i].phase) && Done(s.starters[i].phase) <= step
  }

  /** Codes tell what the process did. */
  predicate Told(p: Phase) {
    match p
    case Claimed(n) => n <= 3
    case Ended(code, n) => n <= 3 && (code == 0 ==> n == 3) && (code == 78 <==> n == 0) && code in {0, 75, 78}
    case Gone(n) => n <= 3
    case _ => true
  }

  predicate OneClaimant(s: State) {
    && (forall i, j :: 0 <= i < j < |s.starters| ==> !(Holding(s.starters[i].phase) && Holding(s.starters[j].phase)))
    && (forall i :: 0 <= i < |s.starters| && Holding(s.starters[i].phase) ==> s.world.attempt.Present?)
    && (forall i :: 0 <= i < |s.starters| ==> Told(s.starters[i].phase))
  }

  /** With the claimant's next step counted in, every step was done at most once more than the
      attempt was lost. */
  predicate Bounded(s: State, losses: nat) {
    forall n :: 0 <= n < 3 ==>
      Times(STEPS[n], s.world.log) + (if Pending(s, n) then 1 else 0)
        <= losses + if s.world.attempt.Present? then 1 else 0
  }

  predicate Involved(p: Phase) { Holding(p) || Done(p) > 0 }

  /** While the attempt was never lost: one process at most did anything, and the log is its steps. */
  predicate Single(s: State) {
    && s.world.log <= STEPS
    && (s.world.attempt.Missing? ==>
          s.world.log == [] && forall i :: 0 <= i < |s.starters| ==> !Involved(s.starters[i].phase))
    && (forall i, j :: 0 <= i < j < |s.starters| ==> !(Involved(s.starters[i].phase) && Involved(s.starters[j].phase)))
    && (forall i :: 0 <= i < |s.starters| && Involved(s.starters[i].phase) ==> |s.world.log| == Done(s.starters[i].phase))
  }

  predicate Inv(s: State, losses: nat) {
    OneClaimant(s) && Bounded(s, losses) && (losses == 0 ==> Single(s))
  }

  function LossIn(s: State, m: Move): nat
    requires Enabled(s, m)
  {
    if Lost(s.world, Next(s, m).world) then 1 else 0
  }

  // --------------------------------------------------------------------------------------------
  // Every move keeps this
  // --------------------------------------------------------------------------------------------

  /** A change of one phase that adds no claimant. */
  lemma QuietKeeps(s: State, w: World, i: nat, p: Phase, losses: nat)
    requires Inv(s, losses) && i < |s.starters| && Told(p)
    requires w.log == s.world.log && w.attempt.Present? == s.world.attempt.Present?
    requires Holding(p) ==> Holding(s.starters[i].phase)
    requires Done(p) == Done(s.starters[i].phase)
    ensures Inv(Put(s, w, i, p), losses)
  {
    hide Told, Times, Holding, Done;
    var t := Put(s, w, i, p);
    forall n | Pending(t, n) ensures Pending(s, n) {
      var j :| 0 <= j < |t.starters| && Holding(t.starters[j].phase) && Done(t.starters[j].phase) <= n;
      assert Holding(s.starters[j].phase) && Done(s.starters[j].phase) <= n;
    }
  }

  lemma CreateKeeps(s: State, i: nat, losses: nat)
    requires Inv(s, losses) && Enabled(s, Create(i))
    ensures Inv(Next(s, Create(i)), losses)
  {
    assert Told(Recording);
    hide Told, Times;
    assert forall n :: !Pending(s, n);
  }

  /** The claimant's next step. */
  lemma AdvanceKeeps(s: State, w: World, i: nat, n: nat, losses: nat)
    requires Inv(s, losses) && In(s, i, Claimed(n)) && n < 3
    requires w.log == s.world.log + [STEPS[n]] && w.attempt == s.world.attempt
    ensures Inv(Put(s, w, i, Claimed(n + 1)), losses)
  {
    hide OneClaimant, Bounded, Single, STEPS;
    var t := Put(s, w, i, Claimed(n + 1));
    AdvanceIsOne(s, t, i, n);
    AdvanceCounts(s, t, i, n, losses);
    if losses == 0 { AdvanceIsSingle(s, t, i, n); }
  }

  lemma AdvanceIsOne(s: State, t: State, i: nat, n: nat)
    requires OneClaimant(s) && In(s, i, Claimed(n)) && n < 3 && t.world.attempt == s.world.attempt
    requires t.starters == s.starters[i := s.starters[i].(phase := Claimed(n + 1))]
    ensures OneClaimant(t)
  {
    assert Told(Claimed(n + 1)) && Holding(s.starters[i].phase);
    hide Told;
  }

  lemma AdvanceIsSingle(s: State, t: State, i: nat, n: nat)
    requires OneClaimant(s) && Single(s) && In(s, i, Claimed(n)) && n < 3
    requires t.world.log == s.world.log + [STEPS[n]] && t.world.attempt == s.world.attempt
    requires t.starters == s.starters[i := s.starters[i].(phase := Claimed(n + 1))]
    ensures Single(t)
  {
    assert Involved(s.starters[i].phase) && Holding(s.starters[i].phase);
    hide Told, Holding;
    assert s.world.log == STEPS[..n];
    assert t.world.log == STEPS[..n + 1];
  }

  lemma AdvanceCounts(s: State, t: State, i: nat, n: nat, losses: nat)
    requires OneClaimant(s) && Bounded(s, losses) && In(s, i, Claimed(n)) && n < 3
    requires t.world.log == s.world.log + [STEPS[n]] && t.world.attempt == s.world.attempt
    requires t.starters == s.starters[i := s.starters[i].(phase := Claimed(n + 1))]
    ensures Bounded(t, losses)
  {
    hide Told;
    assert Holding(s.starters[i].phase);
    forall m | 0 <= m < 3
      ensures Times(STEPS[m], t.world.log) == Times(STEPS[m], s.world.log) + (if m == n then 1 else 0)
      ensures Pending(s, m) <==> n <= m
      ensures Pending(t, m) <==> n + 1 <= m
    {
      if n <= m { assert Done(s.starters[i].phase) <= m; }
      if n + 1 <= m { assert Holding(t.starters[i].phase) && Done(t.starters[i].phase) <= m; }
    }
  }

  lemma CrashKeeps(s: State, attemptLeft: File, receiptLeft: File, losses: nat)
    requires Inv(s, losses) && Enabled(s, Crash(attemptLeft, receiptLeft))
    ensures Inv(Next(s, Crash(attemptLeft, receiptLeft)), losses + LossIn(s, Crash(attemptLeft, receiptLeft)))
  {
    hide Told, Times;
    var t := Next(s, Crash(attemptLeft, receiptLeft));
    forall j | 0 <= j < |t.starters| ensures !Holding(t.starters[j].phase) && Told(t.starters[j].phase) {
      PerishedIsTold(s.starters[j]);
    }
    assert forall n :: !Pending(t, n);
  }

  lemma PerishedIsTold(t: Starter)
    requires Told(t.phase)
    ensures Told(Perished(t).phase) && !Holding(Perished(t).phase) && Done(Perished(t).phase) == Done(t.phase)
  {
  }

  /** A change of the world alone. */
  lemma WorldKeeps(s: State, w: World, losses: nat)
    requires Inv(s, losses) && w.log == s.world.log && w.attempt.Present? == s.world.attempt.Present?
    ensures Inv(s.(world := w), losses)
  {
    hide Told, Times;
    assert forall n :: Pending(s.(world := w), n) <==> Pending(s, n);
  }

  lemma JoinKeeps(s: State, attempt: Json, receipt: Json, losses: nat)
    requires Inv(s, losses)
    ensures Inv(Next(s, Join(attempt, receipt)), losses)
  {
    hide Times;
    var t := Next(s, Join(attempt, receipt));
    forall n | Pending(t, n) ensures Pending(s, n) {
      var j :| 0 <= j < |t.starters| && Holding(t.starters[j].phase) && Done(t.starters[j].phase) <= n;
      assert t.starters[j] == s.starters[j];
    }
  }

  lemma PhasesAreTold(s: State, losses: nat, i: nat)
    requires Inv(s, losses) && i < |s.starters|
    ensures Told(s.starters[i].phase)
  {
  }

  lemma MoveKeeps(s: State, m: Move, losses: nat)
    requires Inv(s, losses) && Enabled(s, m)
    ensures Inv(Next(s, m), losses + LossIn(s, m))
  {
    hide Inv;
    match m {
      case Join(attempt, receipt) => JoinKeeps(s, attempt, receipt, losses);
      case Create(i) => CreateKeeps(s, i, losses);
      case Crash(a, r) => CrashKeeps(s, a, r, losses);
      case Issue(i, images, project) =>
        var n := s.starters[i].phase.steps;
        AdvanceKeeps(s, Next(s, m).world, i, n, losses);
      case CreateReceipt(i) => AdvanceKeeps(s, Next(s, m).world, i, 2, losses);
      case WriteAttempt(_, _) => WorldKeeps(s, Next(s, m).world, losses);
      case WriteReceipt(_, _) => WorldKeeps(s, Next(s, m).world, losses);
      case Outside(_, _) => WorldKeeps(s, Next(s, m).world, losses);
      case _ =>
        PhasesAreTold(s, losses, m.i);
        QuietKeeps(s, s.world, m.i, Next(s, m).starters[m.i].phase, losses);
    }
  }

  // --------------------------------------------------------------------------------------------
  // Runs
  // --------------------------------------------------------------------------------------------

  /** How often the recorded attempt vanished in the first k moves. */
  function Losses(states: seq<State>, k: nat): nat
    requires k < |states|
  {
    if k == 0 then 0 else Losses(states, k - 1) + if Lost(states[k - 1].world, states[k].world) then 1 else 0
  }

  /** The losses are those of the worlds the states are in. */
  lemma {:induction false} LossesTell(states: seq<State>, k: nat)
    requires k < |states|
    ensures Losses(states, k) ==
      |set i | 0 <= i < k && states[i].world.attempt.Present? && states[i + 1].world.attempt.Missing?|
  {
    var at := set i | 0 <= i < k && states[i].world.attempt.Present? && states[i + 1].world.attempt.Missing?;
    if k > 0 {
      LossesTell(states, k - 1);
      var before := set i | 0 <= i < k - 1 && states[i].world.attempt.Present? && states[i + 1].world.attempt.Missing?;
      assert at == before + if Lost(states[k - 1].world, states[k].world) then {k - 1} else {};
    } else {
      assert at == {};
    }
  }

  lemma {:induction false} RunKeeps(states: seq<State>, moves: seq<Move>, k: nat)
    requires Run(states, moves) && Init(states[0]) && k < |states|
    ensures Inv(states[k], Losses(states, k))
  {
    if k > 0 {
      hide Inv, Enabled, Next;
      RunKeeps(states, moves, k - 1);
      MoveKeeps(states[k - 1], moves[k - 1], Losses(states, k - 1));
    }
  }

  /** However the starts interleave, each command is issued, and the receipt created, at most once
      more than the attempt was lost. */
  lemma OncePerLoss(states: seq<State>, moves: seq<Move>, k: nat, c: Action)
    requires Run(states, moves) && Init(states[0]) && k < |states|
    ensures Times(c, states[k].world.log) <= Losses(states, k) + if states[k].world.attempt.Present? then 1 else 0
  {
    RunKeeps(states, moves, k);
    hide Times;
    var n := match c case Build => 0 case Up => 1 case Record => 2;
    assert STEPS[n] == c;
  }

  /** While no host crash takes the recorded attempt, everything happens at most once and in order,
      and one process at most does anything. */
  lemma AtMostOnce(states: seq<State>, moves: seq<Move>, k: nat)
    requires Run(states, moves) && Init(states[0]) && k < |states| && Losses(states, k) == 0
    ensures states[k].world.log <= [Build, Up, Record]
    ensures forall i, j :: 0 <= i < j < |states[k].starters| ==>
      Done(states[k].starters[i].phase) == 0 || Done(states[k].starters[j].phase) == 0
    ensures forall i :: 0 <= i < |states[k].starters| && Done(states[k].starters[i].phase) > 0 ==>
      Done(states[k].starters[i].phase) == |states[k].world.log|
  {
    RunKeeps(states, moves, k);
    hide Bounded, OneClaimant;
  }

  lemma {:induction false} OnlyCrashesLose(states: seq<State>, moves: seq<Move>, k: nat)
    requires Run(states, moves) && k < |states| && forall i :: 0 <= i < k ==> !moves[i].Crash?
    ensures Losses(states, k) == 0
  {
    if k > 0 {
      OnlyCrashesLose(states, moves, k - 1);
      assert Enabled(states[k - 1], moves[k - 1]) && states[k] == Next(states[k - 1], moves[k - 1]);
    }
  }

  /** So without host crashes, whichever processes die. */
  lemma WithoutCrashes(states: seq<State>, moves: seq<Move>, k: nat)
    requires Run(states, moves) && Init(states[0]) && k < |states| && forall i :: 0 <= i < k ==> !moves[i].Crash?
    ensures states[k].world.log <= [Build, Up, Record]
  {
    OnlyCrashesLose(states, moves, k);
    AtMostOnce(states, moves, k);
  }

  /** At most one live process is past the exclusive create, and codes tell what a process did: 78
      nothing, 75 a build at least, 0 everything. */
  lemma OneGoesOn(states: seq<State>, moves: seq<Move>, k: nat, i: nat, j: nat)
    requires Run(states, moves) && Init(states[0]) && k < |states|
    requires i < |states[k].starters| && j < |states[k].starters|
    ensures Holding(states[k].starters[i].phase) && Holding(states[k].starters[j].phase) ==> i == j
    ensures match states[k].starters[i].phase
      case Ended(code, n) => (code == 0 && n == 3) || (code == 75 && 1 <= n <= 3) || (code == 78 && n == 0)
      case Claimed(n) => n <= 3
      case Gone(n) => n <= 3
      case _ => true
  {
    RunKeeps(states, moves, k);
    hide Bounded, Single;
  }

  // --------------------------------------------------------------------------------------------
  // One start alone
  // --------------------------------------------------------------------------------------------

  /** The moves lead from the one state to the other. */
  ghost predicate Reaches(s: State, t: State) {
    exists states, moves :: Run(states, moves) && states[0] == s && states[|moves|] == t
  }

  lemma Stays(s: State)
    ensures Reaches(s, s)
  {
    assert Run([s], []);
  }

  lemma Further(s: State, t: State, m: Move)
    requires Reaches(s, t) && Enabled(t, m)
    ensures Reaches(s, Next(t, m))
  {
    hide Enabled, Next;
    var states, moves :| Run(states, moves) && states[0] == s && states[|moves|] == t;
    assert Run(states + [Next(t, m)], moves + [m]);
  }

  /** Up to the created attempt. */
  lemma AloneCreates(w: World, attempt: Json, receipt: Json)
    requires Clear(w)
    ensures Reaches(State(w, []), State(w.(attempt := Present("", false)), [Starter(attempt, receipt, Recording)]))
  {
    hide Reaches;
    var s := State(w, []);
    Stays(s);
    Further(s, s, Join(attempt, receipt));
    var t := Next(s, Join(attempt, receipt));
    assert t.starters == [Starter(attempt, receipt, Looking)];
    Further(s, t, SeeNoFiles(0));
    t := Next(t, SeeNoFiles(0));
    assert t.starters == [Starter(attempt, receipt, Unfiled)];
    Further(s, t, SeeNothingInUse(0));
    t := Next(t, SeeNothingInUse(0));
    assert t.starters == [Starter(attempt, receipt, Admitted)];
    Further(s, t, Create(0));
    assert Next(t, Create(0)).starters == [Starter(attempt, receipt, Recording)];
  }

  /** Up to the issued build. */
  lemma AloneBuilds(w: World, attempt: Json, receipt: Json, images: bool) returns (t: State)
    requires Clear(w)
    ensures t == State(w.(attempt := Whole(attempt), images := images, log := w.log + [Build]),
                       [Starter(attempt, receipt, Claimed(1))])
    ensures Reaches(State(w, []), t)
  {
    hide Reaches;
    var s := State(w, []);
    AloneCreates(w, attempt, receipt);
    t := State(w.(attempt := Present("", false)), [Starter(attempt, receipt, Recording)]);
    Further(s, t, WriteAttempt(0, Whole(attempt)));
    t := State(w.(attempt := Whole(attempt)), [Starter(attempt, receipt, Recording)]);
    Further(s, t, Claim(0));
    t := Next(t, Claim(0));
    assert t.starters == [Starter(attempt, receipt, Claimed(0))];
    Further(s, t, Issue(0, images, w.project));
    t := Next(t, Issue(0, images, w.project));
    assert t.starters == [Starter(attempt, receipt, Claimed(1))];
  }

  /** Up to the issued launch. */
  lemma AloneLaunches(w: World, attempt: Json, receipt: Json, images: bool, project: bool) returns (t: State)
    requires Clear(w)
    ensures t.starters == [Starter(attempt, receipt, Claimed(2))]
    ensures t.world == World(Whole(attempt), Missing, images, project, w.log + [Build] + [Up])
    ensures Reaches(State(w, []), t)
  {
    hide Reaches, Canonical;
    t := AloneBuilds(w, attempt, receipt, images);
    Further(State(w, []), t, Issue(0, images, project));
    t := Next(t, Issue(0, images, project));
  }

  /** Up to the receipt, as far as it was written. */
  lemma AloneRecords(w: World, v: World, attempt: Json, receipt: Json) returns (t: State)
    requires Clear(w) && v.receipt.Present? && Partial(v.receipt, receipt)
    requires v == World(Whole(attempt), v.receipt, v.images, v.project, w.log + [Build] + [Up] + [Record])
    ensures t == State(v, [Starter(attempt, receipt, Claimed(3))]) && Reaches(State(w, []), t)
  {
    hide Reaches, Whole;
    t := AloneLaunches(w, attempt, receipt, v.images, v.project);
    Further(State(w, []), t, CreateReceipt(0));
    t := Next(t, CreateReceipt(0));
    hide Partial;
    Further(State(w, []), t, WriteReceipt(0, v.receipt));
    t := Next(t, WriteReceipt(0, v.receipt));
  }

  /** A lone starter on a clear world can get through: then attempt and receipt are whole, and build,
      launch and receipt came once and in this order. */
  lemma AloneSucceeds(w: World, attempt: Json, receipt: Json)
    requires Clear(w)
    ensures Reaches(State(w, []),
      State(World(Whole(attempt), Whole(receipt), true, true, w.log + [Build] + [Up] + [Record]),
            [Starter(attempt, receipt, Ended(0, 3))]))
  {
    hide Reaches;
    var v := World(Whole(attempt), Whole(receipt), true, true, w.log + [Build] + [Up] + [Record]);
    var t := AloneRecords(w, v, attempt, receipt);
    Further(State(w, []), t, Finish(0));
    assert Next(t, Finish(0)).starters == [Starter(attempt, receipt, Ended(0, 3))];
  }

  /** Files are created empty and unsynced, and a host crash may then take them. */
  lemma CreatedIsEmpty(s: State, i: nat)
    ensures Enabled(s, Create(i)) ==> Next(s, Create(i)).world == s.world.(attempt := Present("", false))
    ensures Enabled(s, CreateReceipt(i)) ==>
      Next(s, CreateReceipt(i)).world == s.world.(receipt := Present("", false), log := s.world.log + [Record])
  {
  }

  lemma EffectForm(w: World, v: World, attempt: Json, receipt: Json)
    requires StartEffect(w, v, attempt, receipt) && v.log != w.log
    ensures Clear(w) && Partial(v.receipt, receipt)
    ensures v.log == w.log + [Build] ==>
      v == w.(attempt := Whole(attempt), images := v.images, log := v.log)
    ensures v.log == w.log + [Build] + [Up] ==>
      v == World(Whole(attempt), Missing, v.images, v.project, v.log)
    ensures v.log == w.log + [Build] + [Up] + [Record] ==>
      v.receipt.Present? && v == World(Whole(attempt), v.receipt, v.images, v.project, v.log)
    ensures v.log in [w.log + [Build], w.log + [Build] + [Up], w.log + [Build] + [Up] + [Record]]
  {
    hide Whole, Partial;
    var n := |v.log| - |w.log|;
    assert v.log == w.log + v.log[|w.log|..];
    assert v.log[|w.log|..] == STEPS[..n];
    assert STEPS[..n] == if n == 1 then [Build] else if n == 2 then [Build] + [Up] else [Build] + [Up] + [Record];
    assert w.log + ([Build] + [Up]) == w.log + [Build] + [Up];
    assert w.log + ([Build] + [Up] + [Record]) == w.log + [Build] + [Up] + [Record];
  }

  lemma AloneWrites(w: World, v: World, attempt: Json, receipt: Json) returns (t: State)
    requires Clear(w) && v.attempt.Present? && Partial(v.attempt, attempt) && v == w.(attempt := v.attempt)
    ensures t.world == v && Reaches(State(w, []), t)
  {
    hide Reaches, Whole;
    AloneCreates(w, attempt, receipt);
    t := State(w.(attempt := Present("", false)), [Starter(attempt, receipt, Recording)]);
    Further(State(w, []), t, WriteAttempt(0, v.attempt));
    t := Next(t, WriteAttempt(0, v.attempt));
  }

  /** Whatever one start may do to the world, it does by these moves. */
  lemma EffectIsReached(w: World, v: World, attempt: Json, receipt: Json) returns (t: State)
    requires StartEffect(w, v, attempt, receipt)
    ensures t.world == v && Reaches(State(w, []), t)
  {
    hide Reaches, Whole, Partial, Steps;
    if v == w {
      t := State(w, []);
      Stays(t);
    } else if v.log == w.log {
      t := AloneWrites(w, v, attempt, receipt);
    } else {
      EffectForm(w, v, attempt, receipt);
      hide StartEffect;
      if v.log == w.log + [Build] {
        t := AloneBuilds(w, attempt, receipt, v.images);
      } else if v.log == w.log + [Build] + [Up] {
        t := AloneLaunches(w, attempt, receipt, v.images, v.project);
      } else {
        t := AloneRecords(w, v, attempt, receipt);
      }
    }
  }
}
