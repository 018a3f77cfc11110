/** Activation and management of private-ingress projects that share one attempts root.
    Any number of activations and managers interleave; each step may fail, each process may
    crash, and the whole host may crash and lose whatever was not yet synced. */
module IngressProtocol {
  import opened Prelude

  type Project = nat
  type Id = nat

  /** A receipt file: exclusively created empty, filled by the write loop, then synced. */
  datatype File = Missing | Torn | Whole(durable: bool)

  /** One attempt directory and the three receipts a manager insists on. */
  datatype Attempt = Attempt(entryDurable: bool, claim: File, marker: File, complete: File)

  datatype ActivationPc =
    | Begun          // nothing on disk yet
    | Made           // exclusive mkdir returned
    | RootSynced     // the new entry in the attempts root is durable
    | ClaimOpen | ClaimFull | ClaimSynced
    | Prechecked     // snapshots, contracts and absence checks all passed
    | MarkerOpen | MarkerFull | MarkerSynced
    | Launchable     // compose boundary verified after the marker
    | UpInFlight | UpReturned
    | Captured       // live resources read back
    | CompleteOpen | CompleteFull | CompleteSynced

  datatype ManagerPc =
    | Opened         // attempts root opened, no lock yet
    | RootLocked | AttemptLocked
    | Loaded         // all three receipts read back whole
    | Acting(mutated: bool)

  datatype Actor =
    | Activation(project: Project, apc: ActivationPc)
    | Manager(project: Project, mpc: ManagerPc)
    | Exited(project: Project, activation: bool, code: nat)
    | Crashed(project: Project)

  /** What the outside world can observe, in order. */
  datatype Event =
    | UpIssued(actor: Id, project: Project)
    | UpSucceeded(actor: Id, project: Project)
    | CompletionWritten(actor: Id, project: Project)
    | Mutated(actor: Id, project: Project)

  datatype State = State(
    dirs: map<Project, Attempt>,
    actors: map<Id, Actor>,
    rootLock: Option<Id>,
    attemptLocks: map<Project, Id>,
    log: seq<Event>)

  datatype Step =
    | StartActivation(id: Id, project: Project)
    | StartManager(id: Id, project: Project)
    | Advance(id: Id)                              // the actor's next operation succeeds
    | Fail(id: Id)                                 // the actor's next operation raises
    | Finish(id: Id)                               // a manager confirms its goal and returns
    | Crash(id: Id)                                // the process dies; its locks are released
    | HostCrash(surviving: map<Project, Attempt>)  // every process dies; unsynced data may be lost

  const Init := State(map[], map[], None, map[], [])

  // --------------------------------------------------------------------------------------------
  // Transitions
  // --------------------------------------------------------------------------------------------

  function NextPc(pc: ActivationPc): ActivationPc
    requires pc != CompleteSynced
  {
    match pc
    case Begun => Made
    case Made => RootSynced
    case RootSynced => ClaimOpen
    case ClaimOpen => ClaimFull
    case ClaimFull => ClaimSynced
    case ClaimSynced => Prechecked
    case Prechecked => MarkerOpen
    case MarkerOpen => MarkerFull
    case MarkerFull => MarkerSynced
    case MarkerSynced => Launchable
    case Launchable => UpInFlight
    case UpInFlight => UpReturned
    case UpReturned => Captured
    case Captured => CompleteOpen
    case CompleteOpen => CompleteFull
    case CompleteFull => CompleteSynced
  }

  /** The disk effect of the operation an activation performs when it leaves `pc`. */
  function DiskEffect(pc: ActivationPc, a: Attempt): Attempt {
    match pc
    case Made => a.(entryDurable := true)
    case RootSynced => a.(claim := Torn)
    case ClaimOpen => a.(claim := Whole(false))
    case ClaimFull => a.(claim := Whole(true))
    case Prechecked => a.(marker := Torn)
    case MarkerOpen => a.(marker := Whole(false))
    case MarkerFull => a.(marker := Whole(true))
    case Captured => a.(complete := Torn)
    case CompleteOpen => a.(complete := Whole(false))
    case CompleteFull => a.(complete := Whole(true))
    case _ => a
  }

  function Events(id: Id, p: Project, pc: ActivationPc): seq<Event> {
    match pc
    case Launchable => [UpIssued(id, p)]
    case UpInFlight => [UpSucceeded(id, p)]
    case CompleteOpen => [CompletionWritten(id, p)]
    case _ => []
  }

  /** Past this point the launcher may have run, so a failure is a possible partial launch. */
  predicate Launched(pc: ActivationPc) {
    pc in {UpInFlight, UpReturned, Captured, CompleteOpen, CompleteFull, CompleteSynced}
  }

  predicate Survives(before: File, after: File) {
    match before
    case Missing => after.Missing?
    case Torn => !after.Whole?
    case Whole(durable) => durable ==> after == before
  }

  ghost predicate CrashOutcome(before: map<Project, Attempt>, after: map<Project, Attempt>) {
    && after.Keys <= before.Keys
    && (forall p <- before :: before[p].entryDurable ==> p in after)
    && forall p <- after ::
         && (before[p].entryDurable ==> after[p].entryDurable)
         && Survives(before[p].claim, after[p].claim)
         && Survives(before[p].marker, after[p].marker)
         && Survives(before[p].complete, after[p].complete)
  }

  function Unlock(s: State, id: Id): State {
    s.(rootLock := if s.rootLock == Some(id) then None else s.rootLock,
       attemptLocks := map p | p in s.attemptLocks && s.attemptLocks[p] != id :: s.attemptLocks[p])
  }

  ghost predicate CanAdvance(s: State, id: Id)
    requires id in s.actors
  {
    match s.actors[id]
    case Activation(p, Begun) => p !in s.dirs
    case Activation(p, _) => p in s.dirs
    case Manager(p, Opened) => s.rootLock == None
    case Manager(p, RootLocked) => p in s.dirs && p !in s.attemptLocks
    case Manager(p, AttemptLocked) =>
      p in s.dirs && s.dirs[p].claim.Whole? && s.dirs[p].marker.Whole? && s.dirs[p].complete.Whole?
    case Manager(p, _) => true
    case _ => false
  }

  ghost predicate Enabled(s: State, step: Step) {
    match step
    case StartActivation(id, _) => id !in s.actors
    case StartManager(id, _) => id !in s.actors
    case Advance(id) => id in s.actors && CanAdvance(s, id)
    case Fail(id) => id in s.actors && (s.actors[id].Activation? || s.actors[id].Manager?)
    case Finish(id) => id in s.actors && s.actors[id].Manager? && s.actors[id].mpc.Acting?
    case Crash(id) => id in s.actors && (s.actors[id].Activation? || s.actors[id].Manager?)
    case HostCrash(after) => CrashOutcome(s.dirs, after)
  }

  function AdvanceActivation(s: State, id: Id, p: Project, pc: ActivationPc): State
    requires pc != Begun ==> p in s.dirs
  {
    if pc == CompleteSynced then
      s.(actors := s.actors[id := Exited(p, true, 0)])
    else
      var disk := if pc == Begun then Attempt(false, Missing, Missing, Missing) else DiskEffect(pc, s.dirs[p]);
      s.(dirs := s.dirs[p := disk],
         actors := s.actors[id := Activation(p, NextPc(pc))],
         log := s.log + Events(id, p, pc))
  }

  function AdvanceManager(s: State, id: Id, p: Project, pc: ManagerPc): State {
    match pc
    case Opened => s.(rootLock := Some(id), actors := s.actors[id := Manager(p, RootLocked)])
    case RootLocked =>
      s.(attemptLocks := s.attemptLocks[p := id], actors := s.actors[id := Manager(p, AttemptLocked)])
    case AttemptLocked => s.(actors := s.actors[id := Manager(p, Loaded)])
    case Loaded => s.(actors := s.actors[id := Manager(p, Acting(false))])
    case Acting(_) =>
      s.(actors := s.actors[id := Manager(p, Acting(true))], log := s.log + [Mutated(id, p)])
  }

  /** Exit code of an actor whose current operation raises. */
  function FailureCode(a: Actor): nat {
    match a
    case Activation(_, pc) => if Launched(pc) then 75 else 78
    case Manager(_, Acting(mutated)) => if mutated then 75 else 78
    case _ => 78
  }

  function Do(s: State, step: Step): State
    requires Enabled(s, step)
  {
    match step
    case StartActivation(id, p) => s.(actors := s.actors[id := Activation(p, Begun)])
    case StartManager(id, p) => s.(actors := s.actors[id := Manager(p, Opened)])
    case Advance(id) =>
      (match s.actors[id]
       case Activation(p, pc) => AdvanceActivation(s, id, p, pc)
       case Manager(p, pc) => AdvanceManager(s, id, p, pc)
       case _ => s)
    case Fail(id) =>
      var a := s.actors[id];
      Unlock(s, id).(actors := s.actors[id := Exited(a.project, a.Activation?, FailureCode(a))])
    case Finish(id) =>
      Unlock(s, id).(actors := s.actors[id := Exited(s.actors[id].project, false, 0)])
    case Crash(id) =>
      Unlock(s, id).(actors := s.actors[id := Crashed(s.actors[id].project)])
    case HostCrash(after) =>
      State(after, map id | id in s.actors :: Kill(s.actors[id]), None, map[], s.log)
  }

  function Kill(a: Actor): Actor {
    if a.Exited? then a else Crashed(a.project)
  }

  ghost predicate Follows(states: seq<State>, steps: seq<Step>) {
    && |states| == |steps| + 1
    && forall i :: 0 <= i < |steps| ==> Enabled(states[i], steps[i]) && states[i + 1] == Do(states[i], steps[i])
  }

  ghost predicate IsRun(states: seq<State>, steps: seq<Step>) {
    Follows(states, steps) && states[0] == Init
  }

  // --------------------------------------------------------------------------------------------
  // Inductive invariant
  // --------------------------------------------------------------------------------------------

  predicate UpWasIssued(log: seq<Event>, p: Project) {
    exists i :: 0 <= i < |log| && log[i].UpIssued? && log[i].project == p
  }

  /** `up` returned successfully and, later, the completion receipt was filled in. */
  predicate Completed(log: seq<Event>, p: Project) {
    exists i, j :: 0 <= i < j < |log|
      && log[i].UpSucceeded? && log[i].project == p
      && log[j].CompletionWritten? && log[j].project == p
  }

  predicate UpSucceededIn(log: seq<Event>, p: Project) {
    exists i :: 0 <= i < |log| && log[i].UpSucceeded? && log[i].project == p
  }

  predicate Silent(log: seq<Event>, id: Id) {
    forall i :: 0 <= i < |log| ==> log[i].actor != id
  }

  /** The disk contents implied by how far the one live activation of a project has come. */
  predicate DiskMatches(pc: ActivationPc, a: Attempt) {
    && (a.entryDurable || pc == Made)
    && a.claim == (match pc
                   case Begun => Missing case Made => Missing case RootSynced => Missing
                   case ClaimOpen => Torn case ClaimFull => Whole(false) case _ => Whole(true))
    && a.marker == (if pc in {Begun, Made, RootSynced, ClaimOpen, ClaimFull, ClaimSynced, Prechecked} then Missing
                    else if pc == MarkerOpen then Torn
                    else if pc == MarkerFull then Whole(false) else Whole(true))
    && a.complete == (match pc
                      case CompleteOpen => Torn case CompleteFull => Whole(false)
                      case CompleteSynced => Whole(true) case _ => Missing)
  }

  predicate ActivationOk(s: State, id: Id, p: Project, pc: ActivationPc) {
    && (pc != Begun ==> p in s.dirs && DiskMatches(pc, s.dirs[p]))
    && (pc != Begun && !Launched(pc) ==> !UpWasIssued(s.log, p))
    && (!Launched(pc) ==> Silent(s.log, id))
    && (Launched(pc) ==> UpIssued(id, p) in s.log)
    && (pc in {UpReturned, Captured, CompleteOpen} ==> UpSucceededIn(s.log, p))
    && (pc in {CompleteFull, CompleteSynced} ==> CompletionWritten(id, p) in s.log)
  }

  predicate ManagerOk(s: State, id: Id, p: Project, pc: ManagerPc) {
    && (pc.Opened? ==> s.rootLock != Some(id))
    && (!pc.Opened? ==> s.rootLock == Some(id))
    && (pc.Loaded? || pc.Acting? ==>
          && Completed(s.log, p)
          && p in s.dirs && s.dirs[p].claim.Whole? && s.dirs[p].marker.Whole? && s.dirs[p].complete.Whole?)
    && (pc.AttemptLocked? || pc.Loaded? || pc.Acting? ==> p in s.attemptLocks && s.attemptLocks[p] == id)
    && (pc == Acting(true) ==> Mutated(id, p) in s.log)
    && (pc != Acting(true) ==> Silent(s.log, id))
  }

  predicate ExitedOk(s: State, id: Id, p: Project, activation: bool, code: nat) {
    && code in {0, 75, 78}
    && s.rootLock != Some(id)
    && (code == 78 ==> Silent(s.log, id))
    && (code == 75 ==> (if activation then UpIssued(id, p) else Mutated(id, p)) in s.log)
    && (!activation && code == 0 ==> Completed(s.log, p))
    && (activation && code == 0 ==>
          && UpIssued(id, p) in s.log
          && CompletionWritten(id, p) in s.log
          && p in s.dirs && s.dirs[p] == Attempt(true, Whole(true), Whole(true), Whole(true)))
  }

  predicate ActorOk(s: State, id: Id)
    requires id in s.actors
  {
    match s.actors[id]
    case Activation(p, pc) => s.rootLock != Some(id) && ActivationOk(s, id, p, pc)
    case Manager(p, pc) => ManagerOk(s, id, p, pc)
    case Exited(p, activation, code) => ExitedOk(s, id, p, activation, code)
    case Crashed(_) => s.rootLock != Some(id)
  }

  predicate Claims(a: Actor, p: Project) {
    a.Activation? && a.project == p && a.apc != Begun
  }

  /** A project's directory is being worked on by at most one live activation. */
  predicate ExclusiveClaim(s: State) {
    forall a, b :: a in s.actors && b in s.actors && a != b && Claims(s.actors[a], s.actors[b].project)
      ==> !Claims(s.actors[b], s.actors[b].project)
  }

  predicate MarkersDurable(s: State) {
    forall i :: 0 <= i < |s.log| && s.log[i].UpIssued? ==>
      var p := s.log[i].project;
      p in s.dirs && s.dirs[p].entryDurable && s.dirs[p].claim == Whole(true) && s.dirs[p].marker == Whole(true)
  }

  predicate CompletionsBacked(s: State) {
    forall p :: p in s.dirs && s.dirs[p].complete.Whole? ==> Completed(s.log, p)
  }

  predicate UpAtMostOnce(log: seq<Event>) {
    forall i, j :: 0 <= i < j < |log| && log[i].UpIssued? && log[j].UpIssued? ==> log[i].project != log[j].project
  }

  predicate MutationsLate(log: seq<Event>) {
    forall i :: 0 <= i < |log| && log[i].Mutated? ==> Completed(log[..i], log[i].project)
  }

  predicate Known(s: State) {
    && (forall i :: 0 <= i < |s.log| ==> s.log[i].actor in s.actors)
    && (s.rootLock.Some? ==> s.rootLock.value in s.actors)
  }

  ghost predicate Inv(s: State) {
    && Known(s)
    && (forall id :: id in s.actors ==> ActorOk(s, id))
    && ExclusiveClaim(s)
    && MarkersDurable(s)
    && CompletionsBacked(s)
    && UpAtMostOnce(s.log)
    && MutationsLate(s.log)
  }

  // --------------------------------------------------------------------------------------------
  // Preservation
  // --------------------------------------------------------------------------------------------

  lemma LogGrows(log: seq<Event>, more: seq<Event>)
    ensures forall p :: Completed(log, p) ==> Completed(log + more, p)
    ensures forall p :: UpSucceededIn(log, p) ==> UpSucceededIn(log + more, p)
    ensures forall e :: e in log ==> e in log + more
    ensures forall p :: UpWasIssued(log + more, p) <==> UpWasIssued(log, p) || UpWasIssued(more, p)
    ensures forall id :: Silent(log + more, id) <==> Silent(log, id) && Silent(more, id)
  {
    var all := log + more;
    assert forall i :: 0 <= i < |log| ==> all[i] == log[i];
    assert forall i :: 0 <= i < |more| ==> all[|log| + i] == more[i];
    forall p | Completed(log, p) ensures Completed(all, p) {
      var i, j :| 0 <= i < j < |log| && log[i].UpSucceeded? && log[i].project == p
                  && log[j].CompletionWritten? && log[j].project == p;
      assert all[i] == log[i] && all[j] == log[j];
    }
    forall p | UpWasIssued(more, p) ensures UpWasIssued(all, p) {
      var i :| 0 <= i < |more| && more[i].UpIssued? && more[i].project == p;
      assert all[|log| + i] == more[i];
    }
  }

  lemma MutationsStayLate(log: seq<Event>, more: seq<Event>)
    requires MutationsLate(log) && |more| <= 1
    requires forall e :: e in more && e.Mutated? ==> Completed(log, e.project)
    ensures MutationsLate(log + more)
  {
    var all := log + more;
    forall i | 0 <= i < |all| && all[i].Mutated? ensures Completed(all[..i], all[i].project) {
      if i < |log| {
        assert all[..i] == log[..i];
      } else {
        assert all[..i] == log;
      }
    }
  }

  /** A step that leaves disk and log alone and only moves one actor (and locks). */
  lemma ActorMoves(s: State, t: State, id: Id)
    requires Inv(s)
    requires t.dirs == s.dirs && t.log == s.log
    requires id in t.actors && t.actors.Keys == s.actors.Keys + {id}
    requires forall other :: other in s.actors && other != id ==> t.actors[other] == s.actors[other]
    requires ActorOk(t, id)
    requires Claims(t.actors[id], t.actors[id].project)
      ==> id in s.actors && Claims(s.actors[id], t.actors[id].project)
    requires t.rootLock == s.rootLock || (s.rootLock == None && t.rootLock == Some(id))
               || (s.rootLock == Some(id) && t.rootLock == None)
    requires forall p :: p in s.attemptLocks && s.attemptLocks[p] != id ==>
               p in t.attemptLocks && t.attemptLocks[p] == s.attemptLocks[p]
    ensures Inv(t)
  {
    hide DiskMatches, Completed, Silent, UpWasIssued, UpSucceededIn;
    forall other | other in t.actors ensures ActorOk(t, other) {
      if other != id { assert ActorOk(s, other); }
    }
  }

  lemma StartPreserves(s: State, step: Step)
    requires Inv(s) && (step.StartActivation? || step.StartManager?) && Enabled(s, step)
    ensures Inv(Do(s, step))
  {
    assert Silent(s.log, step.id);
    ActorMoves(s, Do(s, step), step.id);
  }

  lemma EndPreserves(s: State, step: Step)
    requires Inv(s) && (step.Fail? || step.Finish? || step.Crash?) && Enabled(s, step)
    ensures Inv(Do(s, step))
  {
    assert ActorOk(s, step.id);
    ActorMoves(s, Do(s, step), step.id);
  }

  lemma HostCrashPreserves(s: State, after: map<Project, Attempt>)
    requires Inv(s) && Enabled(s, HostCrash(after))
    ensures Inv(Do(s, HostCrash(after)))
  {
    var t := Do(s, HostCrash(after));
    forall id | id in t.actors ensures ActorOk(t, id) {
      assert ActorOk(s, id);
    }
    forall p | p in t.dirs && t.dirs[p].complete.Whole? ensures Completed(t.log, p) {
      assert s.dirs[p].complete.Whole?;
    }
  }

  lemma MutationLog(s: State, id: Id, p: Project)
    requires MutationsLate(s.log) && UpAtMostOnce(s.log) && Completed(s.log, p)
    ensures MutationsLate(s.log + [Mutated(id, p)]) && UpAtMostOnce(s.log + [Mutated(id, p)])
  {
    MutationsStayLate(s.log, [Mutated(id, p)]);
  }

  lemma MutationActors(s: State, t: State, id: Id, p: Project, mutated: bool)
    requires Inv(s) && id in s.actors && s.actors[id] == Manager(p, Acting(mutated))
    requires t == AdvanceManager(s, id, p, Acting(mutated))
    ensures forall other :: other in t.actors ==> ActorOk(t, other)
  {
    var more := [Mutated(id, p)];
    assert ActorOk(s, id);
    LogGrows(s.log, more);
    assert more[0] in t.log;
    forall other | other in t.actors ensures ActorOk(t, other) {
      if other != id {
        OtherActorKept(s, t, more, other);
      }
    }
  }

  lemma MutationFrame(s: State, t: State, e: Event)
    requires Known(s) && ExclusiveClaim(s) && MarkersDurable(s) && CompletionsBacked(s)
    requires e.Mutated? && e.actor in s.actors && s.actors[e.actor].Manager?
    requires t.dirs == s.dirs && t.rootLock == s.rootLock && t.log == s.log + [e]
    requires t.actors.Keys == s.actors.Keys && !t.actors[e.actor].Activation?
    requires forall a :: a in s.actors && a != e.actor ==> t.actors[a] == s.actors[a]
    ensures Known(t) && ExclusiveClaim(t) && MarkersDurable(t) && CompletionsBacked(t)
  {
    LogGrows(s.log, [e]);
  }

  lemma MutationPreserves(s: State, t: State, id: Id, p: Project, mutated: bool)
    requires Inv(s) && id in s.actors && s.actors[id] == Manager(p, Acting(mutated))
    requires t == AdvanceManager(s, id, p, Acting(mutated))
    ensures Inv(t)
  {
    assert Completed(s.log, p) by { assert ActorOk(s, id); }
    MutationLog(s, id, p);
    MutationActors(s, t, id, p, mutated);
    MutationFrame(s, t, Mutated(id, p));
  }

  /** An event of someone else that leaves the disk alone does not disturb an actor. */
  lemma OtherActorKept(s: State, t: State, more: seq<Event>, other: Id)
    requires other in s.actors && other in t.actors && t.actors[other] == s.actors[other] && ActorOk(s, other)
    requires t.dirs == s.dirs && t.rootLock == s.rootLock && t.attemptLocks == s.attemptLocks
    requires t.log == s.log + more
    requires Silent(more, other) && forall e :: e in more ==> !e.UpIssued?
    ensures ActorOk(t, other)
  {
    LogGrows(s.log, more);
  }

  lemma ManagerAdvancePreserves(s: State, id: Id, p: Project, pc: ManagerPc)
    requires Inv(s) && Enabled(s, Advance(id)) && s.actors[id] == Manager(p, pc)
    ensures Inv(Do(s, Advance(id)))
  {
    var t := Do(s, Advance(id));
    assert ActorOk(s, id);
    match pc {
      case Acting(mutated) => MutationPreserves(s, t, id, p, mutated);
      case _ => ActorMoves(s, t, id);
    }
  }

  lemma LoggedUps(log: seq<Event>)
    requires UpAtMostOnce(log)
    ensures forall e :: e in log && e.UpIssued? ==> UpWasIssued(log, e.project)
    ensures forall e, f :: e in log && f in log && e.UpIssued? && f.UpIssued? && e.project == f.project ==> e == f
  {
    forall e, f | e in log && f in log && e.UpIssued? && f.UpIssued? && e.project == f.project ensures e == f {
      var i :| 0 <= i < |log| && log[i] == e;
      var j :| 0 <= j < |log| && log[j] == f;
      assert i == j;
    }
  }

  /** While one activation works on a project, no other activation has launched or finished it. */
  lemma OthersUntouched(s: State, id: Id, p: Project, pc: ActivationPc, other: Id)
    requires Inv(s) && id in s.actors && s.actors[id] == Activation(p, pc) && pc != Begun
    requires other in s.actors && other != id && s.actors[other].project == p
    ensures s.actors[other].Activation? ==> s.actors[other].apc == Begun
    ensures s.actors[other].Exited? && s.actors[other].activation ==> s.actors[other].code != 0
  {
    assert Claims(s.actors[id], p);
    assert ActorOk(s, id) && ActorOk(s, other);
    LoggedUps(s.log);
  }

  lemma OtherActorsKept(s: State, t: State, id: Id, p: Project, pc: ActivationPc)
    requires Inv(s) && Enabled(s, Advance(id)) && s.actors[id] == Activation(p, pc)
    requires pc != CompleteSynced && t == Do(s, Advance(id))
    ensures forall other :: other in t.actors && other != id ==> ActorOk(t, other)
  {
    var more := Events(id, p, pc);
    LogGrows(s.log, more);
    forall other | other in t.actors && other != id ensures ActorOk(t, other) {
      assert ActorOk(s, other);
      if s.actors[other].project == p {
        if pc != Begun {
          OthersUntouched(s, id, p, pc, other);
        }
      }
    }
  }

  lemma OwnDisk(s: State, p: Project, pc: ActivationPc)
    requires pc != Begun && pc != CompleteSynced && p in s.dirs && DiskMatches(pc, s.dirs[p])
    ensures DiskMatches(NextPc(pc), DiskEffect(pc, s.dirs[p]))
  {
  }

  lemma OwnLog(s: State, id: Id, p: Project, pc: ActivationPc)
    requires pc != CompleteSynced && ActivationOk(s, id, p, pc)
    requires pc == Begun ==> !UpWasIssued(s.log, p)
    ensures var log := s.log + Events(id, p, pc);
      && (!Launched(NextPc(pc)) ==> !UpWasIssued(log, p) && Silent(log, id))
      && (Launched(NextPc(pc)) ==> UpIssued(id, p) in log)
      && (NextPc(pc) in {UpReturned, Captured, CompleteOpen} ==> UpSucceededIn(log, p))
      && (NextPc(pc) in {CompleteFull, CompleteSynced} ==> CompletionWritten(id, p) in log)
  {
    var more := Events(id, p, pc);
    LogGrows(s.log, more);
    if more != [] {
      var log := s.log + more;
      assert log[|s.log|] == more[0];
    }
  }

  lemma OwnStep(s: State, t: State, id: Id, p: Project, pc: ActivationPc)
    requires Inv(s) && Enabled(s, Advance(id)) && s.actors[id] == Activation(p, pc)
    requires pc != CompleteSynced && t == Do(s, Advance(id))
    ensures ActorOk(t, id)
  {
    assert ActorOk(s, id);
    if pc == Begun {
      assert !UpWasIssued(s.log, p);
    } else {
      OwnDisk(s, p, pc);
    }
    OwnLog(s, id, p, pc);
  }

  lemma NewCompletionBacked(s: State, t: State, id: Id, p: Project, pc: ActivationPc)
    requires Inv(s) && Enabled(s, Advance(id)) && s.actors[id] == Activation(p, pc)
    requires pc != CompleteSynced && t == Do(s, Advance(id))
    ensures CompletionsBacked(t)
  {
    assert ActorOk(s, id);
    LogGrows(s.log, Events(id, p, pc));
    forall q | q in t.dirs && t.dirs[q].complete.Whole? ensures Completed(t.log, q) {
      if q == p && pc == CompleteOpen {
        var i :| 0 <= i < |s.log| && s.log[i].UpSucceeded? && s.log[i].project == p;
        assert t.log[i] == s.log[i] && t.log[|s.log|] == CompletionWritten(id, p);
      } else {
        assert s.dirs[q].complete.Whole?;
      }
    }
  }

  lemma UpStaysUnique(s: State, t: State, id: Id, p: Project, pc: ActivationPc)
    requires Inv(s) && Enabled(s, Advance(id)) && s.actors[id] == Activation(p, pc)
    requires pc != CompleteSynced && t == Do(s, Advance(id))
    ensures UpAtMostOnce(t.log) && MarkersDurable(t) && MutationsLate(t.log)
  {
    assert ActorOk(s, id);
    var more := Events(id, p, pc);
    MutationsStayLate(s.log, more);
    forall i, j | 0 <= i < j < |t.log| && t.log[i].UpIssued? && t.log[j].UpIssued?
      ensures t.log[i].project != t.log[j].project
    {
      assert t.log[i] == s.log[i];
    }
    forall i | 0 <= i < |t.log| && t.log[i].UpIssued?
      ensures t.log[i].project in t.dirs && t.dirs[t.log[i].project].entryDurable
              && t.dirs[t.log[i].project].claim == Whole(true) && t.dirs[t.log[i].project].marker == Whole(true)
    {
      if i < |s.log| {
        assert t.log[i] == s.log[i];
        assert UpWasIssued(s.log, s.log[i].project);
      }
    }
  }

  lemma ActivationEnds(s: State, id: Id, p: Project)
    requires Inv(s) && Enabled(s, Advance(id)) && s.actors[id] == Activation(p, CompleteSynced)
    ensures Inv(Do(s, Advance(id)))
  {
    assert ActorOk(s, id);
    ActorMoves(s, Do(s, Advance(id)), id);
  }

  lemma ActivationAdvancePreserves(s: State, id: Id, p: Project, pc: ActivationPc)
    requires Inv(s) && Enabled(s, Advance(id)) && s.actors[id] == Activation(p, pc)
    ensures Inv(Do(s, Advance(id)))
  {
    var t := Do(s, Advance(id));
    if pc == CompleteSynced {
      ActivationEnds(s, id, p);
    } else {
      hide ActorOk;
      OwnStep(s, t, id, p, pc);
      OtherActorsKept(s, t, id, p, pc);
      NewCompletionBacked(s, t, id, p, pc);
      UpStaysUnique(s, t, id, p, pc);
      ClaimStaysExclusive(s, t, id, p, pc);
    }
  }

  lemma ClaimStaysExclusive(s: State, t: State, id: Id, p: Project, pc: ActivationPc)
    requires Inv(s) && Enabled(s, Advance(id)) && s.actors[id] == Activation(p, pc)
    requires pc != CompleteSynced && t == Do(s, Advance(id))
    ensures ExclusiveClaim(t)
  {
    forall other | other in s.actors && other != id && Claims(s.actors[other], p) ensures pc != Begun {
      assert ActorOk(s, other);
    }
  }

  lemma StepPreserves(s: State, step: Step)
    requires Inv(s) && Enabled(s, step)
    ensures Inv(Do(s, step))
  {
    match step
    case StartActivation(_, _) => StartPreserves(s, step);
    case StartManager(_, _) => StartPreserves(s, step);
    case Fail(_) => EndPreserves(s, step);
    case Finish(_) => EndPreserves(s, step);
    case Crash(_) => EndPreserves(s, step);
    case HostCrash(after) => HostCrashPreserves(s, after);
    case Advance(id) =>
      match s.actors[id] {
        case Activation(p, pc) => ActivationAdvancePreserves(s, id, p, pc);
        case Manager(p, pc) => ManagerAdvancePreserves(s, id, p, pc);
      }
  }

  lemma {:induction false} RunInvariant(states: seq<State>, steps: seq<Step>, i: nat)
    requires IsRun(states, steps) && i < |states|
    ensures Inv(states[i])
  {
    if i > 0 {
      RunInvariant(states, steps, i - 1);
      StepPreserves(states[i - 1], steps[i - 1]);
    }
  }

  // --------------------------------------------------------------------------------------------
  // What every run guarantees
  // --------------------------------------------------------------------------------------------

  /** However activations, managers and crashes interleave, `up` is issued at most once a project. */
  lemma UpRunsAtMostOnce(states: seq<State>, steps: seq<Step>, k: nat, i: nat, j: nat)
    requires IsRun(states, steps) && k < |states|
    requires i < j < |states[k].log| && states[k].log[i].UpIssued? && states[k].log[j].UpIssued?
    ensures states[k].log[i].project != states[k].log[j].project
  {
    RunInvariant(states, steps, k);
  }

  lemma {:induction false} LogIsPrefix(states: seq<State>, steps: seq<Step>, i: nat, k: nat)
    requires IsRun(states, steps) && i <= k < |states|
    ensures states[i].log <= states[k].log && states[i].actors.Keys <= states[k].actors.Keys
  {
    if i < k {
      LogIsPrefix(states, steps, i, k - 1);
      assert states[k] == Do(states[k - 1], steps[k - 1]);
    }
  }

  /** The attempt's directory entry, its claim and its marker are durable before the step that issues
      `up`, and no later step, not even a host crash, ever takes one of them away. */
  lemma MarkerDurableBeforeUp(states: seq<State>, steps: seq<Step>, i: nat, k: nat, p: Project)
    requires IsRun(states, steps) && i < |steps| && i <= k < |states|
    requires !UpWasIssued(states[i].log, p) && UpWasIssued(states[i + 1].log, p)
    ensures p in states[k].dirs && states[k].dirs[p].entryDurable
    ensures states[k].dirs[p].claim == Whole(true) && states[k].dirs[p].marker == Whole(true)
  {
    var s, t := states[i], states[i + 1];
    assert t == Do(s, steps[i]) && Enabled(s, steps[i]);
    RunInvariant(states, steps, i);
    var n :| 0 <= n < |t.log| && t.log[n].UpIssued? && t.log[n].project == p;
    if k == i {
      assert steps[i].Advance? && s.actors[steps[i].id] == Activation(p, Launchable);
      assert ActorOk(s, steps[i].id);
    } else {
      LogIsPrefix(states, steps, i + 1, k);
      RunInvariant(states, steps, k);
      assert states[k].log[n] == t.log[n];
    }
  }

  predicate InLockedSection(a: Actor) {
    a.Manager? && !a.mpc.Opened?
  }

  lemma OneManagerInside(states: seq<State>, steps: seq<Step>, k: nat, a: Id, b: Id)
    requires IsRun(states, steps) && k < |states|
    requires a in states[k].actors && InLockedSection(states[k].actors[a])
    requires b in states[k].actors && InLockedSection(states[k].actors[b])
    ensures a == b
  {
    RunInvariant(states, steps, k);
    assert ActorOk(states[k], a) && ActorOk(states[k], b);
  }

  /** Every start or stop of a project's containers comes after that project's `up` succeeded
      and after its completion receipt was filled in, in that order. */
  lemma MutationsFollowCompletion(states: seq<State>, steps: seq<Step>, k: nat, n: nat) returns (i: nat, j: nat)
    requires IsRun(states, steps) && k < |states| && n < |states[k].log| && states[k].log[n].Mutated?
    ensures i < j < n
    ensures states[k].log[i].UpSucceeded? && states[k].log[i].project == states[k].log[n].project
    ensures states[k].log[j].CompletionWritten? && states[k].log[j].project == states[k].log[n].project
  {
    RunInvariant(states, steps, k);
    var early, p := states[k].log[..n], states[k].log[n].project;
    assert Completed(early, p);
    i, j :| 0 <= i < j < |early| && early[i].UpSucceeded? && early[i].project == p
            && early[j].CompletionWritten? && early[j].project == p;
  }

  /** 78 means nothing was ever mutated by that process; 75 means something was; an activation
      that returned 0 left its three receipts durable for good, and a manager that returned 0
      worked on a project whose launch had completed. */
  lemma ExitCodesTell(states: seq<State>, steps: seq<Step>, k: nat, id: Id)
    requires IsRun(states, steps) && k < |states| && id in states[k].actors && states[k].actors[id].Exited?
    ensures var a, log := states[k].actors[id], states[k].log;
      && (a.code == 78 ==> forall e <- log :: e.actor != id)
      && (a.code == 75 ==> (if a.activation then UpIssued(id, a.project) else Mutated(id, a.project)) in log)
      && (a.activation && a.code != 78 ==> UpIssued(id, a.project) in log)
      && (a.activation && a.code == 0 ==>
            && CompletionWritten(id, a.project) in log
            && a.project in states[k].dirs
            && states[k].dirs[a.project] == Attempt(true, Whole(true), Whole(true), Whole(true)))
      && (!a.activation && a.code == 0 ==> exists i, j :: (
            && 0 <= i < j < |log|
            && log[i].UpSucceeded? && log[i].project == a.project
            && log[j].CompletionWritten? && log[j].project == a.project))
      && a.code in {0, 75, 78}
  {
    RunInvariant(states, steps, k);
    assert ActorOk(states[k], id);
  }

  /** Once `up` was issued for a project its coordinates are consumed: any activation that
      starts later never even claims the directory, and if it exits it exits 78. */
  lemma LaunchedProjectIsConsumed(states: seq<State>, steps: seq<Step>, i: nat, k: nat, p: Project, id: Id)
    requires IsRun(states, steps) && i <= k < |states| && UpWasIssued(states[i].log, p)
    requires id !in states[i].actors && id in states[k].actors && states[k].actors[id].project == p
    ensures states[k].actors[id].Activation? ==> states[k].actors[id].apc == Begun
    ensures states[k].actors[id].Exited? && states[k].actors[id].activation ==> states[k].actors[id].code == 78
  {
    hide DiskMatches, Completed, CompletionsBacked, MutationsLate, MarkersDurable, ExclusiveClaim, UpSucceededIn, ManagerOk;
    RunInvariant(states, steps, i);
    RunInvariant(states, steps, k);
    LogIsPrefix(states, steps, i, k);
    var early, late := states[i].log, states[k].log;
    var n :| 0 <= n < |early| && early[n].UpIssued? && early[n].project == p;
    assert early[n].actor != id && late[n] == early[n];
    LoggedUps(late);
    assert UpWasIssued(late, p) && ActorOk(states[k], id);
  }

  /** A container is started or stopped only by a manager that holds the root lock and the lock of
      the attempt, while the three receipts of the attempt are all there in full. */
  lemma MutatesUnderLocks(states: seq<State>, steps: seq<Step>, i: nat, n: nat)
    requires IsRun(states, steps) && i < |steps|
    requires |states[i].log| <= n < |states[i + 1].log| && states[i + 1].log[n].Mutated?
    ensures var s, id, p := states[i], states[i + 1].log[n].actor, states[i + 1].log[n].project;
      && id in s.actors && s.actors[id].Manager? && s.actors[id].project == p
      && s.rootLock == Some(id) && p in s.attemptLocks && s.attemptLocks[p] == id
      && p in s.dirs && s.dirs[p].claim.Whole? && s.dirs[p].marker.Whole? && s.dirs[p].complete.Whole?
  {
    RunInvariant(states, steps, i);
    assert Enabled(states[i], steps[i]);
    assert steps[i].Advance? && ActorOk(states[i], steps[i].id);
  }

  // --------------------------------------------------------------------------------------------
  // What may happen
  // --------------------------------------------------------------------------------------------

  /** Any process may raise or be killed at any point of its work, and then holds no lock. */
  lemma AnyoneMayEnd(s: State, id: Id)
    requires id in s.actors && (s.actors[id].Activation? || s.actors[id].Manager?)
    ensures Enabled(s, Fail(id)) && Enabled(s, Crash(id))
    ensures Do(s, Crash(id)).actors == s.actors[id := Crashed(s.actors[id].project)]
    ensures Do(s, Fail(id)).actors.Keys == s.actors.Keys && Do(s, Fail(id)).actors[id].Exited?
    ensures forall step :: step in {Fail(id), Crash(id)} ==>
              var t := Do(s, step);
              && t.dirs == s.dirs && t.log == s.log
              && t.rootLock != Some(id) && forall p :: p in t.attemptLocks ==> t.attemptLocks[p] != id
  {
  }

  function Damaged(f: File): (d: File) {
    if f == Whole(false) then Torn else f
  }

  /** A receipt comes into being in three steps: created empty, then filled, then synced. */
  predicate Ripens(f: File, g: File) {
    (f == Missing && g == Torn) || (f == Torn && g == Whole(false)) || (f == Whole(false) && g == Whole(true))
  }

  /** One step of an activation brings one thing on disk one step further: the directory appears without
      any receipt and not yet durable, its entry is synced, or one of the receipts ripens. */
  lemma OneThingAtATime(s: State, id: Id, p: Project, pc: ActivationPc)
    requires id in s.actors && s.actors[id] == Activation(p, pc) && CanAdvance(s, id)
    requires pc != Begun ==> DiskMatches(pc, s.dirs[p])
    ensures var t := Do(s, Advance(id));
      && (forall q :: q != p ==> (q in t.dirs <==> q in s.dirs) && (q in s.dirs ==> t.dirs[q] == s.dirs[q]))
      && p in t.dirs
      && (p !in s.dirs ==> t.dirs[p] == Attempt(false, Missing, Missing, Missing))
      && (p in s.dirs ==> var a, b := s.dirs[p], t.dirs[p];
            || b == a
            || b == a.(entryDurable := true)
            || (b == a.(claim := b.claim) && Ripens(a.claim, b.claim))
            || (b == a.(marker := b.marker) && Ripens(a.marker, b.marker))
            || (b == a.(complete := b.complete) && Ripens(a.complete, b.complete)))
  {
  }

  /** The host may crash at any point; every directory entry and every receipt that was not yet
      synced may then be lost or torn at once, and whatever was synced stays. */
  lemma HostMayLoseTheUnsynced(s: State, lost: set<Project>)
    requires forall p :: p in lost && p in s.dirs ==> !s.dirs[p].entryDurable
    ensures var after := map p | p in s.dirs && p !in lost :: Attempt(s.dirs[p].entryDurable,
                 Damaged(s.dirs[p].claim), Damaged(s.dirs[p].marker), Damaged(s.dirs[p].complete));
      && Enabled(s, HostCrash(after))
      && Do(s, HostCrash(after)).dirs == after && Do(s, HostCrash(after)).log == s.log
      && forall id :: id in s.actors && !s.actors[id].Exited? ==> Do(s, HostCrash(after)).actors[id].Crashed?
  {
  }

  lemma SyncedStays(s: State, after: map<Project, Attempt>, p: Project)
    requires Enabled(s, HostCrash(after)) && p in s.dirs && s.dirs[p].entryDurable
    ensures p in after && after[p].entryDurable
    ensures s.dirs[p].claim == Whole(true) ==> after[p].claim == Whole(true)
    ensures s.dirs[p].marker == Whole(true) ==> after[p].marker == Whole(true)
    ensures s.dirs[p].complete == Whole(true) ==> after[p].complete == Whole(true)
  {
  }

  function Rank(pc: ActivationPc): nat {
    match pc
    case Begun => 17 case Made => 16 case RootSynced => 15
    case ClaimOpen => 14 case ClaimFull => 13 case ClaimSynced => 12 case Prechecked => 11
    case MarkerOpen => 10 case MarkerFull => 9 case MarkerSynced => 8 case Launchable => 7
    case UpInFlight => 6 case UpReturned => 5 case Captured => 4
    case CompleteOpen => 3 case CompleteFull => 2 case CompleteSynced => 1
  }

  /** `n` undisturbed steps of one actor. */
  ghost function Alone(s: State, id: Id, n: nat): State
    decreases n
  {
    if n > 0 && id in s.actors && CanAdvance(s, id) && s.actors[id].Activation?
    then Alone(Do(s, Advance(id)), id, n - 1) else s
  }

  lemma UndisturbedStep(s: State, id: Id, p: Project, pc: ActivationPc) returns (t: State)
    requires id in s.actors && s.actors[id] == Activation(p, pc) && pc != CompleteSynced
    requires if pc == Begun then p !in s.dirs else p in s.dirs && DiskMatches(pc, s.dirs[p])
    ensures CanAdvance(s, id) && t == Do(s, Advance(id)) && Alone(s, id, Rank(pc)) == Alone(t, id, Rank(NextPc(pc)))
    ensures Rank(NextPc(pc)) < Rank(pc) && NextPc(pc) != Begun
    ensures t.actors == s.actors[id := Activation(p, NextPc(pc))]
    ensures t.log == s.log + Events(id, p, pc)
    ensures p in t.dirs && t.dirs == s.dirs[p := t.dirs[p]] && DiskMatches(NextPc(pc), t.dirs[p])
  {
    t := Do(s, Advance(id));
    if pc != Begun { OwnDisk(s, p, pc); }
  }

  /** What an activation that has come as far as `pc` has yet to show the world. */
  function Ahead(id: Id, p: Project, pc: ActivationPc): seq<Event> {
    if !Launched(pc) then [UpIssued(id, p), UpSucceeded(id, p), CompletionWritten(id, p)]
    else if pc == UpInFlight then [UpSucceeded(id, p), CompletionWritten(id, p)]
    else if pc in {UpReturned, Captured, CompleteOpen} then [CompletionWritten(id, p)]
    else []
  }

  lemma UndisturbedEnd(s: State, id: Id, p: Project)
    requires id in s.actors && s.actors[id] == Activation(p, CompleteSynced)
    requires p in s.dirs && DiskMatches(CompleteSynced, s.dirs[p])
    ensures var t := Alone(s, id, Rank(CompleteSynced));
      && t.actors == s.actors[id := Exited(p, true, 0)]
      && t.log == s.log + Ahead(id, p, CompleteSynced)
      && t.dirs == s.dirs[p := Attempt(true, Whole(true), Whole(true), Whole(true))]
  {
    assert Alone(s, id, 1) == Do(s, Advance(id));
    assert s.dirs[p := Attempt(true, Whole(true), Whole(true), Whole(true))] == s.dirs;
  }

  lemma AheadStep(id: Id, p: Project, pc: ActivationPc)
    requires pc != CompleteSynced
    ensures Events(id, p, pc) + Ahead(id, p, NextPc(pc)) == Ahead(id, p, pc)
  {
    if pc in {Launchable, UpInFlight, CompleteOpen} {
      assert Ahead(id, p, pc)[..1] == Events(id, p, pc) && Ahead(id, p, pc)[1..] == Ahead(id, p, NextPc(pc));
    }
  }

  /** The protocol is not vacuous: an activation left alone on a fresh project launches once, leaves
      its three receipts durable, and exits 0; and so it goes on from wherever it has got to. */
  lemma {:induction false} UndisturbedActivationSucceeds(s: State, id: Id, p: Project, pc: ActivationPc)
    requires id in s.actors && s.actors[id] == Activation(p, pc)
    requires if pc == Begun then p !in s.dirs else p in s.dirs && DiskMatches(pc, s.dirs[p])
    ensures var t := Alone(s, id, Rank(pc));
      && t.actors == s.actors[id := Exited(p, true, 0)]
      && t.log == s.log + Ahead(id, p, pc)
      && t.dirs == s.dirs[p := Attempt(true, Whole(true), Whole(true), Whole(true))]
    decreases Rank(pc)
  {
    hide *;
    if pc != CompleteSynced {
      var t := UndisturbedStep(s, id, p, pc);
      AheadStep(id, p, pc);
      UndisturbedActivationSucceeds(t, id, p, NextPc(pc));
      assert t.actors[id := Exited(p, true, 0)] == s.actors[id := Exited(p, true, 0)];
      assert t.log + Ahead(id, p, NextPc(pc)) == s.log + (Events(id, p, pc) + Ahead(id, p, NextPc(pc)));
    } else {
      UndisturbedEnd(s, id, p);
    }
  }

  /** A manager inside may start and stop `n` more containers and then confirm its goal. */
  lemma {:induction false} ManagerActs(s: State, id: Id, p: Project, n: nat) returns (states: seq<State>, steps: seq<Step>)
    requires id in s.actors && s.actors[id].Manager? && s.actors[id].project == p && s.actors[id].mpc.Acting?
    ensures Follows(states, steps) && states[0] == s
    ensures var t := states[|steps|];
      && t.actors == s.actors[id := Exited(p, false, 0)] && t.dirs == s.dirs
      && |t.log| == |s.log| + n && s.log <= t.log
      && forall i :: |s.log| <= i < |t.log| ==> t.log[i] == Mutated(id, p)
    ensures var t := states[|steps|];
      t.rootLock != Some(id) && t.attemptLocks == map q | q in s.attemptLocks && s.attemptLocks[q] != id :: s.attemptLocks[q]
    ensures s.rootLock == Some(id) ==> states[|steps|].rootLock == None
    decreases n
  {
    if n == 0 {
      states, steps := [s, Do(s, Finish(id))], [Finish(id)];
    } else {
      var next := Do(s, Advance(id));
      var more, rest := ManagerActs(next, id, p, n - 1);
      states, steps := [s] + more, [Advance(id)] + rest;
      assert states[|steps|] == more[|rest|];
    }
  }

  /** A manager that finds both locks free and the three receipts whole can start and stop any
      number of containers and return 0, and it leaves the locks as it found them. */
  lemma UndisturbedManagerSucceeds(s: State, id: Id, p: Project, n: nat) returns (states: seq<State>, steps: seq<Step>)
    requires id in s.actors && s.actors[id] == Manager(p, Opened)
    requires s.rootLock == None && p !in s.attemptLocks && forall q :: q in s.attemptLocks ==> s.attemptLocks[q] != id
    requires p in s.dirs && s.dirs[p].claim.Whole? && s.dirs[p].marker.Whole? && s.dirs[p].complete.Whole?
    ensures Follows(states, steps) && states[0] == s
    ensures var t := states[|steps|];
      && t.actors == s.actors[id := Exited(p, false, 0)] && t.dirs == s.dirs
      && |t.log| == |s.log| + n && s.log <= t.log
      && (forall i :: |s.log| <= i < |t.log| ==> t.log[i] == Mutated(id, p))
      && t.rootLock == None && t.attemptLocks == s.attemptLocks
  {
    var step := Advance(id);
    var rooted := Do(s, step);
    var locked := Do(rooted, step);
    var loaded := Do(locked, step);
    var acting := Do(loaded, step);
    var more, rest := ManagerActs(acting, id, p, n);
    states, steps := [s, rooted, locked, loaded] + more, [step, step, step, step] + rest;
    assert states[|steps|] == more[|rest|];
  }
}
