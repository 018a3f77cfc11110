/** Staging a release bundle: many stagers over one parent directory, each free to stop anywhere. */
module Publication {
  import opened Ustar
  import opened Archive

  type DirId = nat

  /** What every stager agrees on: the fixed member list and the check of the extracted contents. */
  datatype Policy = Policy(expected: seq<Bytes>, directories: set<Bytes>, genuine: seq<Node> -> bool)

  datatype Bundle = Bundle(file: Bytes, members: seq<Member>)

  datatype Phase =
    | Starting
    | Absent
    | Filling(temp: string, id: DirId)
    | Checked(temp: string, id: DirId)
    | Renamed(id: DirId)
    | Succeeded(id: DirId)
    | Failed

  datatype Stager = Stager(destination: string, bundle: Bundle, phase: Phase)

  /** The parent directory, what its directories hold, and the stagers. */
  datatype State = State(parent: map<string, DirId>, dirs: map<DirId, seq<Node>>, stagers: seq<Stager>)

  datatype Step =
    | Join(destination: string, bundle: Bundle)
    | SeeAbsent(i: nat)
    | MakeTemp(i: nat, temp: string, id: DirId)
    | Write(i: nat, partial: seq<Node>)
    | Verify(i: nat)
    | Rename(i: nat)
    | Confirm(i: nat)
    | Fail(i: nat)

  /** Destination names start with a letter or digit, temporary ones with a dot. */
  predicate IsLeaf(name: string) {
    name != "" && name[0] != '.'
  }

  predicate IsTemp(name: string) {
    name != "" && name[0] == '.'
  }

  predicate Acceptable(policy: Policy, b: Bundle) {
    && Accepts(b.file, b.members, policy.expected, policy.directories)
    && policy.genuine(Extracted(b.file, b.members, policy.directories))
  }

  function Contents(policy: Policy, b: Bundle): seq<Node> {
    Extracted(b.file, b.members, policy.directories)
  }

  /** The complete fixed member set, extracted from an accepted bundle and verified. */
  ghost predicate Complete(policy: Policy, nodes: seq<Node>) {
    exists b :: Acceptable(policy, b) && nodes == Contents(policy, b)
  }

  function Phased(s: State, i: nat, phase: Phase): seq<Stager>
    requires i < |s.stagers|
  {
    s.stagers[i := s.stagers[i].(phase := phase)]
  }

  predicate Enabled(policy: Policy, s: State, step: Step) {
    match step
    case Join(destination, _) => IsLeaf(destination)
    case SeeAbsent(i) => i < |s.stagers| && s.stagers[i].phase.Starting? && s.stagers[i].destination !in s.parent
    case MakeTemp(i, temp, id) =>
      i < |s.stagers| && s.stagers[i].phase.Absent? && IsTemp(temp) && temp !in s.parent && id !in s.dirs
    case Write(i, _) => i < |s.stagers| && s.stagers[i].phase.Filling?
    case Verify(i) => i < |s.stagers| && s.stagers[i].phase.Filling? && Acceptable(policy, s.stagers[i].bundle)
    case Rename(i) => i < |s.stagers| && s.stagers[i].phase.Checked? && s.stagers[i].destination !in s.parent
    case Confirm(i) =>
      && i < |s.stagers| && s.stagers[i].phase.Renamed?
      && s.stagers[i].destination in s.parent && s.parent[s.stagers[i].destination] == s.stagers[i].phase.id
    case Fail(i) => i < |s.stagers| && !s.stagers[i].phase.Succeeded?
  }

  function Next(policy: Policy, s: State, step: Step): State
    requires Enabled(policy, s, step)
  {
    match step
    case Join(destination, bundle) => s.(stagers := s.stagers + [Stager(destination, bundle, Starting)])
    case SeeAbsent(i) => s.(stagers := Phased(s, i, Absent))
    case MakeTemp(i, temp, id) =>
      State(s.parent[temp := id], s.dirs[id := []], Phased(s, i, Filling(temp, id)))
    case Write(i, partial) => s.(dirs := s.dirs[s.stagers[i].phase.id := partial])
    case Verify(i) =>
      var phase := s.stagers[i].phase;
      State(s.parent, s.dirs[phase.id := Contents(policy, s.stagers[i].bundle)], Phased(s, i, Checked(phase.temp, phase.id)))
    case Rename(i) =>
      var phase := s.stagers[i].phase;
      State((s.parent - {phase.temp})[s.stagers[i].destination := phase.id], s.dirs, Phased(s, i, Renamed(phase.id)))
    case Confirm(i) => s.(stagers := Phased(s, i, Succeeded(s.stagers[i].phase.id)))
    case Fail(i) => s.(stagers := Phased(s, i, Failed))
  }

  // --------------------------------------------------------------------------------------------
  // The invariant
  // --------------------------------------------------------------------------------------------

  predicate Working(p: Phase) { p.Filling? || p.Checked? }

  /** A directory has one name, and every name a directory. */
  predicate Directories(s: State) {
    && (forall n :: n in s.parent ==> s.parent[n] in s.dirs)
    && (forall m, n :: m in s.parent && n in s.parent && s.parent[m] == s.parent[n] ==> m == n)
  }

  /** A stager at work owns its temporary directory; one that renamed owns its destination. */
  predicate Owns(s: State, t: Stager) {
    && IsLeaf(t.destination)
    && (Working(t.phase) ==> IsTemp(t.phase.temp) && t.phase.temp in s.parent && s.parent[t.phase.temp] == t.phase.id)
    && (t.phase.Renamed? || t.phase.Succeeded? ==>
        t.destination in s.parent && s.parent[t.destination] == t.phase.id)
  }

  ghost predicate Holds(policy: Policy, s: State, t: Stager) {
    && (t.phase.Checked? ==> t.phase.id in s.dirs && s.dirs[t.phase.id] == Contents(policy, t.bundle) && Acceptable(policy, t.bundle))
    && (t.phase.Renamed? || t.phase.Succeeded? ==>
        t.phase.id in s.dirs && s.dirs[t.phase.id] == Contents(policy, t.bundle) && Acceptable(policy, t.bundle))
  }

  predicate OwnDirectories(s: State) {
    forall i, j :: 0 <= i < j < |s.stagers| && Working(s.stagers[i].phase) && Working(s.stagers[j].phase) ==>
      s.stagers[i].phase.id != s.stagers[j].phase.id
  }

  /** Every destination name that was not there at first names a complete tree. */
  ghost predicate Published(policy: Policy, first: State, s: State) {
    && (forall n :: n in first.parent && IsLeaf(n) ==>
        n in s.parent && s.parent[n] == first.parent[n] && first.parent[n] in first.dirs && first.parent[n] in s.dirs
        && s.dirs[first.parent[n]] == first.dirs[first.parent[n]])
    && (forall n :: n in s.parent && IsLeaf(n) && n !in first.parent ==>
        s.parent[n] in s.dirs && Complete(policy, s.dirs[s.parent[n]]))
  }

  ghost predicate Inv(policy: Policy, first: State, s: State) {
    && Directories(s)
    && (forall i :: 0 <= i < |s.stagers| ==> Owns(s, s.stagers[i]) && Holds(policy, s, s.stagers[i]))
    && OwnDirectories(s)
    && Published(policy, first, s)
  }

  predicate Init(s: State) {
    s.stagers == [] && Directories(s)
  }

  lemma InitHolds(policy: Policy, s: State)
    requires Init(s)
    ensures Inv(policy, s, s)
  {
  }

  lemma PhaseKeeps(policy: Policy, first: State, s: State, i: nat, phase: Phase)
    requires Inv(policy, first, s) && i < |s.stagers| && !Working(phase) && !phase.Renamed?
    requires phase.Succeeded? ==> s.stagers[i].phase == Renamed(phase.id)
    ensures Inv(policy, first, s.(stagers := Phased(s, i, phase)))
  {
    hide Acceptable, Contents;
    assert Owns(s, s.stagers[i]) && Holds(policy, s, s.stagers[i]);
  }

  lemma MakeTempOwns(policy: Policy, first: State, s: State, i: nat, temp: string, id: DirId)
    requires Inv(policy, first, s) && Enabled(policy, s, MakeTemp(i, temp, id))
    ensures var t := Next(policy, s, MakeTemp(i, temp, id));
      Directories(t) && OwnDirectories(t) && forall j :: 0 <= j < |t.stagers| ==> Owns(t, t.stagers[j])
  {
    hide Acceptable, Contents, Published, Holds;
    assert Owns(s, s.stagers[i]);
  }

  lemma MakeTempPublishes(policy: Policy, first: State, s: State, i: nat, temp: string, id: DirId)
    requires Inv(policy, first, s) && Enabled(policy, s, MakeTemp(i, temp, id))
    ensures Published(policy, first, Next(policy, s, MakeTemp(i, temp, id)))
  {
    hide Complete, Holds, Owns, OwnDirectories;
  }

  lemma MakeTempKeeps(policy: Policy, first: State, s: State, i: nat, temp: string, id: DirId)
    requires Inv(policy, first, s) && Enabled(policy, s, MakeTemp(i, temp, id))
    ensures Inv(policy, first, Next(policy, s, MakeTemp(i, temp, id)))
  {
    MakeTempOwns(policy, first, s, i, temp, id);
    MakeTempPublishes(policy, first, s, i, temp, id);
    hide Acceptable, Contents, Owns, OwnDirectories, Published, Directories;
    assert Holds(policy, s, s.stagers[i]);
  }

  lemma WriteKeeps(policy: Policy, first: State, s: State, i: nat, partial: seq<Node>)
    requires Inv(policy, first, s) && Enabled(policy, s, Write(i, partial))
    ensures Inv(policy, first, Next(policy, s, Write(i, partial)))
  {
    hide Acceptable, Contents;
    assert Owns(s, s.stagers[i]) && Holds(policy, s, s.stagers[i]);
  }

  lemma VerifyKeeps(policy: Policy, first: State, s: State, i: nat)
    requires Inv(policy, first, s) && Enabled(policy, s, Verify(i))
    ensures Inv(policy, first, Next(policy, s, Verify(i)))
  {
    hide Acceptable, Contents;
    assert Owns(s, s.stagers[i]) && Holds(policy, s, s.stagers[i]);
  }

  lemma RenameKeeps(policy: Policy, first: State, s: State, i: nat)
    requires Inv(policy, first, s) && Enabled(policy, s, Rename(i))
    ensures Inv(policy, first, Next(policy, s, Rename(i)))
  {
    hide Acceptable, Contents;
    assert Owns(s, s.stagers[i]) && Holds(policy, s, s.stagers[i]);
  }

  lemma JoinKeeps(policy: Policy, first: State, s: State, destination: string, bundle: Bundle)
    requires Inv(policy, first, s) && IsLeaf(destination)
    ensures Inv(policy, first, Next(policy, s, Join(destination, bundle)))
  {
    hide Acceptable, Contents;
  }

  lemma StepKeeps(policy: Policy, first: State, s: State, step: Step)
    requires Inv(policy, first, s) && Enabled(policy, s, step)
    ensures Inv(policy, first, Next(policy, s, step))
  {
    hide Inv;
    match step {
      case Join(destination, bundle) => JoinKeeps(policy, first, s, destination, bundle);
      case SeeAbsent(i) => PhaseKeeps(policy, first, s, i, Absent);
      case MakeTemp(i, temp, id) => MakeTempKeeps(policy, first, s, i, temp, id);
      case Write(i, partial) => WriteKeeps(policy, first, s, i, partial);
      case Verify(i) => VerifyKeeps(policy, first, s, i);
      case Rename(i) => RenameKeeps(policy, first, s, i);
      case Confirm(i) => PhaseKeeps(policy, first, s, i, Succeeded(s.stagers[i].phase.id));
      case Fail(i) => PhaseKeeps(policy, first, s, i, Failed);
    }
  }

  // --------------------------------------------------------------------------------------------
  // Runs
  // --------------------------------------------------------------------------------------------

  predicate Run(policy: Policy, states: seq<State>, steps: seq<Step>) {
    && |states| == |steps| + 1
    && forall k :: 0 <= k < |steps| ==>
      Enabled(policy, states[k], steps[k]) && states[k + 1] == Next(policy, states[k], steps[k])
  }

  lemma {:induction false} RunKeeps(policy: Policy, states: seq<State>, steps: seq<Step>, k: nat)
    requires Run(policy, states, steps) && Init(states[0]) && k < |states|
    ensures Inv(policy, states[0], states[k])
  {
    hide Inv, Enabled, Next;
    if k == 0 {
      InitHolds(policy, states[0]);
    } else {
      RunKeeps(policy, states, steps, k - 1);
      StepKeeps(policy, states[0], states[k - 1], steps[k - 1]);
    }
  }

  lemma CompleteInFull(policy: Policy, nodes: seq<Node>)
    ensures Complete(policy, nodes) <==>
      exists b: Bundle :: (
        && Accepts(b.file, b.members, policy.expected, policy.directories)
        && nodes == Extracted(b.file, b.members, policy.directories) && policy.genuine(nodes))
  {
    hide Accepts, Extracted;
    if Complete(policy, nodes) {
      var b :| Acceptable(policy, b) && nodes == Contents(policy, b);
      assert Accepts(b.file, b.members, policy.expected, policy.directories)
        && nodes == Extracted(b.file, b.members, policy.directories) && policy.genuine(nodes);
    }
    if b: Bundle :| (
        && Accepts(b.file, b.members, policy.expected, policy.directories)
        && nodes == Extracted(b.file, b.members, policy.directories) && policy.genuine(nodes)) {
      assert Acceptable(policy, b) && nodes == Contents(policy, b);
    }
  }

  /** At every point of every run a destination is absent, or as it was at first, or names the verified
      contents of an accepted bundle. */
  lemma DestinationIsAbsentOrComplete(policy: Policy, states: seq<State>, steps: seq<Step>, k: nat, name: string)
    requires Run(policy, states, steps) && Init(states[0]) && k < |states| && IsLeaf(name)
    ensures name in states[0].parent ==>
      name in states[k].parent && states[k].parent[name] == states[0].parent[name]
    ensures name in states[k].parent ==> states[k].parent[name] in states[k].dirs
    ensures name in states[k].parent && name !in states[0].parent ==>
      exists b: Bundle :: (
        && Accepts(b.file, b.members, policy.expected, policy.directories)
        && states[k].dirs[states[k].parent[name]] == Extracted(b.file, b.members, policy.directories)
        && policy.genuine(states[k].dirs[states[k].parent[name]]))
  {
    hide Accepts, Extracted, Complete, Owns, Holds, OwnDirectories;
    RunKeeps(policy, states, steps, k);
    assert Published(policy, states[0], states[k]);
    if name in states[k].parent && name !in states[0].parent {
      CompleteInFull(policy, states[k].dirs[states[k].parent[name]]);
    }
  }

  lemma NamesAreBacked(policy: Policy, first: State, s: State)
    requires Inv(policy, first, s)
    ensures forall n :: n in s.parent ==> s.parent[n] in s.dirs
  {
  }

  /** Once a destination is there it is never replaced and its contents never change. */
  lemma {:induction false} PublishedIsFinal(policy: Policy, states: seq<State>, steps: seq<Step>, j: nat, k: nat, name: string)
    requires Run(policy, states, steps) && Init(states[0]) && j <= k < |states|
    requires IsLeaf(name) && name in states[j].parent
    ensures states[j].parent[name] in states[j].dirs
    ensures name in states[k].parent && states[k].parent[name] == states[j].parent[name]
    ensures states[k].parent[name] in states[k].dirs
    ensures states[k].dirs[states[k].parent[name]] == states[j].dirs[states[j].parent[name]]
    decreases k
  {
    RunKeeps(policy, states, steps, j);
    NamesAreBacked(policy, states[0], states[j]);
    hide Inv, Enabled, Next, Init;
    if j < k {
      PublishedIsFinal(policy, states, steps, j, k - 1, name);
      RunKeeps(policy, states, steps, k - 1);
      StepLeavesLeaves(policy, states[0], states[k - 1], steps[k - 1], name);
    }
  }

  lemma StepLeavesLeaves(policy: Policy, first: State, s: State, step: Step, name: string)
    requires Inv(policy, first, s) && Enabled(policy, s, step) && IsLeaf(name) && name in s.parent
    ensures var t := Next(policy, s, step);
      name in t.parent && t.parent[name] == s.parent[name]
      && s.parent[name] in s.dirs && s.parent[name] in t.dirs && t.dirs[s.parent[name]] == s.dirs[s.parent[name]]
  {
    hide Accepts, Extracted, Acceptable, Contents, Published;
    match step {
      case Write(i, _) => assert Owns(s, s.stagers[i]);
      case Verify(i) => assert Owns(s, s.stagers[i]);
      case Rename(i) => assert Owns(s, s.stagers[i]);
      case _ =>
    }
  }

  /** Of the stagers with one destination at most one ever publishes. */
  lemma OnePublisher(policy: Policy, states: seq<State>, steps: seq<Step>, j: nat, k: nat)
    requires Run(policy, states, steps) && Init(states[0]) && j < k < |steps|
    requires steps[j].Rename? && steps[k].Rename?
    ensures states[j].stagers[steps[j].i].destination != states[k].stagers[steps[k].i].destination
  {
    var name := states[j].stagers[steps[j].i].destination;
    RunKeeps(policy, states, steps, j);
    assert Owns(states[j], states[j].stagers[steps[j].i]);
    assert name in states[j + 1].parent;
    PublishedIsFinal(policy, states, steps, j + 1, k, name);
  }

  /** A stager that reports success has published exactly the contents of its own bundle. */
  lemma SuccessIsPublished(policy: Policy, states: seq<State>, steps: seq<Step>, k: nat, i: nat)
    requires Run(policy, states, steps) && Init(states[0]) && k < |states|
    requires i < |states[k].stagers| && states[k].stagers[i].phase.Succeeded?
    ensures var t := states[k].stagers[i];
      && Accepts(t.bundle.file, t.bundle.members, policy.expected, policy.directories)
      && t.destination in states[k].parent && states[k].parent[t.destination] in states[k].dirs
      && states[k].dirs[states[k].parent[t.destination]] == Extracted(t.bundle.file, t.bundle.members, policy.directories)
      && policy.genuine(states[k].dirs[states[k].parent[t.destination]])
      && t.destination !in states[0].parent
  {
    RunKeeps(policy, states, steps, k);
    assert Owns(states[k], states[k].stagers[i]) && Holds(policy, states[k], states[k].stagers[i]);
    SucceededWasAbsent(policy, states, steps, k, i);
  }

  /** Whoever renamed found the destination absent, so it was absent at first. */
  lemma {:induction false} SucceededWasAbsent(policy: Policy, states: seq<State>, steps: seq<Step>, k: nat, i: nat)
    requires Run(policy, states, steps) && Init(states[0]) && k < |states|
    requires i < |states[k].stagers| && (states[k].stagers[i].phase.Succeeded? || states[k].stagers[i].phase.Renamed?)
    ensures states[k].stagers[i].destination !in states[0].parent
    decreases k
  {
    hide Accepts, Extracted, Acceptable, Contents, Inv;
    var s, step := states[k - 1], steps[k - 1];
    if i < |s.stagers| && (s.stagers[i].phase.Succeeded? || s.stagers[i].phase.Renamed?) {
      SucceededWasAbsent(policy, states, steps, k - 1, i);
    } else {
      assert step == Rename(i);
      DestinationIsAbsentOrComplete(policy, states, steps, k - 1, s.stagers[i].destination) by {
        LeafDestination(policy, states, steps, k - 1, i);
      }
    }
  }

  lemma LeafDestination(policy: Policy, states: seq<State>, steps: seq<Step>, k: nat, i: nat)
    requires Run(policy, states, steps) && Init(states[0]) && k < |states| && i < |states[k].stagers|
    ensures IsLeaf(states[k].stagers[i].destination)
  {
    RunKeeps(policy, states, steps, k);
    assert Owns(states[k], states[k].stagers[i]);
  }

  /** A complete tree holds exactly the fixed members. */
  lemma CompleteHasAllMembers(policy: Policy, nodes: seq<Node>)
    requires Complete(policy, nodes)
    ensures policy.genuine(nodes) && |nodes| == |policy.expected|
    ensures forall i :: 0 <= i < |nodes| ==>
      nodes[i].name == policy.expected[i] && nodes[i].directory == (policy.expected[i] in policy.directories)
  {
  }

  /** A lone stager with an acceptable bundle and an absent destination gets through: its destination
      then names the contents of its bundle, its temporary name is gone, and all other names are kept. */
  lemma UndisturbedStagerSucceeds(policy: Policy, s: State, i: nat, temp: string, id: DirId)
      returns (states: seq<State>, steps: seq<Step>)
    requires i < |s.stagers| && s.stagers[i].phase.Starting? && IsLeaf(s.stagers[i].destination)
    requires s.stagers[i].destination !in s.parent
    requires var b := s.stagers[i].bundle;
      && Accepts(b.file, b.members, policy.expected, policy.directories)
      && policy.genuine(Extracted(b.file, b.members, policy.directories))
    requires IsTemp(temp) && temp !in s.parent && id !in s.dirs
    ensures Run(policy, states, steps) && states[0] == s
    ensures var t, d, b := states[|steps|], s.stagers[i].destination, s.stagers[i].bundle;
      && t.stagers == s.stagers[i := Stager(d, b, Succeeded(id))]
      && t.parent == s.parent[d := id]
      && t.dirs == s.dirs[id := Extracted(b.file, b.members, policy.directories)]
  {
    hide Accepts, Extracted;
    steps := [SeeAbsent(i), MakeTemp(i, temp, id), Verify(i), Rename(i), Confirm(i)];
    var s1 := Next(policy, s, steps[0]);
    var s2 := Next(policy, s1, steps[1]);
    var s3 := Next(policy, s2, steps[2]);
    var s4 := Next(policy, s3, steps[3]);
    var s5 := Next(policy, s4, steps[4]);
    states := [s, s1, s2, s3, s4, s5];
  }

  /** A stager may write anything before it checks, and may end at any point without tidying up. */
  lemma StagersMayEndAnywhere(policy: Policy, s: State, i: nat, partial: seq<Node>)
    requires i < |s.stagers| && !s.stagers[i].phase.Succeeded?
    ensures Enabled(policy, s, Fail(i))
    ensures Next(policy, s, Fail(i)) == s.(stagers := s.stagers[i := s.stagers[i].(phase := Failed)])
    ensures s.stagers[i].phase.Filling? ==>
      && Enabled(policy, s, Write(i, partial))
      && Next(policy, s, Write(i, partial)) == s.(dirs := s.dirs[s.stagers[i].phase.id := partial])
  {
  }
}
