/** Staging when the host may crash. Every file of a tree is synced as it is written, and the parent after
    the rename; the directories of the tree never are. */
module PowerLoss {
  import opened Archive
  import opened Publication

  /** What the stagers see, and what of it is on stable storage: entries of the parent, whole trees. */
  datatype Disk = Disk(state: State, settled: set<string>, written: set<DirId>)

  datatype Event =
    | Act(step: Step)
    | Settle                  // the parent is synced, by a stager after its rename or by the system
    | WriteBack(id: DirId)    // the system writes back a whole tree
    | Crash(left: State)

  /** A tree of which directory entries are missing; the files still there are intact. */
  predicate Remnant(nodes: seq<Node>, whole: seq<Node>) {
    forall n <- nodes :: n in whole
  }

  function Perished(t: Stager): Stager {
    if t.phase.Succeeded? then t else t.(phase := Failed)
  }

  /** What a host crash may leave: settled entries and written trees stay; an unsettled rename may be
      undone, and a tree that was not written back may be torn; no process survives. */
  predicate Leaves(d: Disk, left: State) {
    && Directories(left)
    && (forall n :: n in d.settled && n in d.state.parent ==> n in left.parent && left.parent[n] == d.state.parent[n])
    && (forall n :: n in left.parent && IsLeaf(n) ==>
          n in d.state.parent && left.parent[n] == d.state.parent[n] && left.parent[n] in d.state.dirs
          && Remnant(left.dirs[left.parent[n]], d.state.dirs[left.parent[n]]))
    && (forall id :: id in d.written && id in d.state.dirs ==> id in left.dirs && left.dirs[id] == d.state.dirs[id])
    && |left.stagers| == |d.state.stagers|
    && (forall i :: 0 <= i < |left.stagers| ==> left.stagers[i] == Perished(d.state.stagers[i]))
  }

  predicate Enables(policy: Policy, d: Disk, e: Event) {
    match e
    case Act(step) =>
      && Enabled(policy, d.state, step)
      && (step.Confirm? ==> d.state.stagers[step.i].destination in d.settled)
    case Settle => true
    case WriteBack(_) => true
    case Crash(left) => Leaves(d, left)
  }

  /** What a step takes back from stable storage. */
  function Unsettled(s: State, step: Step): set<string> {
    match step
    case Rename(i) => if i < |s.stagers| && s.stagers[i].phase.Checked? then {s.stagers[i].phase.temp} else {}
    case _ => {}
  }

  function Unwritten(s: State, step: Step): set<DirId> {
    match step
    case MakeTemp(_, _, id) => {id}
    case Write(i, _) => if i < |s.stagers| && s.stagers[i].phase.Filling? then {s.stagers[i].phase.id} else {}
    case Verify(i) => if i < |s.stagers| && s.stagers[i].phase.Filling? then {s.stagers[i].phase.id} else {}
    case _ => {}
  }

  function After(policy: Policy, d: Disk, e: Event): Disk
    requires Enables(policy, d, e)
  {
    match e
    case Act(step) =>
      Disk(Publication.Next(policy, d.state, step), d.settled - Unsettled(d.state, step), d.written - Unwritten(d.state, step))
    case Settle => d.(settled := d.state.parent.Keys)
    case WriteBack(id) => d.(written := d.written + {id})
    case Crash(left) => Disk(left, left.parent.Keys, left.dirs.Keys)
  }

  // --------------------------------------------------------------------------------------------
  // The condition
  // --------------------------------------------------------------------------------------------

  /** Every destination that was not there at first names a tree that is on stable storage. */
  predicate WrittenBack(first: State, d: Disk) {
    forall n :: n in d.state.parent && IsLeaf(n) && n !in first.parent ==> d.state.parent[n] in d.written
  }

  /** What was there at first is on stable storage, and so is the entry of every reported success. */
  predicate Stored(first: State, d: Disk) {
    && (forall n :: n in first.parent && IsLeaf(n) ==> n in d.settled && first.parent[n] in d.written)
    && (forall i :: 0 <= i < |d.state.stagers| && d.state.stagers[i].phase.Succeeded? ==>
          d.state.stagers[i].destination in d.settled)
  }

  ghost predicate Kept(policy: Policy, first: State, d: Disk) {
    Inv(policy, first, d.state) && Stored(first, d)
  }

  lemma StepKeepsStored(policy: Policy, first: State, d: Disk, step: Step)
    requires Kept(policy, first, d) && Enables(policy, d, Act(step))
    ensures Stored(first, After(policy, d, Act(step)))
  {
    hide Acceptable, Contents, Complete, Holds;
    match step {
      case Write(i, _) => assert Owns(d.state, d.state.stagers[i]);
      case Verify(i) => assert Owns(d.state, d.state.stagers[i]);
      case Rename(i) => assert Owns(d.state, d.state.stagers[i]);
      case _ =>
    }
  }

  lemma CrashKeeps(policy: Policy, first: State, d: Disk, left: State)
    requires Kept(policy, first, d) && Leaves(d, left) && WrittenBack(first, d)
    ensures Kept(policy, first, After(policy, d, Crash(left)))
  {
    hide Acceptable, Contents, Complete, Remnant;
    forall i | 0 <= i < |left.stagers| ensures Owns(left, left.stagers[i]) && Holds(policy, left, left.stagers[i]) {
      assert Owns(d.state, d.state.stagers[i]) && Holds(policy, d.state, d.state.stagers[i]);
    }
  }

  lemma EventKeeps(policy: Policy, first: State, d: Disk, e: Event)
    requires Kept(policy, first, d) && Enables(policy, d, e)
    requires e.Crash? ==> WrittenBack(first, d)
    ensures Kept(policy, first, After(policy, d, e))
  {
    match e {
      case Act(step) =>
        StepKeeps(policy, first, d.state, step);
        StepKeepsStored(policy, first, d, step);
      case Crash(left) => CrashKeeps(policy, first, d, left);
      case Settle => SettleKeeps(policy, first, d);
      case WriteBack(_) =>
    }
  }

  lemma SettleKeeps(policy: Policy, first: State, d: Disk)
    requires Kept(policy, first, d)
    ensures Stored(first, d.(settled := d.state.parent.Keys))
  {
    hide Acceptable, Contents, Complete, Holds;
    forall i | 0 <= i < |d.state.stagers| ensures Owns(d.state, d.state.stagers[i]) {}
  }

  /** From a state the stagers can reach, a host crash leaves every new destination absent or complete
      exactly when all their trees were written back. */
  lemma CrashIsSafeExactly(policy: Policy, first: State, d: Disk)
    requires Kept(policy, first, d) && policy.expected != []
    ensures WrittenBack(first, d) <==> forall left :: Leaves(d, left) ==> Published(policy, first, left)
  {
    if WrittenBack(first, d) {
      forall left | Leaves(d, left) ensures Published(policy, first, left) { CrashKeeps(policy, first, d, left); }
    } else {
      var n :| n in d.state.parent && IsLeaf(n) && n !in first.parent && d.state.parent[n] !in d.written;
      var left := Torn(d, d.state.parent[n]);
      TornIsLeft(d, d.state.parent[n]);
      NothingIsIncomplete(policy);
    }
  }

  /** The state after a crash that empties one tree. */
  function Torn(d: Disk, id: DirId): State {
    State(d.state.parent, d.state.dirs[id := []],
          seq(|d.state.stagers|, i requires 0 <= i < |d.state.stagers| => Perished(d.state.stagers[i])))
  }

  lemma TornIsLeft(d: Disk, id: DirId)
    requires Directories(d.state) && id !in d.written
    ensures Leaves(d, Torn(d, id))
  {
  }

  /** Whatever entries were not settled and whatever trees were not written back, a host crash may take
      all of them at once, with every stager at work. */
  lemma CrashMayTakeAll(d: Disk, names: set<string>, id: DirId) returns (left: State)
    requires Directories(d.state) && names !! d.settled && id !in d.written
    ensures Leaves(d, left) && forall n :: n in left.parent ==> n !in names
    ensures id in left.dirs && left.dirs[id] == []
    ensures |left.stagers| == |d.state.stagers| && forall i :: 0 <= i < |left.stagers| ==>
      left.stagers[i].phase == if d.state.stagers[i].phase.Succeeded? then d.state.stagers[i].phase else Failed
  {
    TornIsLeft(d, id);
    left := Torn(d, id).(parent := d.state.parent - names);
  }

  /** The system may write back any tree at any time, and sync the parent. */
  lemma SystemMayWriteBack(policy: Policy, d: Disk, id: DirId)
    ensures Enables(policy, d, WriteBack(id)) && Enables(policy, d, Settle)
    ensures After(policy, d, WriteBack(id)) == d.(written := d.written + {id})
    ensures After(policy, d, Settle) == d.(settled := d.state.parent.Keys)
  {
  }

  lemma NothingIsIncomplete(policy: Policy)
    requires policy.expected != []
    ensures !Complete(policy, [])
  {
    hide Accepts, Extracted;
    if Complete(policy, []) { CompleteHasAllMembers(policy, []); }
  }

  // --------------------------------------------------------------------------------------------
  // Runs
  // --------------------------------------------------------------------------------------------

  predicate Initial(d: Disk) {
    Init(d.state) && d.settled == d.state.parent.Keys && d.written == d.state.dirs.Keys
  }

  predicate Runs(policy: Policy, disks: seq<Disk>, events: seq<Event>) {
    && |disks| == |events| + 1
    && forall k :: 0 <= k < |events| ==>
      Enables(policy, disks[k], events[k]) && disks[k + 1] == After(policy, disks[k], events[k])
  }

  /** Host crashes come only when all new destinations were written back. */
  predicate Sheltered(disks: seq<Disk>, events: seq<Event>)
    requires |disks| == |events| + 1
  {
    forall k :: 0 <= k < |events| && events[k].Crash? ==> WrittenBack(disks[0].state, disks[k])
  }

  lemma {:induction false} RunStaysKept(policy: Policy, disks: seq<Disk>, events: seq<Event>, k: nat)
    requires Runs(policy, disks, events) && Initial(disks[0]) && Sheltered(disks, events) && k < |disks|
    ensures Kept(policy, disks[0].state, disks[k])
  {
    hide Kept, Enables, After, WrittenBack;
    if k == 0 {
      InitHolds(policy, disks[0].state);
      assert Kept(policy, disks[0].state, disks[0]) by { InitialIsKept(policy, disks[0]); }
    } else {
      RunStaysKept(policy, disks, events, k - 1);
      EventKeeps(policy, disks[0].state, disks[k - 1], events[k - 1]);
    }
  }

  lemma InitialIsKept(policy: Policy, d: Disk)
    requires Initial(d)
    ensures Kept(policy, d.state, d)
  {
    InitHolds(policy, d.state);
    hide Published, Holds, Owns;
  }

  /** Across host crashes that find all new destinations written back, a destination is absent, or as
      it was at first, or names a complete verified tree. */
  lemma DestinationSurvives(policy: Policy, disks: seq<Disk>, events: seq<Event>, k: nat, name: string)
    requires Runs(policy, disks, events) && Initial(disks[0]) && Sheltered(disks, events) && k < |disks| && IsLeaf(name)
    ensures var first, s := disks[0].state, disks[k].state;
      && (name in s.parent ==> s.parent[name] in s.dirs)
      && (name in first.parent ==> name in s.parent && s.parent[name] == first.parent[name])
      && (name in s.parent && name !in first.parent ==>
          exists b: Bundle :: (
            && Accepts(b.file, b.members, policy.expected, policy.directories)
            && s.dirs[s.parent[name]] == Extracted(b.file, b.members, policy.directories)
            && policy.genuine(s.dirs[s.parent[name]])))
  {
    RunStaysKept(policy, disks, events, k);
    hide Holds, Owns, Stored, Complete, Accepts, Extracted;
    assert Published(policy, disks[0].state, disks[k].state);
    if name in disks[k].state.parent && name !in disks[0].state.parent {
      CompleteInFull(policy, disks[k].state.dirs[disks[k].state.parent[name]]);
    }
  }

  lemma SucceededStays(policy: Policy, d: Disk, e: Event, i: nat)
    requires Enables(policy, d, e) && i < |d.state.stagers| && d.state.stagers[i].phase.Succeeded?
    ensures i < |After(policy, d, e).state.stagers| && After(policy, d, e).state.stagers[i] == d.state.stagers[i]
  {
    hide Acceptable, Contents, Remnant, Directories;
  }

  /** A reported success stays published, with the contents of its own bundle, across such crashes. */
  lemma {:induction false} SuccessSurvives(policy: Policy, disks: seq<Disk>, events: seq<Event>, j: nat, k: nat, i: nat)
    requires Runs(policy, disks, events) && Initial(disks[0]) && Sheltered(disks, events) && j <= k < |disks|
    requires i < |disks[j].state.stagers| && disks[j].state.stagers[i].phase.Succeeded?
    ensures i < |disks[k].state.stagers| && disks[k].state.stagers[i] == disks[j].state.stagers[i]
    ensures var t, s := disks[j].state.stagers[i], disks[k].state;
      && t.destination in s.parent && s.parent[t.destination] in s.dirs
      && s.dirs[s.parent[t.destination]] == Extracted(t.bundle.file, t.bundle.members, policy.directories)
      && Accepts(t.bundle.file, t.bundle.members, policy.expected, policy.directories)
      && policy.genuine(s.dirs[s.parent[t.destination]])
  {
    hide Enables, After, Accepts, Extracted, Published, Stored, Directories, Sheltered;
    if j < k {
      SuccessSurvives(policy, disks, events, j, k - 1, i);
      SucceededStays(policy, disks[k - 1], events[k - 1], i);
    }
    RunStaysKept(policy, disks, events, k);
    assert Owns(disks[k].state, disks[k].state.stagers[i]) && Holds(policy, disks[k].state, disks[k].state.stagers[i]);
  }

  // --------------------------------------------------------------------------------------------
  // Where it fails
  // --------------------------------------------------------------------------------------------

  ghost predicate Leads(policy: Policy, d: Disk, x: Disk) {
    exists disks, events :: Runs(policy, disks, events) && disks[0] == d && disks[|events|] == x
  }

  lemma Stays(policy: Policy, d: Disk)
    ensures Leads(policy, d, d)
  {
    assert Runs(policy, [d], []);
  }

  lemma Further(policy: Policy, d: Disk, x: Disk, e: Event)
    requires Leads(policy, d, x) && Enables(policy, x, e)
    ensures Leads(policy, d, After(policy, x, e))
  {
    hide Enables, After;
    var disks, events :| Runs(policy, disks, events) && disks[0] == d && disks[|events|] == x;
    assert Runs(policy, disks + [After(policy, x, e)], events + [e]);
  }

  lemma Take(policy: Policy, d: Disk, x: Disk, e: Event) returns (y: Disk)
    requires Leads(policy, d, x) && Enables(policy, x, e)
    ensures y == After(policy, x, e) && Leads(policy, d, y)
  {
    hide Leads, Enables, After;
    Further(policy, d, x, e);
    y := After(policy, x, e);
  }

  /** A tree verified and not yet written back. */
  lemma FillsTree(policy: Policy, d: Disk, destination: string, bundle: Bundle, temp: string, id: DirId)
      returns (x: Disk)
    requires Initial(d) && Acceptable(policy, bundle) && IsLeaf(destination) && destination !in d.state.parent
    requires IsTemp(temp) && temp !in d.state.parent && id !in d.state.dirs
    ensures Leads(policy, d, x) && x.state.stagers == [Stager(destination, bundle, Checked(temp, id))]
    ensures x.state.parent == d.state.parent[temp := id] && x.state.dirs.Keys == d.state.dirs.Keys + {id}
    ensures id !in x.written
  {
    hide Acceptable, Contents, Leads;
    Stays(policy, d);
    x := Take(policy, d, d, Act(Join(destination, bundle)));
    assert x.state.stagers == [Stager(destination, bundle, Starting)];
    x := Take(policy, d, x, Act(SeeAbsent(0)));
    assert x.state.stagers == [Stager(destination, bundle, Absent)];
    x := Take(policy, d, x, Act(MakeTemp(0, temp, id)));
    assert x.state.stagers == [Stager(destination, bundle, Filling(temp, id))];
    x := Take(policy, d, x, Act(Verify(0)));
    assert x.state.stagers == [Stager(destination, bundle, Checked(temp, id))];
  }

  /** The same tree published and reported. */
  lemma Reports(policy: Policy, d: Disk, x: Disk, destination: string, bundle: Bundle, temp: string, id: DirId)
      returns (y: Disk)
    requires Leads(policy, d, x) && x.state.stagers == [Stager(destination, bundle, Checked(temp, id))]
    requires destination !in x.state.parent && destination != temp
    ensures Leads(policy, d, y) && y.state.stagers == [Stager(destination, bundle, Succeeded(id))]
    ensures y.state.parent == (x.state.parent - {temp})[destination := id] && y.state.dirs == x.state.dirs
    ensures y.written == x.written
  {
    hide Acceptable, Contents, Leads;
    y := Take(policy, d, x, Act(Rename(0)));
    assert y.state.stagers == [Stager(destination, bundle, Renamed(id))];
    y := Take(policy, d, y, Settle);
    y := Take(policy, d, y, Act(Confirm(0)));
    assert y.state.stagers == [Stager(destination, bundle, Succeeded(id))];
  }

  /** A stager reports success, nothing was written back, and a host crash leaves its destination
      naming an empty tree. */
  lemma SuccessMayBeTorn(policy: Policy, d: Disk, destination: string, bundle: Bundle, temp: string, id: DirId)
      returns (x: Disk)
    requires Initial(d) && Acceptable(policy, bundle) && policy.expected != []
    requires IsLeaf(destination) && destination !in d.state.parent
    requires IsTemp(temp) && temp !in d.state.parent && id !in d.state.dirs
    ensures Leads(policy, d, x)
    ensures x.state.stagers == [Stager(destination, bundle, Succeeded(id))]
    ensures destination in x.state.parent && x.state.parent[destination] in x.state.dirs
    ensures !Complete(policy, x.state.dirs[x.state.parent[destination]])
  {
    hide Acceptable, Contents, Leads, Leaves, Complete;
    var y := FillsTree(policy, d, destination, bundle, temp, id);
    y := Reports(policy, d, y, destination, bundle, temp, id);
    TornIsLeft(y, id);
    NothingIsIncomplete(policy);
    x := Take(policy, d, y, Crash(Torn(y, id)));
  }
}
