/** Fresh start, resume and stop of one local sandbox trial. */
module LocalSandbox {
  import opened Prelude
  import opened Docker

  /** Exit codes a stopped service may have left, in start order. */
  const EXPECTED_STOP_EXIT_CODES: seq<set<int>> := [{0}, {0, 143}, {0}, {0, 143}, {0, 143}, {0, 143}]

  datatype Strict = RUNNING | HALTED

  /** Strict verdict on one container; None stands for a raised error. */
  function StrictState(i: nat, c: Container): Option<Strict>
    requires i < SERVICES
  {
    if c.restartCount != 0 then None
    else if c.status == Running then (if c.health == Healthy then Some(RUNNING) else None)
    else if c.status == Exited && c.exitCode in EXPECTED_STOP_EXIT_CODES[i] then Some(HALTED)
    else None
  }

  /** Containment only asks whether a container may still be executing. */
  function ContainmentState(c: Container): Strict {
    if c.status == Exited || c.status == Dead then HALTED else RUNNING
  }

  function Summary(states: seq<Strict>): Classification {
    if forall i :: 0 <= i < |states| ==> states[i] == RUNNING then HEALTHY
    else if forall i :: 0 <= i < |states| ==> states[i] == HALTED then STOPPED
    else RECOVERABLE
  }

  /** A container that no resume puts up with: restarted, up without being healthy, neither up nor
      exited, or exited with a code that does not come from being stopped. */
  predicate Troubled(i: nat, c: Container) {
    || c.restartCount != 0
    || (c.status == Running && c.health != Healthy)
    || (c.status != Running && c.status != Exited)
    || (c.status == Exited && c.exitCode != 0 && (c.exitCode != 143 || i in {0, 2}))
  }

  predicate AnyTroubled(cs: seq<Container>) {
    exists i :: 0 <= i < |cs| && Troubled(i, cs[i])
  }

  /** The verdict on containers none of which is troubled. */
  function Overall(cs: seq<Container>): Classification {
    if forall c <- cs :: c.status == Running then HEALTHY
    else if forall c <- cs :: c.status == Exited then STOPPED
    else RECOVERABLE
  }

  function Down(cs: seq<Container>): (r: seq<bool>)
    ensures |r| == |cs|
  {
    seq(|cs|, i requires 0 <= i < |cs| => cs[i].status == Exited)
  }

  /** A container that may still be executing something. */
  function Alive(cs: seq<Container>): (r: seq<bool>)
    ensures |r| == |cs|
  {
    seq(|cs|, i requires 0 <= i < |cs| => cs[i].status != Exited && cs[i].status != Dead)
  }

  lemma StrictIsUntroubled(cs: seq<Container>)
    requires |cs| == SERVICES
    ensures (forall i :: 0 <= i < SERVICES ==> StrictState(i, cs[i]).Some?) <==> !AnyTroubled(cs)
    ensures forall i :: 0 <= i < SERVICES && StrictState(i, cs[i]).Some? ==>
      (StrictState(i, cs[i]) == Some(HALTED) <==> cs[i].status == Exited)
  {
    forall i | 0 <= i < SERVICES ensures StrictState(i, cs[i]).Some? <==> !Troubled(i, cs[i]) {
      assert EXPECTED_STOP_EXIT_CODES[i] == if i in {0, 2} then {0} else {0, 143};
    }
  }

  /** Inspects all services strictly, and probes the readiness of a healthy whole. */
  method LiveState(d: Daemon) returns (live: Option<Classification>, states: seq<Strict>, ghost more: seq<Entry>)
    requires d.Valid()
    modifies d
    ensures d.Valid() && d.trace == old(d.trace) + more && Looked(more, live, d.containers)
    ensures live == Some(HEALTHY) ==> Checked(Readiness, true) in more
    ensures live.Some? ==> |states| == SERVICES && !AnyTroubled(d.containers) && live.value == Overall(d.containers)
    ensures live.Some? ==> forall i :: 0 <= i < SERVICES ==>
      states[i] == if d.containers[i].status == Exited then HALTED else RUNNING
    ensures d.steadfast ==> d.containers == old(d.containers) && (live.Some? <==> !AnyTroubled(d.containers))
  {
    d.Drift();
    var identified := d.Check(Identity);
    more := [Checked(Identity, identified)];
    states := [];
    live := None;
    StrictIsUntroubled(d.containers);
    var i := 0;
    while i < SERVICES && identified
      invariant 0 <= i <= SERVICES && |states| == i
      invariant forall j :: 0 <= j < i ==> StrictState(j, d.containers[j]) == Some(states[j])
      invariant d.steadfast ==> identified
    {
      var state := StrictState(i, d.containers[i]);
      if state.None? {
        d.Record(None);
        more := more + [Inspected(None, d.containers)];
        return;
      }
      states := states + [state.value];
      i := i + 1;
    }
    if identified {
      SummaryTells(d.containers, states);
      live := Some(Summary(states));
      if live == Some(HEALTHY) {
        var ready := d.Check(Readiness);
        more := more + [Checked(Readiness, ready)];
        if !ready { live := None; }
      }
    }
    d.Record(live);
    more := more + [Inspected(live, d.containers)];
  }

  lemma SummaryTells(cs: seq<Container>, states: seq<Strict>)
    requires |cs| == |states| == SERVICES
    requires forall i :: 0 <= i < SERVICES ==> StrictState(i, cs[i]) == Some(states[i])
    ensures Summary(states) == Overall(cs)
  {
    forall i | 0 <= i < SERVICES
      ensures (states[i] == RUNNING <==> cs[i].status == Running) && (states[i] == HALTED <==> cs[i].status == Exited)
    {
      assert StrictState(i, cs[i]) == Some(states[i]);
    }
    assert (forall c <- cs :: c.status == Running) <==> forall i :: 0 <= i < SERVICES ==> cs[i].status == Running;
    assert (forall c <- cs :: c.status == Exited) <==> forall i :: 0 <= i < SERVICES ==> cs[i].status == Exited;
  }

  /** Validates identity and security only, tolerating broken readiness. */
  method Containment(d: Daemon) returns (live: Option<Classification>, states: seq<Strict>, ghost more: seq<Entry>)
    requires d.Valid()
    modifies d
    ensures d.Valid() && d.trace == old(d.trace) + more && Looked(more, live, d.containers)
    ensures live.Some? ==> |states| == SERVICES && live.value == Summary(states)
    ensures live.Some? ==> forall i :: 0 <= i < SERVICES ==>
      states[i] == if d.containers[i].status in {Exited, Dead} then HALTED else RUNNING
    ensures d.steadfast ==> d.containers == old(d.containers) && live.Some?
  {
    d.Drift();
    var identified := d.Check(Identity);
    more := [Checked(Identity, identified)];
    states := [];
    var i := 0;
    while i < SERVICES
      invariant 0 <= i <= SERVICES && |states| == i
      invariant forall j :: 0 <= j < i ==> states[j] == ContainmentState(d.containers[j])
    {
      states := states + [ContainmentState(d.containers[i])];
      i := i + 1;
    }
    live := if identified then Some(Summary(states)) else None;
    d.Record(live);
    more := more + [Inspected(live, d.containers)];
  }

  predicate AllPolled(es: seq<Entry>) {
    forall k :: 0 <= k < |es| ==> es[k].Polled?
  }

  predicate AllChecked(es: seq<Entry>) {
    forall k :: 0 <= k < |es| ==> es[k].Checked?
  }

  predicate JustStarted(c: Container) {
    c.status == Running && c.health == Starting
  }

  /** Polls until healthy or until `budget` polls have passed the deadline. */
  method WaitHealthy(d: Daemon, i: nat, budget: nat) returns (ok: bool, ghost more: seq<Entry>)
    requires d.Valid() && i < SERVICES
    modifies d
    ensures d.Valid() && d.trace == old(d.trace) + more
    ensures AllPolled(more)
    ensures d.steadfast && old(d.polls) == 0 && JustStarted(old(d.containers)[i]) ==>
      && (ok ==> d.containers == old(d.containers)[i := old(d.containers)[i].(health := Healthy)])
      && (d.warmup <= budget ==> ok)
  {
    var elapsed := 0;
    more := [];
    while true
      invariant 0 <= elapsed <= budget && d.Valid() && d.trace == old(d.trace) + more
      invariant AllPolled(more)
      invariant d.steadfast && old(d.polls) == 0 && JustStarted(old(d.containers)[i]) ==>
        d.polls == elapsed && d.containers == old(d.containers) && elapsed <= d.warmup
      decreases budget - elapsed
    {
      var seen := d.Poll(i);
      more := more + [Polled(i)];
      if seen.None? || seen.value.status != Running || seen.value.health == Unhealthy { return false, more; }
      if seen.value.health == Healthy { return true, more; }
      if elapsed >= budget { return false, more; }
      elapsed := elapsed + 1;
    }
  }

  predicate EdgeStart(e: Entry) {
    e.Started? && e.service == EDGE
  }

  /** Right before the third service, the edge, is started, its port was seen to be free. */
  lemma EdgeTells(es: seq<Entry>)
    ensures Guarded(es, PortFree, EdgeStart) <==> forall k :: 0 <= k < |es| && es[k].Started? && es[k].service == 2 ==>
      0 < k && es[k - 1].Checked? && es[k - 1].probe == PortFree && es[k - 1].passed
  {
  }

  lemma PollsAreQuiet(polls: seq<Entry>)
    requires AllPolled(polls)
    ensures !Issued(polls) && Starts(polls) == [] && Stops(polls) == [] && Ordered(polls)
  {
    Quiet(polls);
  }

  /** A command and the looks that followed it. */
  lemma CommandThenPolls(e: Entry, polls: seq<Entry>)
    requires Mutation(e) && AllPolled(polls)
    ensures var es := [e] + polls;
      && Issued(es) && !es[|es| - 1].Inspected?
      && Starts(es) == (if e.Started? then [e.service] else [])
      && Stops(es) == (if e.Stopped? then [e.service] else [])
      && (Ordered(es) <==> InOrder(e))
  {
    OneCommand(e);
    PollsAreQuiet(polls);
    Joins([e], polls);
    hide Issued, Ordered, Starts, Stops;
    assert polls != [] ==> ([e] + polls)[|polls|] == polls[|polls| - 1];
  }

  lemma GuardedStart(i: nat, e: Entry, first: seq<Entry>, polls: seq<Entry>)
    requires e.Started? && e.service == i && AllPolled(polls)
    requires first == if i == EDGE then [Checked(PortFree, true)] else []
    ensures var es := first + ([e] + polls);
      && Guarded(es, PortFree, EdgeStart) && es != [] && !es[|es| - 1].Inspected?
      && Issued(es) && Starts(es) == [i] && Stops(es) == []
      && (Ordered(es) <==> InOrder(e))
  {
    hide Issued, Ordered, Starts, Stops;
    CommandThenPolls(e, polls);
    FirstIsQuiet(first);
    Joins(first, [e] + polls);
    var es := first + ([e] + polls);
    forall k | |first| < k < |es| ensures es[k].Polled? { assert es[k] == polls[k - |first| - 1]; }
    assert es[|first|] == e;
  }

  lemma FirstIsGuarded(first: seq<Entry>)
    requires AllChecked(first)
    ensures Guarded(first, PortFree, EdgeStart)
  {
  }

  lemma FirstIsQuiet(first: seq<Entry>)
    requires AllChecked(first)
    ensures !Issued(first) && Starts(first) == [] && Stops(first) == [] && Ordered(first)
  {
    Quiet(first);
  }

  /** Starts one service and waits for it; the edge needs its host port free first. */
  method StartOne(d: Daemon, i: nat, budget: nat) returns (changed: bool, ok: bool, ghost more: seq<Entry>)
    requires d.Valid() && i < SERVICES
    modifies d
    ensures d.Valid() && d.trace == old(d.trace) + more && more != [] && !more[|more| - 1].Inspected?
    ensures (changed <==> Issued(more)) && Starts(more) == (if changed then [i] else []) && Stops(more) == []
    ensures Guarded(more, PortFree, EdgeStart)
    ensures !changed ==> d.containers == old(d.containers) && !ok
    ensures d.steadfast && ok ==> d.containers == old(d.containers)[i := Launch(old(d.containers[i])).(health := Healthy)]
    ensures d.steadfast && d.warmup <= budget ==> ok
    ensures (forall j :: 0 <= j < i ==> Ready(old(d.containers)[j])) ==> Ordered(more)
  {
    hide Issued, Ordered, Starts, Stops, Guarded;
    ghost var first: seq<Entry> := [];
    if i == EDGE {
      var free := d.Check(PortFree);
      first := [Checked(PortFree, free)];
      if !free {
        FirstIsQuiet(first);
        FirstIsGuarded(first);
        return false, false, first;
      }
    }
    ghost var e := Started(i, d.containers);
    var started := d.Start(i);
    changed, ok := true, false;
    ghost var polls: seq<Entry> := [];
    if started { ok, polls := WaitHealthy(d, i, budget); }
    more := first + ([e] + polls);
    GuardedStart(i, e, first, polls);
  }

  function Halted(states: seq<Strict>): (r: seq<bool>)
    ensures |r| == |states|
  {
    seq(|states|, i requires 0 <= i < |states| => states[i] == HALTED)
  }

  lemma HaltedOnes(states: seq<Strict>) returns (picked: seq<bool>)
    ensures picked == Halted(states) && forall k :: 0 <= k < |states| ==> (picked[k] <==> states[k] == HALTED)
  {
    picked := Halted(states);
  }

  /** Starts every service that was not running, in start order. */
  method ResumeServices(d: Daemon, states: seq<Strict>, budget: nat)
      returns (changed: bool, ok: bool, ghost more: seq<Entry>)
    requires d.Valid() && |states| == SERVICES
    requires d.steadfast ==> forall i :: 0 <= i < SERVICES && states[i] == RUNNING ==> Ready(d.containers[i])
    modifies d
    ensures d.Valid() && d.trace == old(d.trace) + more && (changed <==> Issued(more))
    ensures !changed ==> d.containers == old(d.containers)
    ensures more == [] || !more[|more| - 1].Inspected?
    ensures Guarded(more, PortFree, EdgeStart) && Stops(more) == []
    ensures Starts(more) <= Upwards(Halted(states), SERVICES)
    ensures ok ==> Starts(more) == Upwards(Halted(states), SERVICES)
    ensures ok && !changed ==> forall i :: 0 <= i < SERVICES ==> states[i] == RUNNING
    ensures d.steadfast && d.warmup <= budget ==> ok
    ensures d.steadfast && ok ==> forall i :: 0 <= i < SERVICES ==>
      Ready(d.containers[i]) && d.containers[i].restartCount == old(d.containers)[i].restartCount
    ensures d.steadfast ==> Ordered(more)
  {
    hide Issued, Ordered, Guarded, Starts, Stops, Upwards;
    changed, ok, more := false, true, [];
    ghost var picked := HaltedOnes(states);
    hide Halted;
    NothingYet(picked);
    var i := 0;
    while i < SERVICES
      invariant 0 <= i <= SERVICES && d.Valid() && d.trace == old(d.trace) + more && ok
      invariant changed <==> Issued(more)
      invariant !changed ==> d.containers == old(d.containers)
      invariant more == [] || !more[|more| - 1].Inspected?
      invariant Guarded(more, PortFree, EdgeStart) && Stops(more) == []
      invariant Starts(more) == Upwards(picked, i)
      invariant !changed ==> forall j :: 0 <= j < i ==> states[j] == RUNNING
      invariant d.steadfast ==> forall j :: 0 <= j < i ==> Ready(d.containers[j])
      invariant d.steadfast ==> forall j :: 0 <= j < i ==> d.containers[j].restartCount == old(d.containers)[j].restartCount
      invariant d.steadfast ==> forall j :: i <= j < SERVICES ==> d.containers[j] == old(d.containers)[j]
      invariant d.steadfast ==> Ordered(more)
    {
      UpwardsOn(picked, i);
      UpwardsNext(picked, i);
      if states[i] != RUNNING {
        ghost var next;
        var now;
        now, ok, next := StartOne(d, i, budget);
        Joins(more, next);
        GuardJoins(more, next, PortFree, EdgeStart);
        more := more + next;
        changed := changed || now;
        if !ok { return; }
      }
      i := i + 1;
    }
  }

  /** Everything after the receipts were loaded. */
  method ResumeLoaded(d: Daemon, budget: nat) returns (code: nat, ghost more: seq<Entry>)
    requires d.Valid()
    modifies d
    ensures d.Valid() && d.trace == old(d.trace) + more
    ensures EffectContract(more, HEALTHY, code)
    ensures Guarded(more, PortFree, EdgeStart) && Stops(more) == []
    ensures d.steadfast ==> Ordered(more)
    ensures d.steadfast && AnyTroubled(old(d.containers)) ==> code == 78 && d.containers == old(d.containers)
    ensures d.steadfast && d.warmup <= budget && !AnyTroubled(old(d.containers)) ==> code == 0
    ensures code == 0 ==> forall i :: 0 <= i < SERVICES ==> Ready(d.containers[i]) && d.containers[i].restartCount == 0
    ensures d.steadfast && code == 0 ==> Starts(more) == Upwards(Down(old(d.containers)), SERVICES)
    ensures d.steadfast && d.warmup <= budget && code == 78 ==> d.containers == old(d.containers)
  {
    hide Issued, Ordered, Guarded, Starts, Stops, Upwards;
    var live, states;
    live, states, more := LiveState(d);
    LookIsQuiet(more, live, d.containers);
    if live.None? { return 78, more; }
    HealthyTells(d.containers);
    if live == Some(HEALTHY) {
      NoneDown(d.containers);
      return 0, more;
    }
    assert Halted(states) == Down(d.containers);
    ghost var next;
    var changed, ok;
    changed, ok, next := ResumeServices(d, states, budget);
    Joins(more, next);
    GuardJoins(more, next, PortFree, EdgeStart);
    more := more + next;
    if !ok { return if changed then 75 else 78, more; }
    live, states, next := LiveState(d);
    LookIsQuiet(next, live, d.containers);
    Joins(more, next);
    GuardJoins(more, next, PortFree, EdgeStart);
    more := more + next;
    HealthyTells(d.containers);
    return if live == Some(HEALTHY) then 0 else 75, more;
  }

  lemma HealthyTells(cs: seq<Container>)
    requires |cs| == SERVICES
    ensures !AnyTroubled(cs) && Overall(cs) == HEALTHY ==>
      forall i :: 0 <= i < SERVICES ==> Ready(cs[i]) && cs[i].restartCount == 0
  {
    assert forall i :: 0 <= i < SERVICES ==> cs[i] in cs && (!Troubled(i, cs[i]) || AnyTroubled(cs));
  }

  /** `resume`: from a stopped or partly stopped trial back to a healthy one. Left alone it puts up
      with untroubled containers only, and then starts exactly the exited ones, in order. */
  method Resume(d: Daemon, loads: bool, budget: nat) returns (code: nat, ghost more: seq<Entry>)
    requires d.Valid()
    modifies d
    ensures d.Valid() && d.trace == old(d.trace) + more && Guarded(more, PortFree, EdgeStart) && Stops(more) == []
    ensures code in {0, 75, 78} && (code == 78 ==> !Issued(more))
    ensures code == 75 <==> Issued(more) && !Confirmed(more, HEALTHY)
    ensures code == 0 ==> Confirmed(more, HEALTHY)
    ensures !loads ==> code == 78 && more == []
    ensures d.steadfast ==> Ordered(more)
    ensures forall i :: 0 <= i < SERVICES && d.steadfast ==>
      var c := old(d.containers)[i];
      || (c.restartCount == 0 && c.status == Running && c.health == Healthy)
      || (c.restartCount == 0 && c.status == Exited && (c.exitCode == 0 || (c.exitCode == 143 && i != 0 && i != 2)))
      || (code == 78 && d.containers == old(d.containers))
    ensures d.steadfast && loads && d.warmup <= budget ==>
      || code == 0
      || exists i :: 0 <= i < SERVICES && var c := old(d.containers)[i];
        || c.restartCount != 0
        || (c.status == Running && c.health != Healthy)
        || (c.status != Running && c.status != Exited)
        || (c.status == Exited && c.exitCode != 0 && (c.exitCode != 143 || i == 0 || i == 2))
    ensures d.steadfast && code == 0 ==>
      && (forall i: nat :: i in Starts(more) <==> i < SERVICES && old(d.containers)[i].status == Exited)
      && (forall a, b :: 0 <= a < b < |Starts(more)| ==> Starts(more)[a] < Starts(more)[b])
    ensures code == 0 ==> forall i :: 0 <= i < SERVICES ==>
      d.containers[i].status == Running && d.containers[i].health == Healthy && d.containers[i].restartCount == 0
    ensures d.steadfast && d.warmup <= budget && code == 78 ==> d.containers == old(d.containers)
  {
    hide Issued, Ordered, Guarded, Starts, Stops, Upwards;
    NothingYet(Down(d.containers));
    if !loads { return 78, []; }
    UpwardsTells(Down(d.containers), SERVICES);
    code, more := ResumeLoaded(d, budget);
  }

  lemma LookIsQuiet(es: seq<Entry>, live: Option<Classification>, seen: seq<Container>)
    requires Looked(es, live, seen)
    ensures !Issued(es) && Ordered(es) && Starts(es) == [] && Stops(es) == [] && Guarded(es, PortFree, EdgeStart)
  {
    Quiet(es);
  }

  lemma NoneDown(cs: seq<Container>)
    requires |cs| == SERVICES && Overall(cs) == HEALTHY
    ensures Upwards(Down(cs), SERVICES) == []
  {
    NonePicked(Down(cs), SERVICES);
  }

  function Executing(states: seq<Strict>): (r: seq<bool>)
    ensures |r| == |states|
  {
    seq(|states|, i requires 0 <= i < |states| => states[i] == RUNNING)
  }

  lemma ExecutingOnes(states: seq<Strict>) returns (picked: seq<bool>)
    ensures picked == Executing(states) && forall k :: 0 <= k < |states| ==> (picked[k] <==> states[k] == RUNNING)
  {
    picked := Executing(states);
  }

  method StopServices(d: Daemon, states: seq<Strict>) returns (changed: bool, ok: bool, ghost more: seq<Entry>)
    requires d.Valid() && |states| == SERVICES
    requires d.steadfast ==> forall i :: 0 <= i < SERVICES ==> states[i] == ContainmentState(d.containers[i])
    modifies d
    ensures d.Valid() && d.trace == old(d.trace) + more && (changed <==> Issued(more))
    ensures !changed ==> d.containers == old(d.containers)
    ensures more == [] || !more[|more| - 1].Inspected?
    ensures changed ==> more != []
    ensures Starts(more) == [] && (ok ==> Stops(more) == Downwards(Executing(states), 0))
    ensures ok && !changed ==> forall i :: 0 <= i < SERVICES ==> states[i] == HALTED
    ensures d.steadfast ==> ok && forall c <- d.containers :: ContainmentState(c) == HALTED
    ensures d.steadfast ==> Ordered(more)
  {
    ghost var picked := ExecutingOnes(states);
    hide Issued, Ordered, Starts, Stops, Downwards, Executing;
    changed, ok, more := false, true, [];
    NothingYet(picked);
    var i := SERVICES;
    while i > 0
      invariant 0 <= i <= SERVICES && d.Valid() && d.trace == old(d.trace) + more && ok
      invariant changed <==> Issued(more)
      invariant !changed ==> d.containers == old(d.containers)
      invariant (more == [] || !more[|more| - 1].Inspected?) && (changed ==> more != [])
      invariant Starts(more) == [] && Stops(more) == Downwards(picked, i)
      invariant !changed ==> forall j :: i <= j < SERVICES ==> states[j] == HALTED
      invariant d.steadfast ==> forall j :: i <= j < SERVICES ==> ContainmentState(d.containers[j]) == HALTED
      invariant d.steadfast ==> forall j :: 0 <= j < i ==> d.containers[j] == old(d.containers)[j]
      invariant d.steadfast ==> Ordered(more)
    {
      i := i - 1;
      DownwardsNext(picked, i);
      if states[i] != HALTED {
        more := OneMore(old(d.trace), d.trace, more, Stopped(i, d.containers));
        ok := d.Stop(i);
        changed := true;
        if !ok { return; }
      }
    }
  }

  /** Everything after the receipts were loaded. */
  method StopLoaded(d: Daemon) returns (code: nat, ghost more: seq<Entry>)
    requires d.Valid()
    modifies d
    ensures d.Valid() && d.trace == old(d.trace) + more
    ensures EffectContract(more, STOPPED, code) && Starts(more) == []
    ensures d.steadfast ==> Ordered(more) && code == 0 && Stops(more) == Downwards(Alive(old(d.containers)), 0)
    ensures code == 0 ==> forall i :: 0 <= i < SERVICES ==> d.containers[i].status in {Exited, Dead}
  {
    hide Issued, Ordered, Starts, Stops, Downwards;
    var live, states;
    live, states, more := Containment(d);
    LookIsQuiet(more, live, d.containers);
    if live.None? { return 78, more; }
    assert d.steadfast ==> Executing(states) == Alive(d.containers);
    assert states[0] == RUNNING || states[0] == HALTED;
    if live == Some(STOPPED) {
      NonePicked(Executing(states), SERVICES);
      return 0, more;
    }
    ghost var looked, next := more, [];
    var changed, ok;
    changed, ok, next := StopServices(d, states);
    more := ServicesAfter(old(d.trace), d.trace, looked, next);
    if !ok { return if changed then 75 else 78, more; }
    assert d.steadfast ==> forall i :: 0 <= i < SERVICES ==> ContainmentState(d.containers[i]) == HALTED by {
      assert forall i :: 0 <= i < SERVICES ==> d.containers[i] in d.containers;
    }
    ghost var was := d.trace;
    live, states, next := Containment(d);
    more := LookAfter(old(d.trace), was, d.trace, more, next);
    assert states != [] && live.Some? ==> states[0] == RUNNING || states[0] == HALTED;
    return if live == Some(STOPPED) then 0 else 75, more;
  }

  /** A look, and what was done after it. */
  lemma ServicesAfter(origin: seq<Entry>, now: seq<Entry>, look: seq<Entry>, next: seq<Entry>) returns (all: seq<Entry>)
    requires now == origin + look + next && !Issued(look)
    ensures now == origin + all
    ensures (Issued(all) <==> Issued(next)) && (Ordered(all) <==> Ordered(next))
    ensures Starts(all) == Starts(next) && Stops(all) == Stops(next)
    ensures next != [] ==> all != [] && all[|all| - 1] == next[|next| - 1]
  {
    all := look + next;
    Quiet(look);
    Joins(look, next);
    hide Issued, Ordered, Starts, Stops;
  }

  /** `stop`: brings every service to rest, even when readiness is broken. Left alone it stops exactly
      the ones that may be executing, last first. */
  method Stop(d: Daemon, loads: bool) returns (code: nat, ghost more: seq<Entry>)
    requires d.Valid()
    modifies d
    ensures d.Valid() && d.trace == old(d.trace) + more && Starts(more) == []
    ensures code in {0, 75, 78} && (code == 78 ==> !Issued(more))
    ensures code == 75 <==> Issued(more) && !Confirmed(more, STOPPED)
    ensures code == 0 ==> Confirmed(more, STOPPED)
    ensures !loads ==> code == 78 && more == []
    ensures d.steadfast ==> Ordered(more) && (loads ==> code == 0)
    ensures code == 0 ==> forall i :: 0 <= i < SERVICES ==> d.containers[i].status == Exited || d.containers[i].status == Dead
    ensures d.steadfast && code == 0 ==>
      && (forall i: nat :: i in Stops(more) <==>
            i < SERVICES && old(d.containers)[i].status != Exited && old(d.containers)[i].status != Dead)
      && (forall a, b :: 0 <= a < b < |Stops(more)| ==> Stops(more)[a] > Stops(more)[b])
  {
    hide Issued, Ordered, Starts, Stops, Downwards;
    NothingYet(Alive(d.containers));
    if !loads { return 78, []; }
    DownwardsTells(Alive(d.containers), 0);
    code, more := StopLoaded(d);
  }

  /** With a daemon nobody else touches, a stop always succeeds, and the resume after it succeeds
      exactly when every service left an expected exit code and was never restarted. */
  method StopThenResume(d: Daemon, budget: nat) returns (stopped: nat, left: seq<Container>, resumed: nat)
    requires d.Valid() && d.steadfast && d.warmup <= budget
    modifies d
    ensures d.Valid() && stopped == 0 && |left| == SERVICES
    ensures resumed == 0 <==> forall i :: 0 <= i < SERVICES ==>
      left[i].status == Exited && left[i].restartCount == 0 && left[i].exitCode in EXPECTED_STOP_EXIT_CODES[i]
    ensures resumed == 0 ==> AllReady(d.containers)
    ensures resumed in {0, 78} && (resumed == 78 ==> d.containers == left)
  {
    ghost var more;
    stopped, more := Stop(d, true);
    left := d.containers;
    forall i | 0 <= i < SERVICES
      ensures !Troubled(i, left[i]) <==>
        left[i].status == Exited && left[i].restartCount == 0 && left[i].exitCode in EXPECTED_STOP_EXIT_CODES[i]
    {
      assert left[i] in left;
      assert EXPECTED_STOP_EXIT_CODES[i] == if i in {0, 2} then {0} else {0, 143};
    }
    resumed, more := Resume(d, true, budget);
  }

  /** A database that had to be killed (exit code 137) makes the trial unresumable, although the
      stop that left it so reported success. */
  lemma KilledDatabaseBlocksResume(health: Health)
    ensures ContainmentState(Container(Exited, health, 137, 0)) == HALTED
    ensures StrictState(0, Container(Exited, health, 137, 0)).None?
  {
    assert EXPECTED_STOP_EXIT_CODES[0] == {0};
  }
}
