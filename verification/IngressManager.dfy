/** Recover and stop of one activated private-ingress project. */
module IngressManager {
  import opened Prelude
  import opened Docker

  const ATTEMPTS := 121

  /** Degraded health outranks every other verdict; an unsettled container has none. */
  function Classify(cs: seq<Container>): Option<Classification> {
    if exists c <- cs :: c.status != Running && c.status != Exited then None
    else if exists c <- cs :: c.status == Running && c.health != Healthy then Some(DEGRADED)
    else if forall c <- cs :: c.status == Running then Some(HEALTHY)
    else if forall c <- cs :: c.status == Exited then Some(STOPPED)
    else Some(RECOVERABLE)
  }

  datatype Action = Status | Recover | Stop

  function Goal(action: Action): Classification {
    if action == Stop then STOPPED else HEALTHY
  }

  /** What has to be preceded by a look at the attempt directory: every command, and every inspection. */
  predicate Touches(e: Entry) {
    Mutation(e) || (e.Checked? && e.probe == Identity)
  }

  /** Right before every start, every stop and every look at identities, the project was seen. */
  lemma TouchesTell(es: seq<Entry>)
    ensures Guarded(es, Visible, Touches) <==>
      forall k :: 0 <= k < |es| && (es[k].Started? || es[k].Stopped? || (es[k].Checked? && es[k].probe == Identity)) ==>
        0 < k && es[k - 1].Checked? && es[k - 1].probe == Visible && es[k - 1].passed
  {
  }

  function Exiteds(cs: seq<Container>): (r: seq<bool>)
    ensures |r| == |cs|
  {
    seq(|cs|, i requires 0 <= i < |cs| => cs[i].status == Exited)
  }

  function Runnings(cs: seq<Container>): (r: seq<bool>)
    ensures |r| == |cs|
  {
    seq(|cs|, i requires 0 <= i < |cs| => cs[i].status == Running)
  }

  lemma ExitedOnes(cs: seq<Container>) returns (picked: seq<bool>)
    ensures picked == Exiteds(cs) && forall k :: 0 <= k < |cs| ==> (picked[k] <==> cs[k].status == Exited)
  {
    picked := Exiteds(cs);
  }

  lemma RunningOnes(cs: seq<Container>) returns (picked: seq<bool>)
    ensures picked == Runnings(cs) && forall k :: 0 <= k < |cs| ==> (picked[k] <==> cs[k].status == Running)
  {
    picked := Runnings(cs);
  }

  /** Looks at the attempt directory, then at all containers. None stands for a raised error. */
  method InspectLive(d: Daemon) returns (live: Option<Classification>, ghost more: seq<Entry>)
    requires d.Valid()
    modifies d
    ensures d.Valid() && Added(old(d.trace), d.trace, more) && more != [] && !Issued(more)
    ensures Guarded(more, Visible, Touches)
    ensures live.Some? ==> Looked(more, live, d.containers) && live == Classify(d.containers)
    ensures forall goal :: Confirmed(more, goal) <==> live == Some(goal)
    ensures d.steadfast ==> live == Classify(d.containers) && d.containers == old(d.containers)
  {
    var visible := d.Check(Visible);
    more := [Checked(Visible, visible)];
    if !visible { return None, more; }
    d.Drift();
    var ok := d.Check(Identity);
    more := more + [Checked(Identity, ok)];
    var degraded, running, stopped := false, 0, 0;
    var i := 0;
    while i < SERVICES && ok
      invariant 0 <= i <= SERVICES && 0 <= running && 0 <= stopped
      invariant ok ==> forall j :: 0 <= j < i ==> d.containers[j].status == Running || d.containers[j].status == Exited
      invariant degraded <==> exists j :: 0 <= j < i && d.containers[j].status == Running && d.containers[j].health != Healthy
      invariant ok ==> running + stopped == i && more[1] == Checked(Identity, true)
      invariant running == 0 <==> forall j :: 0 <= j < i ==> d.containers[j].status != Running
      invariant stopped == 0 <==> forall j :: 0 <= j < i ==> d.containers[j].status != Exited
      invariant d.steadfast && !ok ==> Classify(d.containers) == None
    {
      var c := d.containers[i];
      if c.status == Running {
        running := running + 1;
        if c.health != Healthy { degraded := true; }
      } else if c.status == Exited {
        stopped := stopped + 1;
      } else {
        assert c in d.containers;
        ok := false;
      }
      i := i + 1;
    }
    if !ok {
      live := None;
    } else if degraded {
      live := Some(DEGRADED);
    } else if stopped == 0 {
      live := Some(HEALTHY);
    } else if running == 0 {
      live := Some(STOPPED);
    } else {
      live := Some(RECOVERABLE);
    }
    d.Record(live);
    more := more + [Inspected(live, d.containers)];
  }

  predicate Added(before: seq<Entry>, after: seq<Entry>, more: seq<Entry>) {
    after == before + more
  }

  lemma AddedThen(a: seq<Entry>, b: seq<Entry>, c: seq<Entry>, first: seq<Entry>, next: seq<Entry>)
    requires Added(a, b, first) && Added(b, c, next)
    ensures Added(a, c, first + next)
  {
  }

  /** The last thing that happened was no inspection. */
  predicate EndsUnseen(es: seq<Entry>) {
    es != [] ==> !es[|es| - 1].Inspected?
  }

  lemma AddedNothing(trace: seq<Entry>)
    ensures Added(trace, trace, []) && EndsUnseen([])
  {
  }

  lemma EndJoins(a: seq<Entry>, b: seq<Entry>)
    requires EndsUnseen(a) && EndsUnseen(b)
    ensures EndsUnseen(a + b)
  {
  }

  /** What was done first and what was done then, as one. */
  lemma Grown(a: seq<Entry>, b: seq<Entry>, c: seq<Entry>, more: seq<Entry>, next: seq<Entry>) returns (all: seq<Entry>)
    requires Added(a, b, more) && Added(b, c, next)
    requires EndsUnseen(more) && EndsUnseen(next) && next != []
    requires Guarded(more, Visible, Touches) && Guarded(next, Visible, Touches)
    ensures Added(a, c, all) && EndsUnseen(all) && Guarded(all, Visible, Touches) && all != []
    ensures Issued(all) <==> Issued(more) || Issued(next)
    ensures Ordered(all) <==> Ordered(more) && Ordered(next)
    ensures Starts(next) == [] ==> Starts(all) == Starts(more)
    ensures Stops(next) == [] ==> Stops(all) == Stops(more)
    ensures forall i :: Starts(next) == [i] ==> Starts(all) == Starts(more) + [i]
    ensures forall i :: Stops(next) == [i] ==> Stops(all) == Stops(more) + [i]
  {
    all := more + next;
    AddedThen(a, b, c, more, next);
    Joins(more, next);
    GuardJoins(more, next, Visible, Touches);
    EndJoins(more, next);
  }

  predicate AllPolled(es: seq<Entry>) {
    forall k :: 0 <= k < |es| ==> es[k].Polled?
  }

  predicate JustStarted(c: Container) {
    c.status == Running && c.health == Starting
  }

  method WaitHealthy(d: Daemon, i: nat) returns (ok: bool, ghost more: seq<Entry>)
    requires d.Valid() && i < SERVICES
    modifies d
    ensures d.Valid() && Added(old(d.trace), d.trace, more) && AllPolled(more) && |more| <= 121
    ensures d.steadfast && old(d.polls) == 0 && JustStarted(old(d.containers)[i]) ==>
      && (ok ==> d.containers == old(d.containers)[i := old(d.containers)[i].(health := Healthy)])
      && (d.warmup < ATTEMPTS ==> ok)
  {
    var index := 0;
    more := [];
    while index < ATTEMPTS
      invariant 0 <= index == |more| <= ATTEMPTS && d.Valid() && Added(old(d.trace), d.trace, more) && AllPolled(more)
      invariant d.steadfast && old(d.polls) == 0 && JustStarted(old(d.containers)[i]) ==>
        d.polls == index && d.containers == old(d.containers) && index <= d.warmup
    {
      var seen := d.Poll(i);
      more := more + [Polled(i)];
      if seen.None? { return false, more; }
      if Ready(seen.value) { return true, more; }
      if seen.value.status != Running { return false, more; }
      index := index + 1;
    }
    return false, more;
  }

  /** A command after its look at the attempt directory, and before the polls. */
  lemma CommandIsGuarded(e: Entry, polls: seq<Entry>)
    requires Mutation(e) && AllPolled(polls)
    ensures var es := [Checked(Visible, true)] + ([e] + polls);
      && Guarded(es, Visible, Touches) && EndsUnseen(es)
      && Issued(es) && (Ordered(es) <==> InOrder(e))
      && Starts(es) == (if e.Started? then [e.service] else [])
      && Stops(es) == (if e.Stopped? then [e.service] else [])
  {
    GuardOfCommand(e, polls);
    hide Issued, Ordered, Starts, Stops, Guarded, EndsUnseen, AllPolled, InOrder, Mutation;
    LookIsQuiet(true);
    OneCommand(e);
    PollsAreQuiet(polls);
    Joins([e], polls);
    Joins([Checked(Visible, true)], [e] + polls);
  }

  lemma GuardOfCommand(e: Entry, polls: seq<Entry>)
    requires Mutation(e) && AllPolled(polls)
    ensures var es := [Checked(Visible, true)] + ([e] + polls); Guarded(es, Visible, Touches) && EndsUnseen(es)
  {
    var es := [Checked(Visible, true)] + ([e] + polls);
    forall k | 1 < k < |es| ensures es[k].Polled? { assert es[k] == polls[k - 2]; }
  }

  lemma PollsAreQuiet(polls: seq<Entry>)
    requires AllPolled(polls)
    ensures !Issued(polls) && Starts(polls) == [] && Stops(polls) == [] && Ordered(polls)
  {
    Quiet(polls);
  }

  lemma LookIsQuiet(seen: bool)
    ensures var es := [Checked(Visible, seen)];
      !Issued(es) && Starts(es) == [] && Stops(es) == [] && Ordered(es) && Guarded(es, Visible, Touches)
  {
    Quiet([Checked(Visible, seen)]);
  }

  /** One service came up, and nothing else changed. */
  predicate Raised(i: nat, before: seq<Container>, after: seq<Container>) {
    i < |before| && after == before[i := Launch(before[i]).(health := Healthy)]
  }

  /** One service exited, and nothing else changed. */
  predicate Lowered(i: nat, before: seq<Container>, after: seq<Container>) {
    i < |before| == |after| && after == before[i := after[i]] && after[i].status == Exited
  }

  /** Starts one exited service and waits for it. */
  method StartOne(d: Daemon, i: nat) returns (invoked: bool, ok: bool, ghost more: seq<Entry>)
    requires d.Valid() && i < SERVICES
    modifies d
    ensures d.Valid() && Added(old(d.trace), d.trace, more) && more != [] && EndsUnseen(more)
    ensures (invoked <==> Issued(more)) && Starts(more) == (if invoked then [i] else []) && Stops(more) == []
    ensures Guarded(more, Visible, Touches)
    ensures !invoked ==> !ok && d.containers == old(d.containers)
    ensures d.steadfast && ok ==> Raised(i, old(d.containers), d.containers)
    ensures d.steadfast && d.warmup < ATTEMPTS ==> ok
    ensures (forall j :: 0 <= j < i ==> Ready(old(d.containers)[j])) ==> Ordered(more)
  {
    hide Issued, Ordered, Starts, Stops, Guarded;
    var visible := d.Check(Visible);
    LookIsQuiet(visible);
    if !visible { return false, false, [Checked(Visible, visible)]; }
    ghost var e := Started(i, d.containers);
    var started := d.Start(i);
    invoked, ok := true, false;
    ghost var polls: seq<Entry> := [];
    if started { ok, polls := WaitHealthy(d, i); }
    more := [Checked(Visible, true)] + ([e] + polls);
    CommandIsGuarded(e, polls);
  }

  /** The services below `i` are ready, the others as they were seen. */
  predicate UpTo(i: nat, seen: seq<Container>, now: seq<Container>) {
    && i <= |seen| == |now|
    && (forall j :: 0 <= j < i ==> Ready(now[j]))
    && (forall j :: i <= j < |now| ==> now[j] == seen[j])
  }

  /** The services from `i` on have exited, the others are as they were seen. */
  predicate DownFrom(i: nat, seen: seq<Container>, now: seq<Container>) {
    && i <= |seen| == |now|
    && (forall j :: i <= j < |now| ==> now[j].status == Exited)
    && (forall j :: 0 <= j < i ==> now[j] == seen[j])
  }

  lemma UpTells(i: nat, seen: seq<Container>, now: seq<Container>)
    ensures seen == now && i == 0 ==> UpTo(i, seen, now)
    ensures UpTo(i, seen, now) ==> forall j :: 0 <= j < i ==> Ready(now[j])
  {
  }

  lemma DownTells(i: nat, seen: seq<Container>, now: seq<Container>)
    ensures seen == now && i == |seen| ==> DownFrom(i, seen, now)
    ensures DownFrom(i, seen, now) ==> forall j :: i <= j < |now| ==> now[j].status == Exited
  {
  }

  lemma UpByOne(i: nat, seen: seq<Container>, before: seq<Container>, after: seq<Container>)
    requires i < |seen| && UpTo(i, seen, before)
    requires Raised(i, before, after) || (after == before && Ready(seen[i]))
    ensures UpTo(i + 1, seen, after)
  {
  }

  lemma DownByOne(i: nat, seen: seq<Container>, before: seq<Container>, after: seq<Container>)
    requires i < |seen| && DownFrom(i + 1, seen, before)
    requires Lowered(i, before, after) || (after == before && seen[i].status == Exited)
    ensures DownFrom(i, seen, after)
  {
  }

  /** Starts every exited service in start order, waiting for each to become healthy. */
  method RecoverServices(d: Daemon, seen: seq<Container>) returns (invoked: bool, ok: bool, ghost more: seq<Entry>)
    requires d.Valid() && |seen| == SERVICES
    requires d.steadfast ==> seen == d.containers
    requires forall j :: 0 <= j < SERVICES ==> Ready(seen[j]) || seen[j].status == Exited
    modifies d
    ensures d.Valid() && Added(old(d.trace), d.trace, more) && (invoked <==> Issued(more))
    ensures (more == [] ==> ok) && EndsUnseen(more)
    ensures Guarded(more, Visible, Touches) && Stops(more) == []
    ensures Starts(more) <= Upwards(Exiteds(seen), SERVICES)
    ensures ok ==> Starts(more) == Upwards(Exiteds(seen), SERVICES)
    ensures d.steadfast && d.warmup < ATTEMPTS ==> ok
    ensures d.steadfast && ok ==> forall j :: 0 <= j < SERVICES ==> Ready(d.containers[j])
    ensures d.steadfast ==> Ordered(more)
  {
    hide Added, Issued, Ordered, Guarded, Starts, Stops, Upwards, Exiteds, EndsUnseen, UpTo, Ready, Raised;
    UpTells(0, seen, seen);
    ghost var picked := ExitedOnes(seen);
    invoked, ok, more := false, true, [];
    NothingYet(picked);
    AddedNothing(d.trace);
    var i := 0;
    while i < SERVICES
      invariant 0 <= i <= SERVICES && d.Valid() && Added(old(d.trace), d.trace, more) && ok
      invariant invoked <==> Issued(more)
      invariant EndsUnseen(more)
      invariant Guarded(more, Visible, Touches) && Stops(more) == []
      invariant Starts(more) == Upwards(picked, i)
      invariant d.steadfast ==> UpTo(i, seen, d.containers)
      invariant d.steadfast ==> Ordered(more)
    {
      UpwardsOn(picked, i);
      UpwardsNext(picked, i);
      ghost var before := d.containers;
      UpTells(i, seen, before);
      if seen[i].status == Exited {
        ghost var next;
        ghost var was := d.trace;
        var now;
        now, ok, next := StartOne(d, i);
        more := Grown(old(d.trace), was, d.trace, more, next);
        invoked := invoked || now;
        if !ok { return; }
      }
      if d.steadfast { UpByOne(i, seen, before, d.containers); }
      i := i + 1;
    }
    UpTells(SERVICES, seen, d.containers);
  }

  /** Stops one running service. */
  method StopOne(d: Daemon, i: nat) returns (invoked: bool, ok: bool, ghost more: seq<Entry>)
    requires d.Valid() && i < SERVICES
    modifies d
    ensures d.Valid() && Added(old(d.trace), d.trace, more) && more != [] && EndsUnseen(more)
    ensures (invoked <==> Issued(more)) && Stops(more) == (if invoked then [i] else []) && Starts(more) == []
    ensures Guarded(more, Visible, Touches)
    ensures !invoked ==> !ok
    ensures d.steadfast ==> ok && Lowered(i, old(d.containers), d.containers)
    ensures (forall j :: i < j < SERVICES ==> old(d.containers)[j].status != Running) ==> Ordered(more)
  {
    hide Issued, Ordered, Starts, Stops, Guarded;
    var visible := d.Check(Visible);
    LookIsQuiet(visible);
    if !visible { return false, false, [Checked(Visible, visible)]; }
    ghost var e := Stopped(i, d.containers);
    ok := d.Stop(i);
    invoked := true;
    more := [Checked(Visible, true)] + ([e] + []);
    CommandIsGuarded(e, []);
  }

  /** Stops every running service, last in start order first. */
  method StopServices(d: Daemon, seen: seq<Container>) returns (invoked: bool, ok: bool, ghost more: seq<Entry>)
    requires d.Valid() && |seen| == SERVICES
    requires d.steadfast ==> seen == d.containers
    requires forall j :: 0 <= j < SERVICES ==> seen[j].status == Running || seen[j].status == Exited
    modifies d
    ensures d.Valid() && Added(old(d.trace), d.trace, more) && (invoked <==> Issued(more))
    ensures (more == [] ==> ok) && EndsUnseen(more)
    ensures Guarded(more, Visible, Touches) && Starts(more) == []
    ensures ok ==> Stops(more) == Downwards(Runnings(seen), 0)
    ensures d.steadfast ==> ok && forall j :: 0 <= j < SERVICES ==> d.containers[j].status == Exited
    ensures d.steadfast ==> Ordered(more)
  {
    hide Added, Issued, Ordered, Guarded, Starts, Stops, Downwards, Runnings, EndsUnseen, DownFrom, Lowered;
    DownTells(SERVICES, seen, seen);
    ghost var picked := RunningOnes(seen);
    invoked, ok, more := false, true, [];
    NothingYet(picked);
    AddedNothing(d.trace);
    var i := SERVICES;
    while i > 0
      invariant 0 <= i <= SERVICES && d.Valid() && Added(old(d.trace), d.trace, more) && ok
      invariant invoked <==> Issued(more)
      invariant EndsUnseen(more)
      invariant Guarded(more, Visible, Touches) && Starts(more) == []
      invariant Stops(more) == Downwards(picked, i)
      invariant d.steadfast ==> DownFrom(i, seen, d.containers)
      invariant d.steadfast ==> Ordered(more)
    {
      i := i - 1;
      DownwardsNext(picked, i);
      ghost var before := d.containers;
      DownTells(i + 1, seen, before);
      if seen[i].status == Running {
        ghost var was := d.trace;
        ghost var next;
        var now;
        now, ok, next := StopOne(d, i);
        more := Grown(old(d.trace), was, d.trace, more, next);
        invoked := invoked || now;
        if !ok { return; }
      }
      if d.steadfast { DownByOne(i, seen, before, d.containers); }
    }
    DownTells(0, seen, d.containers);
  }

  /** The closing inspection, and the exit code it leads to. */
  method Conclude(d: Daemon, goal: Classification, invoked: bool) returns (code: nat, ghost more: seq<Entry>)
    requires d.Valid()
    modifies d
    ensures d.Valid() && Added(old(d.trace), d.trace, more) && more != [] && !Issued(more)
    ensures Guarded(more, Visible, Touches)
    ensures code == if Confirmed(more, goal) then 0 else if invoked then 75 else 78
    ensures code == 0 ==> Classify(d.containers) == Some(goal)
    ensures d.steadfast ==> d.containers == old(d.containers) && (Classify(d.containers) == Some(goal) ==> code == 0)
  {
    var live;
    live, more := InspectLive(d);
    if live == Some(goal) { return 0, more; }
    return if invoked then 75 else 78, more;
  }

  /** Everything after the first inspection allowed the action. */
  method Act(d: Daemon, action: Action, seen: seq<Container>) returns (code: nat, ghost more: seq<Entry>)
    requires d.Valid() && seen == d.containers && action != Status
    requires Classify(seen).Some? && (action == Recover ==> Classify(seen) != Some(DEGRADED))
    modifies d
    ensures d.Valid() && Added(old(d.trace), d.trace, more) && Guarded(more, Visible, Touches)
    ensures more != [] && EffectContract(more, Goal(action), code)
    ensures code == 0 ==> Classify(d.containers) == Some(Goal(action))
    ensures d.steadfast ==> Ordered(more)
    ensures action == Recover ==> Stops(more) == [] && Starts(more) <= Upwards(Exiteds(seen), SERVICES)
    ensures action == Stop ==> Starts(more) == []
    ensures d.steadfast && action == Stop ==>
      code == 0 && AllExited(d.containers) && Stops(more) == Downwards(Runnings(seen), 0)
    ensures d.steadfast && action == Recover && d.warmup < ATTEMPTS ==>
      code == 0 && AllReady(d.containers) && Starts(more) == Upwards(Exiteds(seen), SERVICES)
  {
    hide Added, Issued, Ordered, Guarded, Starts, Stops, Upwards, Downwards, Exiteds, Runnings;
    AllowedServices(seen);
    hide Classify;
    var invoked, ok;
    if action == Recover {
      invoked, ok, more := RecoverServices(d, seen);
    } else {
      invoked, ok, more := StopServices(d, seen);
    }
    if ok {
      ExitedIsStopped(d.containers);
      ghost var was := d.trace;
      ghost var last;
      code, last := Conclude(d, Goal(action), invoked);
      AddedThen(old(d.trace), was, d.trace, more, last);
      QuietEnd(last);
      Joins(more, last);
      GuardJoins(more, last, Visible, Touches);
      more := more + last;
    } else {
      code := if invoked then 75 else 78;
      assert d.steadfast && action == Recover && d.warmup < ATTEMPTS ==> ok;
    }
  }

  lemma AllowedServices(seen: seq<Container>)
    requires |seen| == SERVICES && Classify(seen).Some?
    ensures forall j :: 0 <= j < SERVICES ==> seen[j].status == Running || seen[j].status == Exited
    ensures Classify(seen) != Some(DEGRADED) ==>
      forall j :: 0 <= j < SERVICES ==> Ready(seen[j]) || seen[j].status == Exited
  {
    assert forall j :: 0 <= j < SERVICES ==> seen[j] in seen;
  }

  lemma QuietEnd(last: seq<Entry>)
    requires !Issued(last)
    ensures Starts(last) == [] && Stops(last) == [] && Ordered(last)
  {
    Quiet(last);
  }

  predicate Unsettled(cs: seq<Container>) {
    exists i :: 0 <= i < |cs| && cs[i].status != Running && cs[i].status != Exited
  }

  predicate Degraded(cs: seq<Container>) {
    exists i :: 0 <= i < |cs| && cs[i].status == Running && cs[i].health != Healthy
  }

  predicate Recoverable(cs: seq<Container>) {
    !Unsettled(cs) && !Degraded(cs)
  }

  /** The classification by the containers themselves. */
  lemma ClassifyTells(cs: seq<Container>)
    requires |cs| == SERVICES
    ensures Classify(cs).None? <==> Unsettled(cs)
    ensures Classify(cs) == Some(DEGRADED) <==> !Unsettled(cs) && Degraded(cs)
    ensures Classify(cs) == Some(HEALTHY) <==> AllReady(cs)
    ensures Classify(cs) == Some(STOPPED) <==> AllExited(cs)
    ensures Classify(cs) == Some(RECOVERABLE) <==> Recoverable(cs) && !AllReady(cs) && !AllExited(cs)
  {
    assert cs[0] in cs;
    assert forall i :: 0 <= i < |cs| ==> cs[i] in cs;
  }

  /** The same, container by container. */
  lemma VerdictTells(cs: seq<Container>)
    requires |cs| == SERVICES
    ensures Classify(cs) == Some(HEALTHY) <==>
      forall i :: 0 <= i < SERVICES ==> cs[i].status == Running && cs[i].health == Healthy
    ensures Classify(cs) == Some(STOPPED) <==> forall i :: 0 <= i < SERVICES ==> cs[i].status == Exited
    ensures Classify(cs) == Some(DEGRADED) ==>
      exists i :: 0 <= i < SERVICES && cs[i].status == Running && cs[i].health != Healthy
    ensures Classify(cs) == Some(RECOVERABLE) ==>
      && (forall i :: 0 <= i < SERVICES ==> Ready(cs[i]) || cs[i].status == Exited)
      && (exists i :: 0 <= i < SERVICES && cs[i].status == Exited)
      && (exists i :: 0 <= i < SERVICES && cs[i].status == Running)
  {
    assert forall i :: 0 <= i < SERVICES ==> cs[i] in cs;
    assert cs[0] in cs;
  }

  /** Everything after locks, receipts and staged inputs had checked out. */
  method ManageLoaded(d: Daemon, action: Action)
      returns (code: nat, shown: Option<Classification>, ghost more: seq<Entry>)
    requires d.Valid()
    modifies d
    ensures d.Valid() && Added(old(d.trace), d.trace, more) && Guarded(more, Visible, Touches)
    ensures action != Status ==> EffectContract(more, Goal(action), code)
    ensures action == Status ==> code in {0, 78} && !Issued(more) && (shown.Some? <==> code == 0)
    ensures action == Status && code == 0 ==> more != [] && more[|more| - 1] == Checked(Visible, true)
    ensures action == Status && code == 0 ==> shown == Classify(d.containers)
    ensures action != Status ==> shown == None
    ensures action != Recover ==> Starts(more) == []
    ensures action != Stop ==> Stops(more) == []
    ensures action != Status && code == 0 ==> Classify(d.containers) == Some(Goal(action))
    ensures d.steadfast ==> Ordered(more)
    ensures d.steadfast && Unsettled(old(d.containers)) ==>
      code == 78 && !Issued(more) && d.containers == old(d.containers)
    ensures d.steadfast && !Unsettled(old(d.containers)) && action == Stop ==>
      code == 0 && Stops(more) == Downwards(Runnings(old(d.containers)), 0)
    ensures d.steadfast && Degraded(old(d.containers)) && action == Recover ==>
      code == 78 && !Issued(more) && d.containers == old(d.containers)
    ensures Recoverable(old(d.containers)) && d.steadfast && d.warmup < ATTEMPTS && action == Recover ==>
      code == 0 && Starts(more) == Upwards(Exiteds(old(d.containers)), SERVICES)
    ensures d.steadfast && action == Status ==>
      d.containers == old(d.containers) && (code == 0 <==> !Unsettled(d.containers))
  {
    hide Added, Issued, Ordered, Guarded, Starts, Stops, Upwards, Downwards, Exiteds, Runnings, Classify, Unsettled, Degraded;
    hide AllReady, AllExited;
    ClassifyTells(d.containers);
    var live;
    live, more := InspectLive(d);
    QuietEnd(more);
    if live.None? { return 78, None, more; }
    ghost var was := d.trace;
    if action == Status {
      var visible := d.Check(Visible);
      LookIsQuiet(visible);
      CheckAdded(was, Visible, visible);
      AddedThen(old(d.trace), was, d.trace, more, [Checked(Visible, visible)]);
      Joins(more, [Checked(Visible, visible)]);
      GuardJoins(more, [Checked(Visible, visible)], Visible, Touches);
      more := more + [Checked(Visible, visible)];
      return if visible then 0 else 78, if visible then live else None, more;
    }
    if action == Recover && live == Some(DEGRADED) { return 78, None, more; }
    ghost var next;
    code, next := Act(d, action, d.containers);
    AddedThen(old(d.trace), was, d.trace, more, next);
    Joins(more, next);
    GuardJoins(more, next, Visible, Touches);
    more := more + next;
    return code, None, more;
  }

  lemma CheckAdded(trace: seq<Entry>, probe: Probe, passed: bool)
    ensures Added(trace, trace + [Checked(probe, passed)], [Checked(probe, passed)])
  {
  }

  /** One invocation: status, recover or stop, up to its exit code and, for status, what it shows.
      `loads` says whether locks, receipts and staged inputs checked out before any command was run. */
  method Manage(d: Daemon, action: Action, loads: bool)
      returns (code: nat, shown: Option<Classification>, ghost more: seq<Entry>)
    requires d.Valid()
    modifies d
    ensures d.Valid() && Added(old(d.trace), d.trace, more) && Guarded(more, Visible, Touches)
    ensures !loads ==> code == 78 && more == []
    ensures code in {0, 75, 78} && (code == 78 ==> !Issued(more))
    ensures action == Status ==> code != 75 && !Issued(more)
    ensures shown.Some? <==> action == Status && code == 0
    ensures action == Recover ==> (code == 75 <==> Issued(more) && !Confirmed(more, HEALTHY)) && Stops(more) == []
    ensures action == Stop ==> (code == 75 <==> Issued(more) && !Confirmed(more, STOPPED)) && Starts(more) == []

      // What success means, whoever else is at work.
    ensures action == Recover && code == 0 ==> forall i :: 0 <= i < SERVICES ==>
      d.containers[i].status == Running && d.containers[i].health == Healthy
    ensures action == Stop && code == 0 ==> forall i :: 0 <= i < SERVICES ==> d.containers[i].status == Exited

      // What a command does that is left alone.
    ensures d.steadfast ==> Ordered(more)
    ensures forall i :: 0 <= i < SERVICES && d.steadfast ==>
      || old(d.containers)[i].status == Exited
      || (old(d.containers)[i].status == Running && (old(d.containers)[i].health == Healthy || action != Recover))
      || (code == 78 && d.containers == old(d.containers))
    ensures d.steadfast && loads && (d.warmup < 121 || action != Recover) && code != 0 ==>
      exists i :: 0 <= i < SERVICES && old(d.containers)[i].status != Exited
                  && (old(d.containers)[i].status != Running || (action == Recover && old(d.containers)[i].health != Healthy))
    ensures d.steadfast && code == 0 && action == Stop ==>
      && (forall i: nat :: i in Stops(more) <==> i < SERVICES && old(d.containers)[i].status == Running)
      && (forall a, b :: 0 <= a < b < |Stops(more)| ==> Stops(more)[a] > Stops(more)[b])
    ensures d.steadfast && code == 0 && action == Recover && d.warmup < 121 ==>
      && (forall i: nat :: i in Starts(more) <==> i < SERVICES && old(d.containers)[i].status == Exited)
      && (forall a, b :: 0 <= a < b < |Starts(more)| ==> Starts(more)[a] < Starts(more)[b])

      // What status shows.
    ensures shown == Some(DEGRADED) ==>
      exists i :: 0 <= i < SERVICES && d.containers[i].status == Running && d.containers[i].health != Healthy
    ensures shown == Some(HEALTHY) ==> forall i :: 0 <= i < SERVICES ==> Ready(d.containers[i])
    ensures shown == Some(STOPPED) ==> forall i :: 0 <= i < SERVICES ==> d.containers[i].status == Exited
    ensures shown == Some(RECOVERABLE) ==>
      && (forall i :: 0 <= i < SERVICES ==> Ready(d.containers[i]) || d.containers[i].status == Exited)
      && (exists i :: 0 <= i < SERVICES && d.containers[i].status == Exited)
      && (exists i :: 0 <= i < SERVICES && d.containers[i].status == Running)
  {
    hide Added, Issued, Ordered, Guarded, Starts, Stops, Upwards, Downwards, Classify;
    NothingYet([]);
    AddedNothing(d.trace);
    if !loads { return 78, None, []; }
    UpwardsTells(Exiteds(d.containers), SERVICES);
    DownwardsTells(Runnings(d.containers), 0);
    code, shown, more := ManageLoaded(d, action);
    VerdictTells(d.containers);
  }

  /** With a daemon nobody else touches, stop followed by recover ends healthy. */
  method StopThenRecover(d: Daemon) returns (stopped: nat, recovered: nat)
    requires d.Valid() && d.steadfast && d.warmup < ATTEMPTS
    requires !Unsettled(d.containers)
    modifies d
    ensures d.Valid() && stopped == 0 && recovered == 0 && AllReady(d.containers)
  {
    ghost var more;
    var shown;
    stopped, shown, more := Manage(d, Stop, true);
    assert forall i :: 0 <= i < SERVICES ==> d.containers[i] in d.containers;
    recovered, shown, more := Manage(d, Recover, true);
  }

  lemma ExitedIsStopped(cs: seq<Container>)
    requires |cs| == SERVICES
    ensures AllExited(cs) ==> Classify(cs) == Some(STOPPED)
    ensures AllReady(cs) ==> Classify(cs) == Some(HEALTHY)
  {
    assert cs[0] in cs;
  }
}
