/** The part of a Docker daemon the two managers look at and change: six persistent containers,
    listed in start order, and the commands issued against them. */
module Docker {
  import opened Prelude

  datatype Status = Created | Running | Restarting | Paused | Removing | Exited | Dead

  datatype Health = Starting | Healthy | Unhealthy

  datatype Container = Container(status: Status, health: Health, exitCode: int, restartCount: nat)

  datatype Classification = HEALTHY | STOPPED | RECOVERABLE | DEGRADED

  /** One command, in the order issued, with what the containers looked like just before it. */
  datatype Entry =
    | Started(service: nat, before: seq<Container>)
    | Stopped(service: nat, before: seq<Container>)
    | Polled(service: nat)
    | Inspected(result: Option<Classification>, seen: seq<Container>)
    | Checked(probe: Probe, passed: bool)

  /** A look at something other than the containers' states: their identity and security, the
      readiness of the whole, the host port of the edge, the attempt directory. */
  datatype Probe = Identity | Readiness | PortFree | Visible

  // db, synthetic-oidc, edge, matching-runtime, api, web
  const SERVICES := 6
  const EDGE := 2

  predicate Mutation(e: Entry) {
    e.Started? || e.Stopped?
  }

  predicate Ready(c: Container) {
    c.status == Running && c.health == Healthy
  }

  predicate AllReady(cs: seq<Container>) {
    forall c <- cs :: Ready(c)
  }

  predicate AllExited(cs: seq<Container>) {
    forall c <- cs :: c.status == Exited
  }

  /** Every service before `service` in start order is up when it is started. */
  predicate StartedInOrder(e: Entry) {
    e.Started? ==> e.service < |e.before| && forall j :: 0 <= j < e.service ==> Ready(e.before[j])
  }

  /** Nothing after `service` in start order still runs when it is stopped. */
  predicate StoppedInOrder(e: Entry) {
    e.Stopped? ==> forall j :: e.service < j < |e.before| ==> e.before[j].status != Running
  }

  function Launch(c: Container): Container {
    c.(status := Running, health := Starting)
  }

  function Halt(c: Container, exitCode: int): Container {
    c.(status := Exited, exitCode := exitCode)
  }

  /** A starting container either becomes healthy or, while `patient`, stays starting. */
  predicate Warmed(before: seq<Container>, after: seq<Container>, i: nat, patient: bool)
    requires i < |before| && i < |after|
  {
    && after == before[i := after[i]]
    && (before[i].status == Running && before[i].health != Unhealthy ==>
          && after[i] == before[i].(health := after[i].health)
          && after[i].health != Unhealthy
          && (after[i].health == Starting ==> patient))
  }

  predicate InOrder(e: Entry) {
    StartedInOrder(e) && StoppedInOrder(e)
  }

  class Daemon {
    /** A steadfast daemon is changed by the manager alone, never fails a command, and brings a
        started container to health within `warmup` polls. Any other daemon may do anything. */
    const steadfast: bool
    const warmup: nat
    var containers: seq<Container>
    var trace: seq<Entry>
    var polls: nat  // polls since the last start

    constructor (steadfast: bool, warmup: nat, containers: seq<Container>)
      requires |containers| == SERVICES
      ensures Valid() && this.steadfast == steadfast && this.warmup == warmup
      ensures this.containers == containers && trace == []
    {
      this.steadfast, this.warmup := steadfast, warmup;
      this.containers, trace, polls := containers, [], 0;
    }

    predicate Valid()
      reads this
    {
      |containers| == SERVICES
    }

    /** Whatever happens outside the manager between two of its commands. */
    method Drift()
      requires Valid()
      modifies this`containers
      ensures Valid() && (steadfast ==> containers == old(containers))
    {
      if !steadfast {
        var anything: seq<Container> := *;
        if |anything| == SERVICES {
          containers := anything;
        }
      }
    }

    method Start(i: nat) returns (ok: bool)
      requires Valid() && i < SERVICES
      modifies this
      ensures Valid() && trace == old(trace) + [Started(i, old(containers))]
      ensures steadfast ==> ok && polls == 0 && containers == old(containers[i := Launch(containers[i])])
    {
      trace := trace + [Started(i, containers)];
      if steadfast {
        containers := containers[i := Launch(containers[i])];
        polls, ok := 0, true;
      } else {
        Drift();
        ok := *;
      }
    }

    method Stop(i: nat) returns (ok: bool)
      requires Valid() && i < SERVICES
      modifies this
      ensures Valid() && trace == old(trace) + [Stopped(i, old(containers))]
      ensures steadfast ==> ok && polls == old(polls) && |containers| == SERVICES
      ensures steadfast ==> containers == old(containers)[i := Halt(old(containers)[i], containers[i].exitCode)]
    {
      trace := trace + [Stopped(i, containers)];
      if steadfast {
        var code: int := *;
        containers := containers[i := Halt(containers[i], code)];
        ok := true;
      } else {
        Drift();
        ok := *;
      }
    }

    /** One look at a single container. */
    method Poll(i: nat) returns (c: Option<Container>)
      requires Valid() && i < SERVICES
      modifies this
      ensures Valid() && trace == old(trace) + [Polled(i)]
      ensures steadfast ==> c == Some(containers[i]) && polls == old(polls) + 1
      ensures steadfast ==> Warmed(old(containers), containers, i, old(polls) < warmup)
    {
      trace := trace + [Polled(i)];
      if steadfast {
        var slow: bool := *;
        var c0 := containers[i];
        if c0.status == Running && c0.health == Starting && !(slow && polls < warmup) {
          containers := containers[i := c0.(health := Healthy)];
        }
        polls := polls + 1;
        c := Some(containers[i]);
      } else {
        Drift();
        var answered: bool := *;
        c := if answered then Some(containers[i]) else None;
      }
    }

    /** Records that all containers were looked at, and with which verdict. */
    method Record(result: Option<Classification>)
      modifies this`trace
      ensures trace == old(trace) + [Inspected(result, containers)]
    {
      trace := trace + [Inspected(result, containers)];
    }

    method Check(probe: Probe) returns (ok: bool)
      modifies this`trace
      ensures trace == old(trace) + [Checked(probe, ok)]
      ensures steadfast ==> ok
    {
      ok := *;
      ok := ok || steadfast;
      trace := trace + [Checked(probe, ok)];
    }
  }

  // --------------------------------------------------------------------------------------------
  // What one command did: the entries it added
  // --------------------------------------------------------------------------------------------

  /** A mutating command was issued. */
  predicate Issued(es: seq<Entry>) {
    exists k :: 0 <= k < |es| && Mutation(es[k])
  }

  predicate Ordered(es: seq<Entry>) {
    forall k :: 0 <= k < |es| ==> InOrder(es[k])
  }

  /** The last thing that happened was an inspection that found the goal. */
  predicate Confirmed(es: seq<Entry>, goal: Classification) {
    es != [] && es[|es| - 1].Inspected? && es[|es| - 1].result == Some(goal)
  }

  /** 78: nothing was mutated. 75: something was, and its success was not confirmed, exactly.
      0: the goal was seen after the last mutation. */
  predicate EffectContract(es: seq<Entry>, goal: Classification, code: nat) {
    && code in {0, 75, 78}
    && (code == 78 ==> !Issued(es))
    && (code == 75 <==> Issued(es) && !Confirmed(es, goal))
    && (code == 0 ==> Confirmed(es, goal))
  }

  /** An inspection: the last entry tells what it found, and something was found only if the
      identities had been checked. */
  predicate Looked(es: seq<Entry>, live: Option<Classification>, seen: seq<Container>) {
    es != [] && es[|es| - 1] == Inspected(live, seen) && !Issued(es) && (live.Some? ==> Checked(Identity, true) in es)
  }

  /** Every entry picked out comes directly after a passed check of this kind. */
  predicate Guarded(es: seq<Entry>, probe: Probe, picked: Entry -> bool) {
    forall k :: 0 <= k < |es| && picked(es[k]) ==> k > 0 && es[k - 1] == Checked(probe, true)
  }

  lemma GuardJoins(a: seq<Entry>, b: seq<Entry>, probe: Probe, picked: Entry -> bool)
    requires Guarded(a, probe, picked) && Guarded(b, probe, picked)
    ensures Guarded(a + b, probe, picked)
  {
    var es := a + b;
    forall k | 0 <= k < |es| && picked(es[k]) ensures k > 0 && es[k - 1] == Checked(probe, true) {
      if k >= |a| { assert b[k - |a|] == es[k]; }
    }
  }

  /** The services started, in order. */
  function Starts(es: seq<Entry>): seq<nat> {
    if es == [] then []
    else
      var n := |es| - 1;
      Starts(es[..n]) + if es[n].Started? then [es[n].service] else []
  }

  /** The services stopped, in order. */
  function Stops(es: seq<Entry>): seq<nat> {
    if es == [] then []
    else
      var n := |es| - 1;
      Stops(es[..n]) + if es[n].Stopped? then [es[n].service] else []
  }

  lemma {:induction false} StartsJoin(a: seq<Entry>, b: seq<Entry>)
    ensures Starts(a + b) == Starts(a) + Starts(b)
    ensures Stops(a + b) == Stops(a) + Stops(b)
  {
    if b == [] {
      assert a + b == a;
    } else {
      var n := |b| - 1;
      assert (a + b)[..|a| + n] == a + b[..n];
      StartsJoin(a, b[..n]);
    }
  }

  /** What was done first and what was done then. */
  lemma Joins(a: seq<Entry>, b: seq<Entry>)
    ensures Issued(a + b) <==> Issued(a) || Issued(b)
    ensures Ordered(a + b) <==> Ordered(a) && Ordered(b)
    ensures Starts(a + b) == Starts(a) + Starts(b)
    ensures Stops(a + b) == Stops(a) + Stops(b)
  {
    StartsJoin(a, b);
    var es := a + b;
    hide Starts, Stops, InOrder, Mutation;
    assert forall k :: 0 <= k < |a| ==> es[k] == a[k];
    assert forall k :: 0 <= k < |b| ==> es[|a| + k] == b[k];
  }

  /** What was done so far, and one command more. */
  lemma OneMore(origin: seq<Entry>, trace: seq<Entry>, more: seq<Entry>, e: Entry) returns (all: seq<Entry>)
    requires trace == origin + more && Mutation(e)
    ensures trace + [e] == origin + all && all != [] && all[|all| - 1] == e
    ensures Issued(all) && (Ordered(all) <==> Ordered(more) && InOrder(e))
    ensures Starts(all) == if e.Started? then Starts(more) + [e.service] else Starts(more)
    ensures Stops(all) == if e.Stopped? then Stops(more) + [e.service] else Stops(more)
  {
    all := more + [e];
    OneCommand(e);
    Joins(more, [e]);
    hide Issued, Ordered, Starts, Stops, InOrder, Mutation;
  }

  /** What was done so far, and a look that found what it found. */
  lemma LookAfter(origin: seq<Entry>, trace: seq<Entry>, now: seq<Entry>, more: seq<Entry>, look: seq<Entry>)
      returns (all: seq<Entry>)
    requires trace == origin + more && now == trace + look && look != [] && !Issued(look)
    ensures now == origin + all && all != [] && all[|all| - 1] == look[|look| - 1]
    ensures (Issued(all) <==> Issued(more)) && (Ordered(all) <==> Ordered(more))
    ensures Starts(all) == Starts(more) && Stops(all) == Stops(more)
    ensures forall goal :: Confirmed(all, goal) <==> Confirmed(look, goal)
  {
    all := more + look;
    Quiet(look);
    Joins(more, look);
    hide Issued, Ordered, Starts, Stops;
  }

  lemma {:induction false} Quiet(es: seq<Entry>)
    requires !Issued(es)
    ensures Starts(es) == [] && Stops(es) == [] && Ordered(es)
  {
    if es != [] {
      assert forall k :: 0 <= k < |es| - 1 ==> es[..|es| - 1][k] == es[k];
      Quiet(es[..|es| - 1]);
      assert !Mutation(es[|es| - 1]);
    }
  }

  lemma OneCommand(e: Entry)
    ensures Starts([e]) == (if e.Started? then [e.service] else [])
    ensures Stops([e]) == (if e.Stopped? then [e.service] else [])
    ensures Issued([e]) <==> Mutation(e)
    ensures Ordered([e]) <==> InOrder(e)
  {
    assert [e][..0] == [];
    assert [e][0] == e;
  }

  // --------------------------------------------------------------------------------------------
  // Services picked out
  // --------------------------------------------------------------------------------------------

  /** The picked services below `high`, lowest first. */
  function Upwards(picked: seq<bool>, high: nat): seq<nat>
    requires high <= |picked|
  {
    if high == 0 then [] else Upwards(picked, high - 1) + if picked[high - 1] then [high - 1] else []
  }

  /** The picked services from `low` on, highest first. */
  function Downwards(picked: seq<bool>, low: nat): seq<nat>
    requires low <= |picked|
    decreases |picked| - low
  {
    if low == |picked| then [] else Downwards(picked, low + 1) + if picked[low] then [low] else []
  }

  lemma {:induction false} NonePicked(picked: seq<bool>, n: nat)
    requires n <= |picked| && forall i :: 0 <= i < |picked| ==> !picked[i]
    ensures Upwards(picked, n) == [] && Downwards(picked, |picked| - n) == []
  {
    if n > 0 { NonePicked(picked, n - 1); }
  }

  lemma {:induction false} UpwardsOn(picked: seq<bool>, i: nat)
    requires i < |picked|
    ensures Upwards(picked, i) <= Upwards(picked, i + 1) <= Upwards(picked, |picked|)
    decreases |picked| - i
  {
    if i + 1 < |picked| { UpwardsOn(picked, i + 1); }
  }

  lemma UpwardsNext(picked: seq<bool>, i: nat)
    requires i < |picked|
    ensures Upwards(picked, i + 1) == Upwards(picked, i) + if picked[i] then [i] else []
  {
  }

  lemma DownwardsNext(picked: seq<bool>, i: nat)
    requires i < |picked|
    ensures Downwards(picked, i) == Downwards(picked, i + 1) + if picked[i] then [i] else []
  {
  }

  lemma NothingYet(picked: seq<bool>)
    ensures Upwards(picked, 0) == [] && Downwards(picked, |picked|) == []
    ensures !Issued([]) && Ordered([]) && Starts([]) == [] && Stops([]) == []
    ensures forall probe, pick: Entry -> bool :: Guarded([], probe, pick)
  {
  }

  /** These are the picked ones, each once, in order. */
  lemma {:induction false} UpwardsTells(picked: seq<bool>, n: nat)
    requires n <= |picked|
    ensures forall i :: i in Upwards(picked, n) <==> 0 <= i < n && picked[i]
    ensures forall i, j :: 0 <= i < j < |Upwards(picked, n)| ==> Upwards(picked, n)[i] < Upwards(picked, n)[j]
  {
    if n > 0 {
      UpwardsTells(picked, n - 1);
      var before := Upwards(picked, n - 1);
      forall i | 0 <= i < |before| ensures before[i] < n - 1 { assert before[i] in before; }
    }
  }

  lemma {:induction false} DownwardsTells(picked: seq<bool>, n: nat)
    requires n <= |picked|
    ensures forall i :: i in Downwards(picked, n) <==> n <= i < |picked| && picked[i]
    ensures forall i, j :: 0 <= i < j < |Downwards(picked, n)| ==> Downwards(picked, n)[i] > Downwards(picked, n)[j]
    decreases |picked| - n
  {
    if n < |picked| {
      DownwardsTells(picked, n + 1);
      var before := Downwards(picked, n + 1);
      forall i | 0 <= i < |before| ensures before[i] > n { assert before[i] in before; }
    }
  }

  // --------------------------------------------------------------------------------------------
  // What the words about traces mean
  // --------------------------------------------------------------------------------------------

  /** Issued, in order, confirmed: by the entries of the trace. */
  lemma TraceTells(es: seq<Entry>, goal: Classification)
    ensures Issued(es) <==> exists k :: 0 <= k < |es| && (es[k].Started? || es[k].Stopped?)
    ensures Ordered(es) <==> forall k :: 0 <= k < |es| ==>
      && (es[k].Started? ==>
            && es[k].service < |es[k].before|
            && forall j :: 0 <= j < es[k].service ==> es[k].before[j].status == Running && es[k].before[j].health == Healthy)
      && (es[k].Stopped? ==> forall j :: es[k].service < j < |es[k].before| ==> es[k].before[j].status != Running)
    ensures Confirmed(es, goal) <==>
      0 < |es| && es[|es| - 1].Inspected? && es[|es| - 1].result.Some? && es[|es| - 1].result.value == goal
  {
  }

  /** Starts and Stops are the services of the commands, in the order in which they were issued. */
  lemma {:induction false} CommandsTell(es: seq<Entry>, i: nat)
    ensures i in Starts(es) <==> exists k :: 0 <= k < |es| && es[k].Started? && es[k].service == i
    ensures i in Stops(es) <==> exists k :: 0 <= k < |es| && es[k].Stopped? && es[k].service == i
  {
    if es != [] {
      var n := |es| - 1;
      CommandsTell(es[..n], i);
      assert es == es[..n] + [es[n]];
    }
  }

  lemma {:induction false} CommandsCount(es: seq<Entry>)
    ensures |Starts(es)| + |Stops(es)| == |set k | 0 <= k < |es| && (es[k].Started? || es[k].Stopped?)|
  {
    var all := set k | 0 <= k < |es| && (es[k].Started? || es[k].Stopped?);
    if es == [] {
      assert all == {};
    } else {
      var n := |es| - 1;
      CommandsCount(es[..n]);
      var before := set k | 0 <= k < n && (es[..n][k].Started? || es[..n][k].Stopped?);
      assert all == before + if es[n].Started? || es[n].Stopped? then {n} else {};
      assert es == es[..n] + [es[n]];
    }
  }
}
