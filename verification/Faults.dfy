/** How an external operation may end. */
module Faults {

  /** It returned, it raised, or the process died in it. */
  datatype Reply = Done | Raised | Dead

  /** An operation whose only effect is that it may not return normally. */
  method Attempt(faultless: bool) returns (reply: Reply)
    ensures faultless ==> reply == Done
  {
    if faultless {
      return Done;
    }
    var raised, died: bool := *, *;
    return if died then Dead else if raised then Raised else Done;
  }

  /** What was done since `origin` is a beginning of the plan. */
  predicate Along<T(==)>(origin: seq<T>, steps: seq<T>, plan: seq<T>) {
    && |origin| <= |steps| <= |origin| + |plan|
    && steps == origin + plan[..|steps| - |origin|]
  }

  lemma NothingDone<T>(origin: seq<T>, plan: seq<T>)
    ensures Along(origin, origin, plan)
  {
  }

  lemma NextDone<T>(origin: seq<T>, steps: seq<T>, plan: seq<T>)
    requires Along(origin, steps, plan) && |steps| < |origin| + |plan|
    ensures Along(origin, steps + [plan[|steps| - |origin|]], plan)
  {
    var k := |steps| - |origin|;
    assert plan[..k + 1] == plan[..k] + [plan[k]];
  }

  lemma AllDone<T>(origin: seq<T>, steps: seq<T>, plan: seq<T>)
    requires Along(origin, steps, plan)
    ensures |steps| == |origin| + |plan| ==> steps == origin + plan
  {
  }

  /** A part of the plan. */
  lemma PartDone<T>(origin: seq<T>, was: seq<T>, steps: seq<T>, plan: seq<T>, part: seq<T>)
    requires Along(origin, was, plan) && Along(was, steps, part)
    requires var k := |was| - |origin|; k + |part| <= |plan| && plan[k..k + |part|] == part
    ensures Along(origin, steps, plan)
  {
    var k, m := |was| - |origin|, |steps| - |was|;
    assert plan[..k] + plan[k..k + |part|][..m] == plan[..k + m];
  }
}
