/** Text taken apart at a separator and put together again. */
module Paths {

  function Split<T(==)>(s: seq<T>, slash: T): (p: seq<seq<T>>)
    ensures p != [] && forall i :: 0 <= i < |p| ==> slash !in p[i]
  {
    if s == [] then [[]]
    else
      var rest := Split(s[1..], slash);
      if s[0] == slash then [[]] + rest else [[s[0]] + rest[0]] + rest[1..]
  }

  function Join<T>(p: seq<seq<T>>, slash: T): seq<T> {
    if p == [] then [] else if |p| == 1 then p[0] else p[0] + [slash] + Join(p[1..], slash)
  }

  /** Component after component, with the separator in between. */
  lemma {:induction false} JoinAppends<T>(p: seq<seq<T>>, c: seq<T>, slash: T)
    ensures Join(p + [c], slash) == if p == [] then c else Join(p, slash) + [slash] + c
  {
    if p == [] {
      assert p + [c] == [c];
    } else {
      JoinAppends(p[1..], c, slash);
      assert (p + [c])[1..] == p[1..] + [c];
      if |p| > 1 {
        assert p[0] + [slash] + (Join(p[1..], slash) + [slash] + c) == (p[0] + [slash] + Join(p[1..], slash)) + [slash] + c;
      }
    }
  }

  lemma {:induction false} SplitPrepends<T>(c: seq<T>, s: seq<T>, slash: T)
    requires slash !in c
    ensures Split(c + s, slash) == [c + Split(s, slash)[0]] + Split(s, slash)[1..]
  {
    var p := Split(s, slash);
    if c == [] {
      assert c + s == s;
      assert c + p[0] == p[0];
    } else {
      assert (c + s)[1..] == c[1..] + s;
      SplitPrepends(c[1..], s, slash);
      assert [c[0]] + (c[1..] + p[0]) == c + p[0];
    }
  }

  /** Joined components come apart again, so distinct component lists are distinct texts. */
  lemma {:induction false} SplitJoins<T>(p: seq<seq<T>>, slash: T)
    requires p != [] && forall i :: 0 <= i < |p| ==> slash !in p[i]
    ensures Split(Join(p, slash), slash) == p
  {
    if |p| == 1 {
      assert p[0] + [] == p[0];
      SplitPrepends(p[0], [], slash);
      assert p == [p[0]];
    } else {
      var rest := [slash] + Join(p[1..], slash);
      assert rest[1..] == Join(p[1..], slash);
      SplitJoins(p[1..], slash);
      SplitPrepends(p[0], rest, slash);
      assert Join(p, slash) == p[0] + rest;
      assert Split(rest, slash) == [[]] + p[1..];
      assert p[0] + [] == p[0];
      assert p == [p[0]] + p[1..];
    }
  }
}
