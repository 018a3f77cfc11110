/** Walking a source tree with an explicit stack, and what the resulting digest stream identifies. */
module TreeHash {
  import opened Prelude
  import opened Ustar
  import opened Framing
  import opened CanonicalJson
  import opened Sorting
  import Paths

  const MAX_BUILD_SOURCE: nat := 128 * 1024 * 1024
  const MAX_INPUT_TREE: nat := 32 * 1024 * 1024

  // --------------------------------------------------------------------------------------------
  // Trees as the file system shows them
  // --------------------------------------------------------------------------------------------

  /** A directory shows its children in any order; a file that cannot be read has no data. */
  datatype Node =
    | Missing
    | Link
    | Special
    | File(mode: nat, links: nat, size: nat, data: Option<Bytes>)
    | Dir(mode: nat, readable: bool, listing: seq<Child>)

  datatype Child = Child(name: Bytes, node: Node)

  type Location = seq<Bytes>

  function ChildName(c: Child): Str { c.name }

  function Ordered(listing: seq<Child>): (r: seq<Child>)
    ensures multiset(r) == multiset(listing)
  {
    SortBy(ChildName, listing)
  }

  /** What the digests depend on besides the tree: which paths are left out, and the content digest. */
  datatype Settings = Settings(excluded: Location -> bool, hash: Bytes -> Bytes)

  // --------------------------------------------------------------------------------------------
  // The recursive traversal
  // --------------------------------------------------------------------------------------------

  datatype Note =
    | Branch(at: Location, mode: nat)
    | Leaf(at: Location, mode: nat, digest: Bytes)

  /** What one part of the walk adds: its notes, whether all of it is fit, its bytes, and its visits. */
  datatype Tally = Tally(notes: seq<Note>, fit: bool, size: nat, visits: nat)

  const NOTHING := Tally([], true, 0, 0)

  function Plus(a: Tally, b: Tally): Tally {
    Tally(a.notes + b.notes, a.fit && b.fit, a.size + b.size, a.visits + b.visits)
  }

  /** What a node adds by itself. */
  function Own(s: Settings, at: Location, node: Node): (t: Tally)
    ensures t.visits == 1
  {
    if node.Missing? then Tally([], false, 0, 1)
    else if s.excluded(at) then Tally([], true, 0, 1)
    else if node.Dir? then Tally([Branch(at, node.mode)], node.readable, 0, 1)
    else if node.File? && node.data.Some? then
      Tally([Leaf(at, node.mode, s.hash(node.data.value))], node.links == 1 && |node.data.value| == node.size, node.size, 1)
    else Tally([], false, 0, 1)
  }

  predicate Opens(s: Settings, at: Location, node: Node) {
    node.Dir? && !s.excluded(at)
  }

  /** A node first, then its children by name, leaving out what is excluded. */
  function Visit(s: Settings, at: Location, node: Node): (t: Tally)
    ensures t.visits > 0
    decreases node, 1, 0
  {
    if Opens(s, at, node) then Plus(Own(s, at, node), VisitAll(s, at, Ordered(node.listing), node))
    else Own(s, at, node)
  }

  predicate Of(cs: seq<Child>, parent: Node) {
    parent.Dir? && multiset(cs) <= multiset(parent.listing)
  }

  function VisitAll(s: Settings, at: Location, cs: seq<Child>, parent: Node): Tally
    requires Of(cs, parent)
    decreases parent, 0, |cs|
  {
    if cs == [] then NOTHING
    else
      FirstIsListed(cs, parent);
      Plus(Visit(s, at + [cs[0].name], cs[0].node), VisitAll(s, at, cs[1..], parent))
  }

  lemma FirstIsListed(cs: seq<Child>, parent: Node)
    requires Of(cs, parent) && cs != []
    ensures Of(cs[1..], parent)
    ensures exists i :: 0 <= i < |parent.listing| && parent.listing[i] == cs[0]
  {
    assert cs == [cs[0]] + cs[1..];
    assert cs[0] in multiset(cs);
    assert cs[0] in parent.listing;
  }

  // --------------------------------------------------------------------------------------------
  // The stack
  // --------------------------------------------------------------------------------------------

  datatype Pending = Pending(at: Location, node: Node)

  function VisitStack(s: Settings, stack: seq<Pending>): Tally {
    if stack == [] then NOTHING
    else
      var top := stack[|stack| - 1];
      Plus(Visit(s, top.at, top.node), VisitStack(s, stack[..|stack| - 1]))
  }

  function Reversed<T>(xs: seq<T>): (r: seq<T>)
    ensures |r| == |xs|
  {
    if xs == [] then [] else Reversed(xs[1..]) + [xs[0]]
  }

  function Placed(at: Location, cs: seq<Child>): (ps: seq<Pending>)
    ensures |ps| == |cs|
  {
    seq(|cs|, i requires 0 <= i < |cs| => Pending(at + [cs[i].name], cs[i].node))
  }

  lemma PlusIsAssociative(a: Tally, b: Tally, c: Tally)
    ensures Plus(Plus(a, b), c) == Plus(a, Plus(b, c))
    ensures Plus(NOTHING, a) == a == Plus(a, NOTHING)
  {
    assert (a.notes + b.notes) + c.notes == a.notes + (b.notes + c.notes);
    assert [] + a.notes == a.notes == a.notes + [];
  }

  /** Children pushed in descending order are visited next, in ascending order. */
  lemma {:induction false} PushedComeNext(s: Settings, stack: seq<Pending>, at: Location, cs: seq<Child>, parent: Node)
    requires Of(cs, parent)
    ensures VisitStack(s, stack + Placed(at, Reversed(cs))) == Plus(VisitAll(s, at, cs, parent), VisitStack(s, stack))
    decreases |cs|
  {
    hide Visit;
    if cs == [] {
      assert stack + Placed(at, Reversed(cs)) == stack;
      PlusIsAssociative(VisitStack(s, stack), NOTHING, NOTHING);
    } else {
      FirstIsListed(cs, parent);
      var more := stack + Placed(at, Reversed(cs));
      var top := Pending(at + [cs[0].name], cs[0].node);
      assert more == (stack + Placed(at, Reversed(cs[1..]))) + [top];
      assert more[..|more| - 1] == stack + Placed(at, Reversed(cs[1..]));
      PushedComeNext(s, stack, at, cs[1..], parent);
      PlusIsAssociative(Visit(s, top.at, top.node), VisitAll(s, at, cs[1..], parent), VisitStack(s, stack));
    }
  }

  function RecordOf(n: Note): Record {
    match n
    case Branch(at, mode) => D(Paths.Join(at, SLASH), mode)
    case Leaf(at, mode, digest) => F(Paths.Join(at, SLASH), mode, digest)
  }

  function Records(notes: seq<Note>): (r: seq<Record>)
    ensures |r| == |notes|
  {
    seq(|notes|, i requires 0 <= i < |notes| => RecordOf(notes[i]))
  }

  function StreamOf(notes: seq<Note>): Bytes {
    Stream(Spell, Records(notes))
  }

  lemma {:induction false} StreamsJoin(a: seq<Record>, b: seq<Record>)
    ensures Stream(Spell, a + b) == Stream(Spell, a) + Stream(Spell, b)
  {
    hide Spell;
    if a == [] {
      assert a + b == b;
    } else {
      assert (a + b)[1..] == a[1..] + b;
      StreamsJoin(a[1..], b);
    }
  }

  lemma NotesJoin(a: seq<Note>, b: seq<Note>)
    ensures StreamOf(a + b) == StreamOf(a) + StreamOf(b)
  {
    hide Spell, RecordOf;
    assert Records(a + b) == Records(a) + Records(b);
    StreamsJoin(Records(a), Records(b));
  }

  /** What one note adds to the stream: D or F, the place with a slash between its names, the mode in
      octal after 0o, each ended by a NUL; then, for a file, the digest of its content. */
  lemma NoteSpelled(n: Note, rest: seq<Note>)
    ensures StreamOf([]) == []
    ensures n.Branch? ==>
      (StreamOf([n] + rest) ==
        [0x44, 0x00] + Paths.Join(n.at, 0x2f) + [0x00, 0x30, 0x6f] + OctalDigits(n.mode) + [0x00] + StreamOf(rest))
    ensures n.Leaf? ==>
      (StreamOf([n] + rest) ==
        [0x46, 0x00] + Paths.Join(n.at, 0x2f) + [0x00, 0x30, 0x6f] + OctalDigits(n.mode) + [0x00] + n.digest + StreamOf(rest))
  {
    NoteAlone();
    NotesJoin([n], rest);
    RecordLayout(RecordOf(n));
    hide StreamOf, Spell;
  }

  /** Looks at one node: checks it and notes it. */
  method Enter(s: Settings, at: Location, node: Node, before: nat, limit: nat)
      returns (ok: bool, total: nat, addition: Bytes)
    requires before <= limit
    ensures ok <==> Own(s, at, node).fit && before + Own(s, at, node).size <= limit
    ensures ok ==> total == before + Own(s, at, node).size && addition == StreamOf(Own(s, at, node).notes)
  {
    hide Spell, RecordOf;
    NoteAlone();
    total, addition := before, [];
    if node.Missing? { return false, total, addition; }
    if s.excluded(at) { return true, total, addition; }
    if node.Link? || node.Special? { return false, total, addition; }
    if node.Dir? {
      addition := Spell(RecordOf(Branch(at, node.mode)));
      return node.readable, total, addition;
    }
    if node.links != 1 { return false, total, addition; }
    total := total + node.size;
    if total > limit { return false, total, addition; }
    if node.data.None? || |node.data.value| != node.size { return false, total, addition; }
    addition := Spell(RecordOf(Leaf(at, node.mode, s.hash(node.data.value))));
    ok := true;
  }

  lemma NoteAlone()
    ensures StreamOf([]) == [] && forall n :: StreamOf([n]) == Spell(RecordOf(n))
  {
    hide Spell, RecordOf;
    forall n ensures StreamOf([n]) == Spell(RecordOf(n)) {
      assert Stream(Spell, Records([n])) == Spell(RecordOf(n)) + Stream(Spell, []);
    }
  }

  /** The loop over the stack: pop, note, push the children in descending order. */
  method Drain(s: Settings, roots: seq<Pending>, before: nat, limit: nat)
      returns (ok: bool, total: nat, stream: Bytes)
    requires before <= limit
    ensures ok <==> VisitStack(s, roots).fit && before + VisitStack(s, roots).size <= limit
    ensures ok ==> total == before + VisitStack(s, roots).size && stream == StreamOf(VisitStack(s, roots).notes)
  {
    hide Own, VisitStack, VisitAll, StreamOf, Ordered;
    var pending := roots;
    total, stream := before, [];
    ghost var all := VisitStack(s, roots);
    ghost var done := NOTHING;
    NoteAlone();
    PlusIsAssociative(all, all, all);
    while pending != []
      invariant all == Plus(done, VisitStack(s, pending))
      invariant done.fit && total == before + done.size <= limit && stream == StreamOf(done.notes)
      decreases VisitStack(s, pending).visits
    {
      var top := pending[|pending| - 1];
      ghost var own := Own(s, top.at, top.node);
      StackUnfolds(s, pending);
      pending := pending[..|pending| - 1];
      var ok', total', addition := Enter(s, top.at, top.node, total, limit);
      if !ok' { return false, total, stream; }
      NotesJoin(done.notes, own.notes);
      total, stream := total', stream + addition;
      if Opens(s, top.at, top.node) {
        PushedComeNext(s, pending, top.at, Ordered(top.node.listing), top.node);
        PlusIsAssociative(own, VisitAll(s, top.at, Ordered(top.node.listing), top.node), VisitStack(s, pending));
        pending := pending + Placed(top.at, Reversed(Ordered(top.node.listing)));
      }
      PlusIsAssociative(done, own, VisitStack(s, pending));
      done := Plus(done, own);
    }
    EmptyStack(s);
    PlusIsAssociative(done, done, done);
    ok := true;
  }

  lemma StackUnfolds(s: Settings, stack: seq<Pending>)
    requires stack != []
    ensures var top := stack[|stack| - 1];
      VisitStack(s, stack) == Plus(Visit(s, top.at, top.node), VisitStack(s, stack[..|stack| - 1]))
  {
  }

  lemma EmptyStack(s: Settings)
    ensures VisitStack(s, []) == NOTHING
  {
  }

  // --------------------------------------------------------------------------------------------
  // Which trees are digested
  // --------------------------------------------------------------------------------------------

  /** Every place that is not excluded, nor below an excluded directory, is a readable directory or a
      file with one link and all of its data there; an excluded place only has to exist. */
  predicate Digestible(excluded: Location -> bool, at: Location, node: Node)
    decreases node
  {
    if excluded(at) then !node.Missing?
    else
      match node
      case Dir(_, readable, listing) =>
        readable && forall i :: 0 <= i < |listing| ==> Digestible(excluded, at + [listing[i].name], listing[i].node)
      case File(_, links, size, data) => links == 1 && data.Some? && |data.value| == size
      case _ => false
  }

  /** The sizes of the files that are not left out, in the order of the listings. */
  function ShownBytes(excluded: Location -> bool, at: Location, node: Node): nat
    decreases node, 1, 0
  {
    if excluded(at) then 0
    else if node.File? then node.size
    else if node.Dir? then ShownBelow(excluded, at, node, |node.listing|)
    else 0
  }

  function ShownBelow(excluded: Location -> bool, at: Location, node: Node, n: nat): nat
    requires node.Dir? && n <= |node.listing|
    decreases node, 0, n
  {
    if n == 0 then 0
    else
      var c := node.listing[n - 1];
      ShownBelow(excluded, at, node, n - 1) + ShownBytes(excluded, at + [c.name], c.node)
  }

  function ShownIn(excluded: Location -> bool, roots: seq<Pending>): nat {
    if roots == [] then 0
    else ShownBytes(excluded, roots[0].at, roots[0].node) + ShownIn(excluded, roots[1..])
  }

  function BytesOf(excluded: Location -> bool, at: Location, cs: seq<Child>): nat {
    if cs == [] then 0
    else BytesOf(excluded, at, cs[..|cs| - 1]) + ShownBytes(excluded, at + [cs[|cs| - 1].name], cs[|cs| - 1].node)
  }

  lemma {:induction false} BelowIsAll(excluded: Location -> bool, at: Location, node: Node, n: nat)
    requires node.Dir? && n <= |node.listing|
    ensures ShownBelow(excluded, at, node, n) == BytesOf(excluded, at, node.listing[..n])
  {
    if n > 0 {
      BelowIsAll(excluded, at, node, n - 1);
      assert node.listing[..n][..n - 1] == node.listing[..n - 1];
    }
  }

  lemma {:induction false} BytesSplit(excluded: Location -> bool, at: Location, a: seq<Child>, b: seq<Child>)
    ensures BytesOf(excluded, at, a + b) == BytesOf(excluded, at, a) + BytesOf(excluded, at, b)
  {
    if b == [] {
      assert a + b == a;
    } else {
      assert (a + b)[..|a + b| - 1] == a + b[..|b| - 1];
      BytesSplit(excluded, at, a, b[..|b| - 1]);
    }
  }

  lemma OneChild(excluded: Location -> bool, at: Location, c: Child)
    ensures BytesOf(excluded, at, [c]) == ShownBytes(excluded, at + [c.name], c.node)
  {
    assert [c][..0] == [];
  }

  /** The children but one. */
  lemma WithoutOne(excluded: Location -> bool, at: Location, cs: seq<Child>, i: nat) returns (rest: seq<Child>)
    requires i < |cs|
    ensures multiset(cs) == multiset{cs[i]} + multiset(rest) && |rest| == |cs| - 1
    ensures BytesOf(excluded, at, cs) == ShownBytes(excluded, at + [cs[i].name], cs[i].node) + BytesOf(excluded, at, rest)
  {
    hide BytesOf;
    rest := cs[..i] + cs[i + 1..];
    assert cs == cs[..i] + ([cs[i]] + cs[i + 1..]);
    BytesSplit(excluded, at, cs[..i], [cs[i]] + cs[i + 1..]);
    BytesSplit(excluded, at, [cs[i]], cs[i + 1..]);
    BytesSplit(excluded, at, cs[..i], cs[i + 1..]);
    OneChild(excluded, at, cs[i]);
  }

  lemma {:induction false} BytesReordered(excluded: Location -> bool, at: Location, a: seq<Child>, b: seq<Child>)
    requires multiset(a) == multiset(b)
    ensures BytesOf(excluded, at, a) == BytesOf(excluded, at, b)
    decreases |a|
  {
    if a == [] {
      assert |b| == |multiset(b)| == 0;
    } else {
      assert a[0] in multiset(b);
      var i :| 0 <= i < |b| && b[i] == a[0];
      var x := WithoutOne(excluded, at, a, 0);
      var y := WithoutOne(excluded, at, b, i);
      assert multiset(x) == multiset(a) - multiset{a[0]} == multiset(b) - multiset{b[i]} == multiset(y);
      BytesReordered(excluded, at, x, y);
    }
  }

  lemma DigestibleReordered(excluded: Location -> bool, at: Location, a: seq<Child>, b: seq<Child>)
    requires multiset(a) == multiset(b)
    ensures (forall i :: 0 <= i < |a| ==> Digestible(excluded, at + [a[i].name], a[i].node)) <==>
      (forall i :: 0 <= i < |b| ==> Digestible(excluded, at + [b[i].name], b[i].node))
  {
    hide Digestible;
    forall i | 0 <= i < |a| ensures a[i] in b { assert a[i] in multiset(b); }
    forall i | 0 <= i < |b| ensures b[i] in a { assert b[i] in multiset(a); }
  }

  /** The walk accepts the digestible trees, and counts the bytes they show. */
  lemma {:induction false} WalkAccepts(s: Settings, at: Location, node: Node)
    ensures Visit(s, at, node).fit <==> Digestible(s.excluded, at, node)
    ensures Visit(s, at, node).fit ==> Visit(s, at, node).size == ShownBytes(s.excluded, at, node)
    decreases node, 1, 0
  {
    if Opens(s, at, node) {
      var cs := Ordered(node.listing);
      WalkAcceptsAll(s, at, cs, node);
      BytesReordered(s.excluded, at, cs, node.listing);
      BelowIsAll(s.excluded, at, node, |node.listing|);
      assert node.listing[..|node.listing|] == node.listing;
      DigestibleReordered(s.excluded, at, cs, node.listing);
      hide VisitAll, Ordered, BytesOf, ShownBelow;
    }
  }

  lemma {:induction false} WalkAcceptsAll(s: Settings, at: Location, cs: seq<Child>, parent: Node)
    requires Of(cs, parent)
    ensures VisitAll(s, at, cs, parent).fit <==>
      forall i :: 0 <= i < |cs| ==> Digestible(s.excluded, at + [cs[i].name], cs[i].node)
    ensures VisitAll(s, at, cs, parent).fit ==> VisitAll(s, at, cs, parent).size == BytesOf(s.excluded, at, cs)
    decreases parent, 0, |cs|
  {
    hide Visit, Digestible, ShownBytes;
    if cs != [] {
      FirstIsListed(cs, parent);
      WalkAccepts(s, at + [cs[0].name], cs[0].node);
      WalkAcceptsAll(s, at, cs[1..], parent);
      assert cs == [cs[0]] + cs[1..];
      BytesSplit(s.excluded, at, [cs[0]], cs[1..]);
      OneChild(s.excluded, at, cs[0]);
      assert forall i :: 0 < i < |cs| ==> cs[i] == cs[1..][i - 1];
    }
  }

  lemma {:induction false} RootsAreAccepted(s: Settings, roots: seq<Pending>)
    ensures VisitRoots(s, roots).fit <==>
      forall i :: 0 <= i < |roots| ==> Digestible(s.excluded, roots[i].at, roots[i].node)
    ensures VisitRoots(s, roots).fit ==> VisitRoots(s, roots).size == ShownIn(s.excluded, roots)
  {
    hide Visit, Digestible, ShownBytes;
    if roots != [] {
      WalkAccepts(s, roots[0].at, roots[0].node);
      RootsAreAccepted(s, roots[1..]);
      assert forall i :: 0 < i < |roots| ==> roots[i] == roots[1..][i - 1];
    }
  }

  // --------------------------------------------------------------------------------------------
  // The two digests
  // --------------------------------------------------------------------------------------------

  /** The roots one after the other. */
  function VisitRoots(s: Settings, roots: seq<Pending>): Tally {
    if roots == [] then NOTHING else Plus(Visit(s, roots[0].at, roots[0].node), VisitRoots(s, roots[1..]))
  }

  lemma {:induction false} ReversedStack(s: Settings, roots: seq<Pending>)
    ensures VisitStack(s, Reversed(roots)) == VisitRoots(s, roots)
  {
    hide Visit;
    if roots != [] {
      ReversedStack(s, roots[1..]);
      var stack := Reversed(roots);
      assert stack[..|stack| - 1] == Reversed(roots[1..]);
    }
  }

  /** One stack holding all roots in reverse. */
  method BuildSourceStream(s: Settings, roots: seq<Pending>) returns (r: Option<Bytes>)
    ensures r.Some? <==>
      && (forall i :: 0 <= i < |roots| ==> Digestible(s.excluded, roots[i].at, roots[i].node))
      && ShownIn(s.excluded, roots) <= 134_217_728
    ensures r.Some? ==> r.value == StreamOf(VisitRoots(s, roots).notes)
  {
    ReversedStack(s, roots);
    RootsAreAccepted(s, roots);
    assert MAX_BUILD_SOURCE == 134_217_728;
    hide *;
    var ok, _, stream := Drain(s, Reversed(roots), 0, MAX_BUILD_SOURCE);
    return if ok then Some(stream) else None;
  }

  lemma {:induction false} RootsGrow(s: Settings, roots: seq<Pending>, i: nat)
    requires i < |roots|
    ensures VisitRoots(s, roots[..i + 1]) == Plus(VisitRoots(s, roots[..i]), Visit(s, roots[i].at, roots[i].node))
    decreases i
  {
    hide Visit;
    var v := Visit(s, roots[i].at, roots[i].node);
    PlusIsAssociative(v, v, v);
    if i == 0 {
      assert roots[..1] == [roots[0]] && roots[..0] == [];
    } else {
      RootsGrow(s, roots[1..], i - 1);
      assert roots[1..][..i] == roots[..i + 1][1..] && roots[1..][..i - 1] == roots[..i][1..];
      PlusIsAssociative(Visit(s, roots[0].at, roots[0].node), VisitRoots(s, roots[1..][..i - 1]), v);
    }
  }

  lemma {:induction false} RootsMonotone(s: Settings, roots: seq<Pending>, i: nat)
    requires i <= |roots|
    ensures VisitRoots(s, roots[..i]).size <= VisitRoots(s, roots).size
    ensures VisitRoots(s, roots).fit ==> VisitRoots(s, roots[..i]).fit
    decreases |roots| - i
  {
    hide Visit;
    if i == |roots| {
      assert roots[..i] == roots;
    } else {
      RootsMonotone(s, roots, i + 1);
      RootsGrow(s, roots, i);
    }
  }

  /** A stack of its own for every root, with one running total. */
  method InputTreeStream(s: Settings, roots: seq<Pending>) returns (r: Option<Bytes>)
    ensures r.Some? <==>
      && (forall i :: 0 <= i < |roots| ==> Digestible(s.excluded, roots[i].at, roots[i].node))
      && ShownIn(s.excluded, roots) <= 33_554_432
    ensures r.Some? ==> r.value == StreamOf(VisitRoots(s, roots).notes)
  {
    RootsAreAccepted(s, roots);
    hide VisitRoots, StreamOf, Visit;
    var total, stream := 0, [];
    var i := 0;
    NoteAlone();
    NoRoots(s);
    assert roots[..0] == [];
    while i < |roots|
      invariant 0 <= i <= |roots| && VisitRoots(s, roots[..i]).fit
      invariant total == VisitRoots(s, roots[..i]).size <= MAX_INPUT_TREE
      invariant stream == StreamOf(VisitRoots(s, roots[..i]).notes)
    {
      RootsGrow(s, roots, i);
      RootsMonotone(s, roots, i + 1);
      SingleRoot(s, roots[i]);
      var ok, total', addition := Drain(s, [roots[i]], total, MAX_INPUT_TREE);
      if !ok { return None; }
      NotesJoin(VisitRoots(s, roots[..i]).notes, Visit(s, roots[i].at, roots[i].node).notes);
      total, stream := total', stream + addition;
      i := i + 1;
    }
    assert roots[..i] == roots;
    return Some(stream);
  }

  lemma NoRoots(s: Settings)
    ensures VisitRoots(s, []) == NOTHING
  {
  }

  lemma SingleRoot(s: Settings, root: Pending)
    ensures VisitStack(s, [root]) == Visit(s, root.at, root.node)
  {
    hide Visit;
    StackUnfolds(s, [root]);
    EmptyStack(s);
    var v := Visit(s, root.at, root.node);
    PlusIsAssociative(v, v, v);
    assert [root][..0] == [];
  }

  // --------------------------------------------------------------------------------------------
  // What a stream identifies
  // --------------------------------------------------------------------------------------------

  predicate LegalName(n: Bytes) { n != [] && SLASH !in n && 0 !in n }

  /** As a file system guarantees it: names without slash or NUL, each once in its directory. */
  predicate Legal(node: Node)
    decreases node
  {
    node.Dir? ==>
      && Distinct(ChildName, node.listing)
      && forall i :: 0 <= i < |node.listing| ==> LegalName(node.listing[i].name) && Legal(node.listing[i].node)
  }

  predicate LegalPath(at: Location) {
    forall i :: 0 <= i < |at| ==> LegalName(at[i])
  }

  predicate Visible(s: Settings, at: Location, c: Child) {
    !s.excluded(at + [c.name])
  }

  predicate Has(cs: seq<Child>, name: Bytes) {
    exists i :: 0 <= i < |cs| && cs[i].name == name
  }

  /** Every visible name of the one list is in the other. */
  predicate Covers(s: Settings, at: Location, cs: seq<Child>, ds: seq<Child>) {
    forall i :: 0 <= i < |cs| && Visible(s, at, cs[i]) ==> Has(ds, cs[i].name)
  }

  /** Two nodes the digest should not tell apart: same kind, mode and content digest, and in a directory
      the same visible names leading to such nodes, in whatever order. */
  ghost predicate Same(s: Settings, at: Location, a: Node, b: Node)
    decreases a
  {
    s.excluded(at)
    || (a.Dir? && b.Dir? && a.mode == b.mode
        && Covers(s, at, a.listing, b.listing) && Covers(s, at, b.listing, a.listing)
        && forall i, j :: 0 <= i < |a.listing| && 0 <= j < |b.listing| && a.listing[i].name == b.listing[j].name ==>
            Same(s, at + [a.listing[i].name], a.listing[i].node, b.listing[j].node))
    || (a.File? && b.File? && a.data.Some? && b.data.Some?
        && a.mode == b.mode && s.hash(a.data.value) == s.hash(b.data.value))
  }

  ghost predicate SameLists(s: Settings, at: Location, cs: seq<Child>, ds: seq<Child>) {
    && Covers(s, at, cs, ds) && Covers(s, at, ds, cs)
    && forall i, j :: 0 <= i < |cs| && 0 <= j < |ds| && cs[i].name == ds[j].name ==>
      Same(s, at + [cs[i].name], cs[i].node, ds[j].node)
  }

  lemma HasReordered(cs: seq<Child>, cs': seq<Child>, name: Bytes)
    requires multiset(cs) == multiset(cs') && Has(cs, name)
    ensures Has(cs', name)
  {
    var i :| 0 <= i < |cs| && cs[i].name == name;
    assert cs[i] in multiset(cs');
  }

  /** The order of the listings does not matter. */
  lemma SameListsReordered(s: Settings, at: Location, cs: seq<Child>, ds: seq<Child>, cs': seq<Child>, ds': seq<Child>)
    requires multiset(cs) == multiset(cs') && multiset(ds) == multiset(ds') && SameLists(s, at, cs, ds)
    ensures SameLists(s, at, cs', ds')
  {
    hide Same, Has;
    forall i | 0 <= i < |cs'| && Visible(s, at, cs'[i]) ensures Has(ds', cs'[i].name) {
      assert cs'[i] in multiset(cs);
      HasReordered(ds, ds', cs'[i].name);
    }
    forall j | 0 <= j < |ds'| && Visible(s, at, ds'[j]) ensures Has(cs', ds'[j].name) {
      assert ds'[j] in multiset(ds);
      HasReordered(cs, cs', ds'[j].name);
    }
    forall i, j | 0 <= i < |cs'| && 0 <= j < |ds'| && cs'[i].name == ds'[j].name
      ensures Same(s, at + [cs'[i].name], cs'[i].node, ds'[j].node)
    {
      assert cs'[i] in multiset(cs) && ds'[j] in multiset(ds);
    }
  }

  /** Every note of a visit lies at or below where it started. */
  lemma {:induction false} NotesLieBelow(s: Settings, at: Location, node: Node)
    ensures forall n :: n in Visit(s, at, node).notes ==> at <= n.at
    ensures Visit(s, at, node).fit && !s.excluded(at) ==> Visit(s, at, node).notes != []
    ensures s.excluded(at) ==> Visit(s, at, node).notes == []
    decreases node, 1, 0
  {
    if Opens(s, at, node) {
      ChildNotesLieBelow(s, at, Ordered(node.listing), node);
    }
  }

  lemma {:induction false} ChildNotesLieBelow(s: Settings, at: Location, cs: seq<Child>, parent: Node)
    requires Of(cs, parent)
    ensures forall n :: n in VisitAll(s, at, cs, parent).notes ==>
      at < n.at && Has(cs, n.at[|at|]) && at + [n.at[|at|]] <= n.at
    decreases parent, 0, |cs|
  {
    hide Visit;
    if cs != [] {
      FirstIsListed(cs, parent);
      NotesLieBelow(s, at + [cs[0].name], cs[0].node);
      ChildNotesLieBelow(s, at, cs[1..], parent);
      forall n | n in VisitAll(s, at, cs, parent).notes
        ensures at < n.at && Has(cs, n.at[|at|]) && at + [n.at[|at|]] <= n.at
      {
        if n in Visit(s, at + [cs[0].name], cs[0].node).notes {
          assert n.at[..|at| + 1] == at + [cs[0].name];
          assert n.at[|at|] == cs[0].name;
        } else {
          HasMore(cs, n.at[|at|]);
        }
      }
    }
  }

  lemma HasMore(cs: seq<Child>, name: Bytes)
    requires cs != [] && Has(cs[1..], name)
    ensures Has(cs, name)
  {
    var i :| 0 <= i < |cs[1..]| && cs[1..][i].name == name;
    assert cs[i + 1].name == name;
  }

  /** Two lists agree up to where one part's notes end when nothing after it lies below the same place. */
  lemma NotesCut(place: Location, a: seq<Note>, x: seq<Note>, b: seq<Note>, y: seq<Note>)
    requires a + x == b + y
    requires forall n :: n in a || n in b ==> place <= n.at
    requires forall n :: n in x || n in y ==> !(place <= n.at)
    ensures a == b && x == y
  {
    var w := a + x;
    forall i | 0 <= i < |w| ensures (place <= w[i].at <==> i < |a|) && (place <= w[i].at <==> i < |b|) {
      assert w[i] == if i < |a| then a[i] else x[i - |a|];
      assert w[i] == if i < |b| then b[i] else y[i - |b|];
    }
    assert |a| < |w| ==> (place <= w[|a|].at <==> |a| < |b|);
    assert |b| < |w| ==> (place <= w[|b|].at <==> |b| < |a|);
    assert w[..|a|] == a && w[..|b|] == b && w[|a|..] == x && w[|b|..] == y;
  }

  predicate LegalAll(cs: seq<Child>) {
    && Increasing(ChildName, cs)
    && forall i :: 0 <= i < |cs| ==> LegalName(cs[i].name) && Legal(cs[i].node)
  }

  lemma OrderedIsLegal(node: Node)
    requires node.Dir? && Legal(node)
    ensures LegalAll(Ordered(node.listing)) && Of(Ordered(node.listing), node)
  {
    hide LegalName, Increasing;
    SortingOrders(ChildName, node.listing);
    var cs := Ordered(node.listing);
    forall i | 0 <= i < |cs| ensures LegalName(cs[i].name) && Legal(cs[i].node) {
      assert cs[i] in multiset(node.listing);
    }
  }

  lemma LegalTail(cs: seq<Child>)
    requires LegalAll(cs) && cs != []
    ensures LegalAll(cs[1..]) && !Has(cs[1..], cs[0].name)
    ensures forall name: Bytes :: Has(cs[1..], name) ==> Less(cs[0].name, name)
  {
    hide LegalName, Legal;
    forall i | 0 <= i < |cs[1..]| ensures Less(cs[0].name, cs[1..][i].name) {
      assert Less(ChildName(cs[0]), ChildName(cs[i + 1]));
    }
    forall i, j | 0 <= i < j < |cs[1..]| ensures Less(ChildName(cs[1..][i]), ChildName(cs[1..][j])) {
      assert Less(ChildName(cs[i + 1]), ChildName(cs[j + 1]));
    }
    LessTotal(cs[0].name, cs[0].name);
  }

  lemma HasSplits(cs: seq<Child>, name: Bytes)
    requires cs != []
    ensures Has(cs, name) <==> cs[0].name == name || Has(cs[1..], name)
  {
    if Has(cs[1..], name) { HasMore(cs, name); }
    if Has(cs, name) && cs[0].name != name {
      var i :| 0 <= i < |cs| && cs[i].name == name;
      assert cs[1..][i - 1].name == name;
    }
  }

  lemma HiddenHeadSkips(s: Settings, at: Location, cs: seq<Child>, ds: seq<Child>)
    requires cs != [] && !Visible(s, at, cs[0])
    ensures SameLists(s, at, cs, ds) <==> SameLists(s, at, cs[1..], ds)
    ensures SameLists(s, at, ds, cs) <==> SameLists(s, at, ds, cs[1..])
  {
    hide Has;
    forall name ensures Has(cs, name) <==> cs[0].name == name || Has(cs[1..], name) { HasSplits(cs, name); }
    forall i | 0 < i < |cs| ensures cs[i] == cs[1..][i - 1] {}
    forall d: Child | d.name == cs[0].name
      ensures !Visible(s, at, d) && Same(s, at + [d.name], cs[0].node, d.node) && Same(s, at + [d.name], d.node, cs[0].node) {}
    hide Same, Visible;
    assert forall i :: 0 <= i < |cs[1..]| ==> cs[1..][i] == cs[i + 1];
  }

  lemma EqualHeadsSkip(s: Settings, at: Location, cs: seq<Child>, ds: seq<Child>)
    requires cs != [] && ds != [] && LegalAll(cs) && LegalAll(ds) && cs[0].name == ds[0].name
    ensures SameLists(s, at, cs, ds) <==>
      Same(s, at + [cs[0].name], cs[0].node, ds[0].node) && SameLists(s, at, cs[1..], ds[1..])
  {
    LegalTail(cs);
    LegalTail(ds);
    forall name ensures Has(cs, name) <==> cs[0].name == name || Has(cs[1..], name) { HasSplits(cs, name); }
    forall name ensures Has(ds, name) <==> ds[0].name == name || Has(ds[1..], name) { HasSplits(ds, name); }
    hide Same, Visible, LegalAll, Less;
    forall i | 0 < i < |cs| ensures cs[i] == cs[1..][i - 1] && cs[i].name != cs[0].name {}
    forall j | 0 < j < |ds| ensures ds[j] == ds[1..][j - 1] && ds[j].name != ds[0].name {}
  }

  lemma UnequalHeadsDiffer(s: Settings, at: Location, cs: seq<Child>, ds: seq<Child>)
    requires LegalAll(cs) && LegalAll(ds) && (cs != [] || ds != [])
    requires cs != [] ==> Visible(s, at, cs[0])
    requires ds != [] ==> Visible(s, at, ds[0])
    requires cs != [] && ds != [] ==> cs[0].name != ds[0].name
    ensures !SameLists(s, at, cs, ds)
  {
    hide Same, Less;
    if cs != [] { LegalTail(cs); }
    if ds != [] { LegalTail(ds); }
    if cs == [] {
      assert !Has(cs, ds[0].name);
    } else if ds == [] {
      assert !Has(ds, cs[0].name);
    } else {
      LessTotal(cs[0].name, ds[0].name);
      HasSplits(cs, ds[0].name);
      HasSplits(ds, cs[0].name);
    }
  }

  lemma {:induction false} NodesDetermine(s: Settings, at: Location, a: Node, b: Node)
    requires Legal(a) && Legal(b) && Visit(s, at, a).fit && Visit(s, at, b).fit
    ensures Visit(s, at, a).notes == Visit(s, at, b).notes <==> Same(s, at, a, b)
    decreases a, 1, 0
  {
    NotesLieBelow(s, at, a);
    NotesLieBelow(s, at, b);
    if !s.excluded(at) {
      if a.Dir? && b.Dir? {
        var cs, ds := Ordered(a.listing), Ordered(b.listing);
        OrderedIsLegal(a);
        OrderedIsLegal(b);
        ListsDetermine(s, at, cs, ds, a, b);
        DirectoriesUnfold(s, at, a, b);
      } else {
        FirstNoteTells(s, at, a);
        FirstNoteTells(s, at, b);
      }
    }
  }

  lemma FirstNoteTells(s: Settings, at: Location, node: Node)
    requires Visit(s, at, node).fit && !s.excluded(at)
    ensures node.Dir? || (node.File? && node.data.Some?)
    ensures Visit(s, at, node).notes != []
    ensures node.Dir? ==> Visit(s, at, node).notes[0] == Branch(at, node.mode)
    ensures node.File? ==> Visit(s, at, node).notes == [Leaf(at, node.mode, s.hash(node.data.value))]
  {
  }

  lemma DirectoriesUnfold(s: Settings, at: Location, a: Node, b: Node)
    requires a.Dir? && b.Dir? && !s.excluded(at)
    ensures Visit(s, at, a).notes == Visit(s, at, b).notes <==>
      a.mode == b.mode
      && VisitAll(s, at, Ordered(a.listing), a).notes == VisitAll(s, at, Ordered(b.listing), b).notes
    ensures Same(s, at, a, b) <==> a.mode == b.mode && SameLists(s, at, Ordered(a.listing), Ordered(b.listing))
  {
    var cs, ds := Ordered(a.listing), Ordered(b.listing);
    if SameLists(s, at, cs, ds) { SameListsReordered(s, at, cs, ds, a.listing, b.listing); }
    if SameLists(s, at, a.listing, b.listing) { SameListsReordered(s, at, a.listing, b.listing, cs, ds); }
    hide VisitAll, Ordered, Covers;
    var x, y := VisitAll(s, at, cs, a).notes, VisitAll(s, at, ds, b).notes;
    assert ([Branch(at, a.mode)] + x)[1..] == x && ([Branch(at, b.mode)] + y)[1..] == y;
    assert ([Branch(at, a.mode)] + x)[0] == Branch(at, a.mode) && ([Branch(at, b.mode)] + y)[0] == Branch(at, b.mode);
  }

  lemma {:induction false} ListsDetermine(
      s: Settings, at: Location, cs: seq<Child>, ds: seq<Child>, a: Node, b: Node)
    requires Of(cs, a) && Of(ds, b) && LegalAll(cs) && LegalAll(ds)
    requires VisitAll(s, at, cs, a).fit && VisitAll(s, at, ds, b).fit
    ensures VisitAll(s, at, cs, a).notes == VisitAll(s, at, ds, b).notes <==> SameLists(s, at, cs, ds)
    decreases a, 0, |cs| + |ds|
  {
    hide Visit, Same, SameLists, LegalAll, Has, Visible;
    if cs == [] && ds == [] {
      NothingIsSame(s, at);
    } else if cs != [] && !Visible(s, at, cs[0]) {
      HiddenHeadAddsNothing(s, at, cs, a);
      HiddenHeadSkips(s, at, cs, ds);
      LegalRest(cs);
      ListsDetermine(s, at, cs[1..], ds, a, b);
    } else if ds != [] && !Visible(s, at, ds[0]) {
      HiddenHeadAddsNothing(s, at, ds, b);
      HiddenHeadSkips(s, at, ds, cs);
      LegalRest(ds);
      ListsDetermine(s, at, cs, ds[1..], a, b);
    } else if cs == [] || ds == [] || cs[0].name != ds[0].name {
      UnequalHeadsDiffer(s, at, cs, ds);
      if cs != [] { VisibleHeadShows(s, at, cs, a); }
      if ds != [] { VisibleHeadShows(s, at, ds, b); }
    } else {
      EqualHeadsSkip(s, at, cs, ds);
      FirstIsListed(cs, a);
      FirstIsListed(ds, b);
      LegalRest(cs);
      LegalRest(ds);
      HeadsAreFit(s, at, cs, a);
      HeadsAreFit(s, at, ds, b);
      NodesDetermine(s, at + [cs[0].name], cs[0].node, ds[0].node);
      ListsDetermine(s, at, cs[1..], ds[1..], a, b);
      HeadNotesCut(s, at, cs, ds, a, b);
    }
  }

  lemma NothingIsSame(s: Settings, at: Location)
    ensures SameLists(s, at, [], [])
  {
  }

  lemma LegalRest(cs: seq<Child>)
    requires LegalAll(cs) && cs != []
    ensures LegalAll(cs[1..]) && Legal(cs[0].node)
  {
    LegalTail(cs);
  }

  lemma HeadsAreFit(s: Settings, at: Location, cs: seq<Child>, parent: Node)
    requires Of(cs, parent) && cs != [] && VisitAll(s, at, cs, parent).fit
    ensures Of(cs[1..], parent)
    ensures Visit(s, at + [cs[0].name], cs[0].node).fit && VisitAll(s, at, cs[1..], parent).fit
    ensures VisitAll(s, at, cs, parent).notes ==
      Visit(s, at + [cs[0].name], cs[0].node).notes + VisitAll(s, at, cs[1..], parent).notes
  {
    hide Visit;
    FirstIsListed(cs, parent);
  }

  lemma HiddenHeadAddsNothing(s: Settings, at: Location, cs: seq<Child>, parent: Node)
    requires Of(cs, parent) && cs != [] && VisitAll(s, at, cs, parent).fit && !Visible(s, at, cs[0])
    ensures Of(cs[1..], parent) && VisitAll(s, at, cs[1..], parent).fit
    ensures VisitAll(s, at, cs, parent).notes == VisitAll(s, at, cs[1..], parent).notes
  {
    HeadsAreFit(s, at, cs, parent);
    NotesLieBelow(s, at + [cs[0].name], cs[0].node);
    hide Visit, VisitAll;
    var x := VisitAll(s, at, cs[1..], parent).notes;
    assert [] + x == x;
  }

  lemma VisibleHeadShows(s: Settings, at: Location, cs: seq<Child>, parent: Node)
    requires Of(cs, parent) && cs != [] && VisitAll(s, at, cs, parent).fit && Visible(s, at, cs[0])
    ensures VisitAll(s, at, cs, parent).notes != []
    ensures var first := VisitAll(s, at, cs, parent).notes[0].at; |at| < |first| && first[|at|] == cs[0].name
  {
    HeadsAreFit(s, at, cs, parent);
    NotesLieBelow(s, at + [cs[0].name], cs[0].node);
    hide Visit, VisitAll;
    var own := Visit(s, at + [cs[0].name], cs[0].node).notes;
    assert own[0] in own;
    assert own[0].at[..|at| + 1] == at + [cs[0].name];
  }

  lemma HeadNotesCut(s: Settings, at: Location, cs: seq<Child>, ds: seq<Child>, a: Node, b: Node)
    requires Of(cs, a) && Of(ds, b) && LegalAll(cs) && LegalAll(ds) && cs != [] && ds != []
    requires VisitAll(s, at, cs, a).fit && VisitAll(s, at, ds, b).fit && cs[0].name == ds[0].name
    ensures Of(cs[1..], a) && Of(ds[1..], b)
    ensures VisitAll(s, at, cs, a).notes == VisitAll(s, at, ds, b).notes <==>
      && Visit(s, at + [cs[0].name], cs[0].node).notes == Visit(s, at + [cs[0].name], ds[0].node).notes
      && VisitAll(s, at, cs[1..], a).notes == VisitAll(s, at, ds[1..], b).notes
  {
    var place := at + [cs[0].name];
    HeadsAreFit(s, at, cs, a);
    HeadsAreFit(s, at, ds, b);
    NotesLieBelow(s, place, cs[0].node);
    NotesLieBelow(s, place, ds[0].node);
    RestLiesElsewhere(s, at, cs, a);
    RestLiesElsewhere(s, at, ds, b);
    hide Visit, VisitAll;
    var u, x := Visit(s, place, cs[0].node).notes, VisitAll(s, at, cs[1..], a).notes;
    var v, y := Visit(s, place, ds[0].node).notes, VisitAll(s, at, ds[1..], b).notes;
    if u + x == v + y { NotesCut(place, u, x, v, y); }
  }

  lemma NextStep(at: Location, name: Bytes, path: Location)
    ensures at + [name] <= path ==> path[|at|] == name
  {
    assert (at + [name])[|at|] == name;
  }

  lemma RestLiesElsewhere(s: Settings, at: Location, cs: seq<Child>, parent: Node)
    requires Of(cs, parent) && cs != [] && LegalAll(cs)
    ensures Of(cs[1..], parent)
    ensures forall n :: n in VisitAll(s, at, cs[1..], parent).notes ==> !(at + [cs[0].name] <= n.at)
  {
    FirstIsListed(cs, parent);
    LegalTail(cs);
    ChildNotesLieBelow(s, at, cs[1..], parent);
    hide VisitAll, Has, Less;
    forall n | n in VisitAll(s, at, cs[1..], parent).notes ensures !(at + [cs[0].name] <= n.at) {
      assert Has(cs[1..], n.at[|at|]);
      NextStep(at, cs[0].name, n.at);
    }
  }

  // --------------------------------------------------------------------------------------------
  // Which notes, in which order
  // --------------------------------------------------------------------------------------------

  /** The note belongs to a visible directory or file at or below the place. */
  ghost predicate Shows(s: Settings, at: Location, node: Node, n: Note)
    decreases node
  {
    !s.excluded(at)
    && ((node.Dir? && n == Branch(at, node.mode))
        || (node.File? && node.data.Some? && n == Leaf(at, node.mode, s.hash(node.data.value)))
        || (node.Dir? && exists i ::
              0 <= i < |node.listing| && Shows(s, at + [node.listing[i].name], node.listing[i].node, n)))
  }

  ghost predicate AnyShows(s: Settings, at: Location, cs: seq<Child>, n: Note) {
    exists i :: 0 <= i < |cs| && Shows(s, at + [cs[i].name], cs[i].node, n)
  }

  lemma AnyShowsSplits(s: Settings, at: Location, cs: seq<Child>, n: Note)
    requires cs != []
    ensures AnyShows(s, at, cs, n) <==>
      Shows(s, at + [cs[0].name], cs[0].node, n) || AnyShows(s, at, cs[1..], n)
  {
    hide Shows;
    if AnyShows(s, at, cs[1..], n) {
      var i :| 0 <= i < |cs[1..]| && Shows(s, at + [cs[1..][i].name], cs[1..][i].node, n);
      assert cs[i + 1] == cs[1..][i];
    }
    if AnyShows(s, at, cs, n) && !Shows(s, at + [cs[0].name], cs[0].node, n) {
      var i :| 0 <= i < |cs| && Shows(s, at + [cs[i].name], cs[i].node, n);
      assert cs[1..][i - 1] == cs[i];
    }
  }

  lemma AnyShowsReordered(s: Settings, at: Location, cs: seq<Child>, ds: seq<Child>, n: Note)
    requires multiset(cs) == multiset(ds) && AnyShows(s, at, cs, n)
    ensures AnyShows(s, at, ds, n)
  {
    hide Shows;
    var i :| 0 <= i < |cs| && Shows(s, at + [cs[i].name], cs[i].node, n);
    assert cs[i] in multiset(ds);
  }

  /** The walk notes every visible node and nothing else. */
  lemma {:induction false} WalkNotesWhatShows(s: Settings, at: Location, node: Node, n: Note)
    ensures n in Visit(s, at, node).notes <==> Shows(s, at, node, n)
    decreases node, 1, 0
  {
    if Opens(s, at, node) {
      var cs := Ordered(node.listing);
      WalkNotesWhatAnyShows(s, at, cs, node, n);
      if AnyShows(s, at, cs, n) { AnyShowsReordered(s, at, cs, node.listing, n); }
      if AnyShows(s, at, node.listing, n) { AnyShowsReordered(s, at, node.listing, cs, n); }
      hide VisitAll, Ordered;
    }
  }

  lemma {:induction false} WalkNotesWhatAnyShows(s: Settings, at: Location, cs: seq<Child>, parent: Node, n: Note)
    requires Of(cs, parent)
    ensures n in VisitAll(s, at, cs, parent).notes <==> AnyShows(s, at, cs, n)
    decreases parent, 0, |cs|
  {
    hide Visit, Shows;
    if cs != [] {
      FirstIsListed(cs, parent);
      WalkNotesWhatShows(s, at + [cs[0].name], cs[0].node, n);
      WalkNotesWhatAnyShows(s, at, cs[1..], parent, n);
      AnyShowsSplits(s, at, cs, n);
    }
  }

  /** A directory before what it holds, and names in order. */
  predicate Before(p: Location, q: Location) {
    if q == [] then false
    else if p == [] then true
    else if p[0] != q[0] then Less(p[0], q[0])
    else Before(p[1..], q[1..])
  }

  lemma {:induction false} BeforeByName(at: Location, a: Bytes, b: Bytes, p: Location, q: Location)
    requires at + [a] <= p && at + [b] <= q && Less(a, b)
    ensures Before(p, q)
  {
    LessTotal(a, b);
    if at == [] {
      assert p[0] == [a][0] && q[0] == [b][0];
    } else {
      assert p[0] == (at + [a])[0] && q[0] == (at + [b])[0];
      assert (at + [a])[1..] == at[1..] + [a] && (at + [b])[1..] == at[1..] + [b];
      BeforeByName(at[1..], a, b, p[1..], q[1..]);
    }
  }

  lemma {:induction false} BeforeByPrefix(p: Location, q: Location)
    requires p < q
    ensures Before(p, q)
  {
    if p != [] { BeforeByPrefix(p[1..], q[1..]); }
  }

  predicate Ascending(notes: seq<Note>) {
    forall i, j :: 0 <= i < j < |notes| ==> Before(notes[i].at, notes[j].at)
  }

  lemma AscendingJoins(a: seq<Note>, b: seq<Note>)
    requires Ascending(a) && Ascending(b)
    requires forall m, n :: m in a && n in b ==> Before(m.at, n.at)
    ensures Ascending(a + b)
  {
    hide Before;
    var w := a + b;
    forall i, j | 0 <= i < j < |w| ensures Before(w[i].at, w[j].at) {
      assert i < |a| ==> w[i] == a[i];
      assert j < |a| ==> w[j] == a[j];
      assert i >= |a| ==> w[i] == b[i - |a|];
      assert j >= |a| ==> w[j] == b[j - |a|];
    }
  }

  /** The walk notes in order of place, each place once. */
  lemma {:induction false} WalkAscends(s: Settings, at: Location, node: Node)
    requires Legal(node)
    ensures Ascending(Visit(s, at, node).notes)
    decreases node, 1, 0
  {
    if Opens(s, at, node) {
      var cs := Ordered(node.listing);
      OrderedIsLegal(node);
      WalkAllAscends(s, at, cs, node);
      ChildNotesLieBelow(s, at, cs, node);
      var own, inside := [Branch(at, node.mode)], VisitAll(s, at, cs, node).notes;
      forall n | n in inside ensures Before(at, n.at) { BeforeByPrefix(at, n.at); }
      hide VisitAll, Before, Ordered;
      AscendingJoins(own, inside);
    }
  }

  lemma {:induction false} WalkAllAscends(s: Settings, at: Location, cs: seq<Child>, parent: Node)
    requires Of(cs, parent) && LegalAll(cs)
    ensures Ascending(VisitAll(s, at, cs, parent).notes)
    decreases parent, 0, |cs|
  {
    hide Visit, Before, Less, Has, LegalAll, Legal;
    if cs != [] {
      FirstIsListed(cs, parent);
      LegalRest(cs);
      WalkAscends(s, at + [cs[0].name], cs[0].node);
      WalkAllAscends(s, at, cs[1..], parent);
      NotesLieBelow(s, at + [cs[0].name], cs[0].node);
      ChildNotesLieBelow(s, at, cs[1..], parent);
      LegalTail(cs);
      var own, rest := Visit(s, at + [cs[0].name], cs[0].node).notes, VisitAll(s, at, cs[1..], parent).notes;
      forall m, n | m in own && n in rest ensures Before(m.at, n.at) {
        BeforeByName(at, cs[0].name, n.at[|at|], m.at, n.at);
      }
      AscendingJoins(own, rest);
    }
  }

  // --------------------------------------------------------------------------------------------
  // From notes to bytes
  // --------------------------------------------------------------------------------------------

  predicate LegalNote(n: Note) {
    n.at != [] && LegalPath(n.at) && (n.Leaf? ==> |n.digest| == 32)
  }

  lemma {:induction false} JoinKeepsNulOut(at: Location)
    requires LegalPath(at)
    ensures NulFree(Paths.Join(at, SLASH))
  {
    if at != [] {
      assert LegalName(at[0]);
      JoinKeepsNulOut(at[1..]);
    }
  }

  lemma RecordsDetermine(a: seq<Note>, b: seq<Note>)
    requires (forall n :: n in a ==> LegalNote(n)) && (forall n :: n in b ==> LegalNote(n))
    requires StreamOf(a) == StreamOf(b)
    ensures a == b
  {
    var x, y := Records(a), Records(b);
    LegalNotesAreValid(a);
    LegalNotesAreValid(b);
    ManagedStreamsDetermine(x, y);
    hide LegalNote;
    forall i | 0 <= i < |a| ensures a[i] == b[i] {
      assert x[i] == y[i];
      assert a[i] in a && b[i] in b;
      RecordDetermines(a[i], b[i]);
    }
  }

  lemma LegalNotesAreValid(a: seq<Note>)
    requires forall n :: n in a ==> LegalNote(n)
    ensures forall r :: r in Records(a) ==> ValidRecord(r)
  {
    forall i | 0 <= i < |a| ensures ValidRecord(Records(a)[i]) {
      assert a[i] in a;
      JoinKeepsNulOut(a[i].at);
    }
  }

  lemma RecordDetermines(m: Note, n: Note)
    requires LegalNote(m) && LegalNote(n) && RecordOf(m) == RecordOf(n)
    ensures m == n
  {
    forall i | 0 <= i < |m.at| ensures SLASH !in m.at[i] { assert LegalName(m.at[i]); }
    forall i | 0 <= i < |n.at| ensures SLASH !in n.at[i] { assert LegalName(n.at[i]); }
    Paths.SplitJoins(m.at, SLASH);
    Paths.SplitJoins(n.at, SLASH);
  }

  lemma {:induction false} VisitNotesAreLegal(s: Settings, at: Location, node: Node)
    requires Legal(node) && at != [] && LegalPath(at) && forall d :: |s.hash(d)| == 32
    ensures forall n :: n in Visit(s, at, node).notes ==> LegalNote(n)
    decreases node, 1, 0
  {
    if Opens(s, at, node) {
      OrderedIsLegal(node);
      AllNotesAreLegal(s, at, Ordered(node.listing), node);
    }
  }

  lemma {:induction false} AllNotesAreLegal(s: Settings, at: Location, cs: seq<Child>, parent: Node)
    requires Of(cs, parent) && LegalAll(cs) && at != [] && LegalPath(at) && forall d :: |s.hash(d)| == 32
    ensures forall n :: n in VisitAll(s, at, cs, parent).notes ==> LegalNote(n)
    decreases parent, 0, |cs|
  {
    hide Visit, LegalNote;
    if cs != [] {
      FirstIsListed(cs, parent);
      LegalRest(cs);
      VisitNotesAreLegal(s, at + [cs[0].name], cs[0].node);
      AllNotesAreLegal(s, at, cs[1..], parent);
    }
  }

  // --------------------------------------------------------------------------------------------
  // Main results
  // --------------------------------------------------------------------------------------------

  /** Roots at places of which none contains another. */
  predicate Apart(roots: seq<Pending>) {
    && (forall i :: 0 <= i < |roots| ==> roots[i].at != [] && LegalPath(roots[i].at) && Legal(roots[i].node))
    && (forall i, j :: 0 <= i < j < |roots| ==> !(roots[i].at <= roots[j].at) && !(roots[j].at <= roots[i].at))
  }

  predicate SamePlaces(a: seq<Pending>, b: seq<Pending>) {
    |a| == |b| && forall i :: 0 <= i < |a| ==> a[i].at == b[i].at
  }

  ghost predicate SameRoots(s: Settings, a: seq<Pending>, b: seq<Pending>) {
    |a| == |b| && forall i :: 0 <= i < |a| ==> Same(s, a[i].at, a[i].node, b[i].node)
  }

  lemma {:induction false} RootNotesLieBelow(s: Settings, roots: seq<Pending>)
    ensures forall n :: n in VisitRoots(s, roots).notes ==> exists i :: 0 <= i < |roots| && roots[i].at <= n.at
  {
    hide Visit;
    if roots != [] {
      NotesLieBelow(s, roots[0].at, roots[0].node);
      RootNotesLieBelow(s, roots[1..]);
      forall n | n in VisitRoots(s, roots).notes ensures exists i :: 0 <= i < |roots| && roots[i].at <= n.at {
        if n in VisitRoots(s, roots[1..]).notes {
          var i :| 0 <= i < |roots[1..]| && roots[1..][i].at <= n.at;
          assert roots[i + 1].at <= n.at;
        }
      }
    }
  }

  lemma ComparablePrefixes(p: Location, q: Location, r: Location)
    ensures p <= r && q <= r ==> p <= q || q <= p
  {
    if p <= r && q <= r {
      assert p == r[..|p|] && q == r[..|q|];
    }
  }

  lemma LaterRootsLieElsewhere(s: Settings, roots: seq<Pending>)
    requires Apart(roots) && roots != []
    ensures Apart(roots[1..])
    ensures forall n :: n in VisitRoots(s, roots[1..]).notes ==> !(roots[0].at <= n.at)
  {
    hide Legal, LegalPath;
    RootNotesLieBelow(s, roots[1..]);
    hide VisitRoots;
    forall n | n in VisitRoots(s, roots[1..]).notes ensures !(roots[0].at <= n.at) {
      var i :| 0 <= i < |roots[1..]| && roots[1..][i].at <= n.at;
      assert roots[1..][i] == roots[i + 1];
      ComparablePrefixes(roots[0].at, roots[i + 1].at, n.at);
    }
  }

  lemma {:induction false} RootsDetermine(s: Settings, a: seq<Pending>, b: seq<Pending>)
    requires Apart(a) && Apart(b) && SamePlaces(a, b) && VisitRoots(s, a).fit && VisitRoots(s, b).fit
    ensures VisitRoots(s, a).notes == VisitRoots(s, b).notes <==> SameRoots(s, a, b)
  {
    if a != [] {
      NodesDetermine(s, a[0].at, a[0].node, b[0].node);
      NotesLieBelow(s, a[0].at, a[0].node);
      NotesLieBelow(s, b[0].at, b[0].node);
      LaterRootsLieElsewhere(s, a);
      LaterRootsLieElsewhere(s, b);
      RootsDetermine(s, a[1..], b[1..]);
      hide Visit, Same, Apart;
      var u, x := Visit(s, a[0].at, a[0].node).notes, VisitRoots(s, a[1..]).notes;
      var v, y := Visit(s, b[0].at, b[0].node).notes, VisitRoots(s, b[1..]).notes;
      if u + x == v + y { NotesCut(a[0].at, u, x, v, y); }
      assert SameRoots(s, a, b) <==> Same(s, a[0].at, a[0].node, b[0].node) && SameRoots(s, a[1..], b[1..]) by {
        assert forall i :: 0 < i < |a| ==> a[i] == a[1..][i - 1] && b[i] == b[1..][i - 1];
      }
    }
  }

  lemma {:induction false} RootNotesAreLegal(s: Settings, roots: seq<Pending>)
    requires Apart(roots) && forall d :: |s.hash(d)| == 32
    ensures forall n :: n in VisitRoots(s, roots).notes ==> LegalNote(n)
  {
    hide Visit, LegalNote;
    if roots != [] {
      LaterRootsLieElsewhere(s, roots);
      VisitNotesAreLegal(s, roots[0].at, roots[0].node);
      RootNotesAreLegal(s, roots[1..]);
    }
  }

  /** Two trees feed their digest the same bytes exactly when they show the same visible names, kinds,
      modes and content digests, whatever order their directories were listed in. */
  lemma StreamsIdentifyTrees(s: Settings, a: seq<Pending>, b: seq<Pending>)
    requires Apart(a) && Apart(b) && SamePlaces(a, b) && VisitRoots(s, a).fit && VisitRoots(s, b).fit
    requires forall d :: |s.hash(d)| == 32
    ensures StreamOf(VisitRoots(s, a).notes) == StreamOf(VisitRoots(s, b).notes) <==> SameRoots(s, a, b)
  {
    RootNotesAreLegal(s, a);
    RootNotesAreLegal(s, b);
    RootsDetermine(s, a, b);
    hide StreamOf, VisitRoots, LegalNote, SameRoots;
    if StreamOf(VisitRoots(s, a).notes) == StreamOf(VisitRoots(s, b).notes) {
      RecordsDetermine(VisitRoots(s, a).notes, VisitRoots(s, b).notes);
    }
  }
}
