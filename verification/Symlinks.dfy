/** Symbolic links of a source tree: lexical resolution, and the check that every chain of links ends. */
module Symlinks {
  import opened Prelude
  import Paths

  type Path = seq<string>

  const MAX_TARGET := 100
  const MAX_COMPONENT := 100
  const VCS := {".git", ".hg", ".svn"}

  function Utf8Size(s: string): nat {
    if s == [] then 0
    else
      var c := s[0] as int;
      (if c < 0x80 then 1 else if c < 0x800 then 2 else if c < 0x10000 then 3 else 4) + Utf8Size(s[1..])
  }

  // --------------------------------------------------------------------------------------------
  // Lexical resolution
  // --------------------------------------------------------------------------------------------

  predicate Skipped(c: string) { c == "" || c == "." }

  predicate Allowed(c: string) { c !in VCS && 0 < Utf8Size(c) <= MAX_COMPONENT }

  /** Where a list of components leads from a directory, unless it leaves the root or names what it must not. */
  function Walk(from: Path, components: seq<string>): Option<Path>
    decreases |components|
  {
    if components == [] then Some(from)
    else
      var c, rest := components[0], components[1..];
      if Skipped(c) then Walk(from, rest)
      else if c == ".." then if from == [] then None else Walk(from[..|from| - 1], rest)
      else if !Allowed(c) then None
      else Walk(from + [c], rest)
  }

  /** How far below the starting directory some components lead, going up counted as negative. */
  function Depth(components: seq<string>): int {
    if components == [] then 0
    else
      var n := |components| - 1;
      Depth(components[..n]) + (if Skipped(components[n]) then 0 else if components[n] == ".." then -1 else 1)
  }

  /** Steps taken one after the other are one walk. */
  lemma {:induction false} WalkComposes(from: Path, a: seq<string>, b: seq<string>)
    ensures Walk(from, a + b) == match Walk(from, a) case Some(there) => Walk(there, b) case None => None
    decreases |a|
  {
    hide Allowed;
    if a == [] {
      assert a + b == b;
    } else {
      assert (a + b)[1..] == a[1..] + b && (a + b)[0] == a[0];
      if Skipped(a[0]) { WalkComposes(from, a[1..], b); }
      else if a[0] == ".." { if from != [] { WalkComposes(from[..|from| - 1], a[1..], b); } }
      else { WalkComposes(from + [a[0]], a[1..], b); }
    }
  }

  /** Which names a walk passes over, and which it takes. */
  lemma NamesTell(c: string)
    ensures Skipped(c) || c == ".." || Allowed(c) <==>
      c in {"", ".", ".."} || (c !in {".git", ".hg", ".svn"} && Utf8Size(c) <= 100)
  {
    if c != "" { assert Utf8Size(c) > 0; }
  }

  /** Bytes in UTF-8. */
  lemma {:induction false} Utf8SizeTells(s: string, c: char)
    ensures Utf8Size("") == 0
    ensures Utf8Size(s + [c]) == Utf8Size(s)
      + if c <= '\U{7f}' then 1 else if c <= '\U{7ff}' then 2 else if c <= '\U{ffff}' then 3 else 4
  {
    if s == "" {
      assert s + [c] == [c] && [c][1..] == "";
    } else {
      assert (s + [c])[1..] == s[1..] + [c];
      Utf8SizeTells(s[1..], c);
    }
  }

  lemma LastStep(there: Path, c: string)
    ensures Walk(there, [c]) ==
      if Skipped(c) then Some(there)
      else if c == ".." then if there == [] then None else Some(there[..|there| - 1])
      else if !Allowed(c) then None else Some(there + [c])
  {
    hide Allowed, Skipped;
    assert [c][1..] == [];
  }

  lemma DepthStep(components: seq<string>, n: nat)
    requires n < |components|
    ensures Depth(components[..n + 1]) == Depth(components[..n]) +
      (if Skipped(components[n]) then 0 else if components[n] == ".." then -1 else 1)
  {
    hide Skipped;
    assert components[..n + 1][..n] == components[..n];
  }

  lemma {:induction false} WalkSucceeds(from: Path, components: seq<string>, n: nat)
    requires n <= |components|
    ensures Walk(from, components[..n]).Some? <==>
      && (forall k :: 0 <= k <= n ==> |from| + Depth(components[..k]) >= 0)
      && (forall k :: 0 <= k < n ==> Skipped(components[k]) || components[k] == ".." || Allowed(components[k]))
    ensures Walk(from, components[..n]).Some? ==> |Walk(from, components[..n]).value| == |from| + Depth(components[..n])
  {
    assert Walk(from, []) == Some(from) && Depth([]) == 0;
    hide Walk, Allowed, Skipped, Depth;
    if n == 0 {
      assert components[..0] == [];
    } else {
      WalkSucceeds(from, components, n - 1);
      assert components[..n - 1] + [components[n - 1]] == components[..n];
      WalkComposes(from, components[..n - 1], [components[n - 1]]);
      DepthStep(components, n - 1);
      if Walk(from, components[..n - 1]).Some? {
        LastStep(Walk(from, components[..n - 1]).value, components[n - 1]);
      }
    }
  }

  /** A walk succeeds exactly when it never climbs above the root and names only what is allowed;
      it ends as deep as its steps add up to. */
  lemma WalkStaysInside(from: Path, components: seq<string>)
    ensures Walk(from, components).Some? <==>
      && (forall k :: 0 <= k <= |components| ==> |from| + Depth(components[..k]) >= 0)
      && (forall k :: 0 <= k < |components| ==>
          || components[k] in {"", ".", ".."}
          || (components[k] !in {".git", ".hg", ".svn"} && Utf8Size(components[k]) <= 100))
    ensures Walk(from, components).Some? ==> |Walk(from, components).value| == |from| + Depth(components)
  {
    WalkSucceeds(from, components, |components|);
    assert components[..|components|] == components;
    hide Walk, Allowed, Skipped, Depth, Utf8Size;
    forall k | 0 <= k < |components| { NamesTell(components[k]); }
  }

  predicate Proper(p: Path) {
    forall i :: 0 <= i < |p| ==> p[i] != "" && p[i] != "." && p[i] != ".."
  }

  /** Where a walk leads is named without any step left to take. */
  lemma {:induction false} WalkNormalises(from: Path, components: seq<string>)
    requires Proper(from) && Walk(from, components).Some?
    ensures Proper(Walk(from, components).value)
    decreases |components|
  {
    hide Allowed;
    if components != [] {
      var c, rest := components[0], components[1..];
      if Skipped(c) { WalkNormalises(from, rest); }
      else if c == ".." { WalkNormalises(from[..|from| - 1], rest); }
      else { WalkNormalises(from + [c], rest); }
    }
  }

  // --------------------------------------------------------------------------------------------
  // Targets
  // --------------------------------------------------------------------------------------------

  /** A file or a link; the text of a link's target is missing when its bytes are no text the
      repository permits: bad UTF-8, not in normal form, or with control characters. */
  datatype Entry = Entry(path: Path, link: bool, text: Option<string>)

  predicate Relative(text: string) {
    0 < Utf8Size(text) <= MAX_TARGET && '\0' !in text && '\\' !in text && text[..1] != "/"
  }

  function Target(e: Entry): Option<Path> {
    if e.path == [] || e.text.None? || !Relative(e.text.value) then None
    else
      match Walk(e.path[..|e.path| - 1], Paths.Split(e.text.value, '/'))
      case Some(p) => if p == [] then None else Some(p)
      case None => None
  }

  /** A target is a relative text of at most 100 bytes without NUL and backslash whose walk from the link's
      directory stays inside and ends below the root. */
  lemma TargetTells(e: Entry)
    ensures Target(e).Some? <==>
      && e.path != [] && e.text.Some?
      && 0 < Utf8Size(e.text.value) <= 100 && '\0' !in e.text.value && '\\' !in e.text.value
      && (e.text.value != "" ==> e.text.value[0] != '/')
      && Walk(e.path[..|e.path| - 1], Paths.Split(e.text.value, '/')).Some?
      && Walk(e.path[..|e.path| - 1], Paths.Split(e.text.value, '/')).value != []
    ensures Target(e).Some? ==> Target(e) == Walk(e.path[..|e.path| - 1], Paths.Split(e.text.value, '/'))
  {
    hide Walk;
    assert e.text.Some? && e.text.value != "" ==> e.text.value[..1] == [e.text.value[0]];
  }

  method ResolvedLinkTarget(e: Entry) returns (r: Option<Path>)
    requires e.path != []
    ensures r == Target(e)
  {
    hide Allowed, Relative;
    if e.text.None? || !Relative(e.text.value) { return None; }
    var resolved := e.path[..|e.path| - 1];
    var components := Paths.Split(e.text.value, '/');
    var i := 0;
    while i < |components|
      invariant 0 <= i <= |components|
      invariant Walk(e.path[..|e.path| - 1], components) == Walk(resolved, components[i..])
    {
      var c := components[i];
      assert components[i..][1..] == components[i + 1..];
      if Skipped(c) {
      } else if c == ".." {
        if resolved == [] { return None; }
        resolved := resolved[..|resolved| - 1];
      } else {
        if !Allowed(c) { return None; }
        resolved := resolved + [c];
      }
      i := i + 1;
    }
    assert components[i..] == [];
    return if resolved == [] then None else Some(resolved);
  }

  // --------------------------------------------------------------------------------------------
  // What the check promises
  // --------------------------------------------------------------------------------------------

  /** No path occurs twice and none lies below another. */
  predicate TreeShaped(tree: multiset<Entry>) {
    && (forall e | e in tree :: tree[e] == 1 && e.path != [])
    && (forall e, f | e in tree && f in tree && e != f :: !(e.path <= f.path))
  }

  predicate IsDirectory(tree: multiset<Entry>, p: Path) {
    p != [] && exists e | e in tree :: p < e.path
  }

  predicate IsFile(tree: multiset<Entry>, p: Path) {
    exists e | e in tree :: e.path == p && !e.link
  }

  /** A link from one path to another. */
  predicate Leads(tree: multiset<Entry>, p: Path, q: Path) {
    exists e | e in tree :: e.link && e.path == p && Target(e) == Some(q)
  }

  /** After this many links the path has reached a recorded file or directory. */
  ghost predicate Ends(tree: multiset<Entry>, p: Path, hops: nat)
    decreases hops
  {
    if hops == 0 then IsDirectory(tree, p) || IsFile(tree, p)
    else exists q :: Leads(tree, p, q) && Ends(tree, q, hops - 1)
  }

  ghost predicate Sound(tree: multiset<Entry>) {
    && TreeShaped(tree)
    && (forall e | e in tree && e.link :: Target(e).Some? && Ending(tree, e.path))
  }

  ghost predicate Ending(tree: multiset<Entry>, p: Path) {
    exists hops: nat :: Ends(tree, p, hops)
  }

  /** A chain is over at a directory or a file of the tree, and otherwise goes on at the target of a link. */
  lemma EndsTell(tree: multiset<Entry>, p: Path, hops: nat)
    ensures Ends(tree, p, 0) <==>
      || (p != [] && exists e :: e in tree && p <= e.path && p != e.path)
      || (exists e :: e in tree && e.path == p && !e.link)
    ensures Ends(tree, p, hops + 1) <==>
      exists e :: e in tree && e.link && e.path == p && Target(e).Some? && Ends(tree, Target(e).value, hops)
  {
    hide Target;
    if Ends(tree, p, hops + 1) {
      var q :| Leads(tree, p, q) && Ends(tree, q, hops);
    }
    if e :| e in tree && e.link && e.path == p && Target(e).Some? && Ends(tree, Target(e).value, hops) {
      assert Leads(tree, p, Target(e).value);
    }
  }

  lemma ShapeTells(tree: multiset<Entry>)
    ensures TreeShaped(tree) <==>
      && (forall e :: e in tree ==> tree[e] == 1 && e.path != [])
      && (forall e, f :: e in tree && f in tree && e != f ==> !(|e.path| <= |f.path| && e.path == f.path[..|e.path|]))
  {
    forall e, f | e in tree && f in tree
      ensures e.path <= f.path <==> |e.path| <= |f.path| && e.path == f.path[..|e.path|] {}
  }

  lemma SoundTells(tree: multiset<Entry>)
    ensures Sound(tree) <==>
      && (forall e :: e in tree ==> tree[e] == 1 && e.path != [])
      && (forall e, f :: e in tree && f in tree && e != f ==> !(|e.path| <= |f.path| && e.path == f.path[..|e.path|]))
      && (forall e :: e in tree && e.link ==> Target(e).Some? && Ending(tree, e.path))
  {
    ShapeTells(tree);
    hide Target, TreeShaped, Ending;
  }

  // --------------------------------------------------------------------------------------------
  // The tables the check works on
  // --------------------------------------------------------------------------------------------

  datatype Kind = Directory | File | Symlink

  predicate TreeList(entries: seq<Entry>) {
    && (forall i :: 0 <= i < |entries| ==> entries[i].path != [])
    && (forall i, j :: 0 <= i < |entries| && 0 <= j < |entries| && i != j ==> !(entries[i].path <= entries[j].path))
  }

  lemma InTree(entries: seq<Entry>, i: nat)
    requires i < |entries|
    ensures entries[i] in multiset(entries)
  {
  }

  function IndexOf(entries: seq<Entry>, e: Entry): (i: nat)
    requires e in multiset(entries)
    ensures i < |entries| && entries[i] == e
  {
    if entries[0] == e then 0
    else
      assert entries == [entries[0]] + entries[1..];
      1 + IndexOf(entries[1..], e)
  }

  lemma {:induction false} OnceOnly(entries: seq<Entry>, e: Entry)
    requires e in multiset(entries)
    requires forall i, j :: 0 <= i < j < |entries| ==> entries[i] != entries[j]
    ensures multiset(entries)[e] == 1
  {
    assert entries == [entries[0]] + entries[1..];
    if entries[0] == e {
      forall k | 0 <= k < |entries[1..]| ensures entries[1..][k] != e {}
    } else {
      OnceOnly(entries[1..], e);
    }
  }

  lemma {:induction false} TwiceCounts(entries: seq<Entry>, i: nat, j: nat)
    requires i < j < |entries| && entries[i] == entries[j]
    ensures multiset(entries)[entries[i]] >= 2
  {
    assert entries == entries[..j] + [entries[j]] + entries[j + 1..];
    assert entries[i] == entries[..j][i];
    assert entries[i] in multiset(entries[..j]);
  }

  /** The tree property of a list does not depend on its order. */
  lemma TreeListIsTree(entries: seq<Entry>)
    ensures TreeList(entries) <==> TreeShaped(multiset(entries))
  {
    var tree := multiset(entries);
    if TreeList(entries) {
      forall e | e in tree ensures tree[e] == 1 && e.path != [] {
        var i := IndexOf(entries, e);
        OnceOnly(entries, e);
      }
      forall e, f | e in tree && f in tree && e != f ensures !(e.path <= f.path) {
        var i, j := IndexOf(entries, e), IndexOf(entries, f);
        assert i != j;
      }
    }
    if TreeShaped(tree) {
      forall i, j | 0 <= i < |entries| && 0 <= j < |entries| && i != j ensures !(entries[i].path <= entries[j].path) {
        InTree(entries, i);
        InTree(entries, j);
        if entries[i] == entries[j] {
          if i < j { TwiceCounts(entries, i, j); } else { TwiceCounts(entries, j, i); }
        }
      }
      forall i | 0 <= i < |entries| ensures entries[i].path != [] { InTree(entries, i); }
    }
  }

  predicate Above(entries: seq<Entry>, p: Path) {
    p != [] && exists j :: 0 <= j < |entries| && p < entries[j].path
  }

  predicate At(entries: seq<Entry>, p: Path) {
    exists j :: 0 <= j < |entries| && p == entries[j].path
  }

  /** The table of kinds: what lies above a path is a directory, the paths are files or links. */
  ghost predicate KindsOf(kinds: map<Path, Kind>, entries: seq<Entry>) {
    && (forall p :: Above(entries, p) <==> p in kinds && kinds[p] == Directory)
    && (forall p :: At(entries, p) <==> p in kinds && kinds[p] != Directory)
    && (forall j :: 0 <= j < |entries| ==> entries[j].path in kinds)
    && (forall j :: 0 <= j < |entries| ==> kinds[entries[j].path] == if entries[j].link then Symlink else File)
  }

  function Prefixes(path: Path): set<Path> {
    set k | 1 <= k < |path| :: path[..k]
  }

  lemma PrefixesMeaning(path: Path)
    ensures forall p :: p in Prefixes(path) <==> p != [] && p < path
  {
    forall p | p != [] && p < path ensures p in Prefixes(path) { assert p == path[..|p|]; }
  }

  /** Records the directories above a path; false when one is known as something else. */
  method RecordParents(kinds: map<Path, Kind>, path: Path) returns (r: map<Path, Kind>, ok: bool)
    requires path != []
    ensures ok <==> forall p :: p in Prefixes(path) && p in kinds ==> kinds[p] == Directory
    ensures ok ==> r == map p | p in kinds.Keys + Prefixes(path) :: if p in kinds then kinds[p] else Directory
  {
    r := kinds;
    var index := 1;
    while index < |path|
      invariant 1 <= index <= |path|
      invariant forall k :: 1 <= k < index ==> path[..k] in r && r[path[..k]] == Directory
      invariant forall p :: p in r ==> p in kinds || p in Prefixes(path)
      invariant forall p :: p in kinds ==> p in r && r[p] == kinds[p]
      invariant forall p :: p in r && p !in kinds ==> r[p] == Directory
    {
      var directory := path[..index];
      assert directory in Prefixes(path);
      if directory !in r { r := r[directory := Directory]; }
      if r[directory] != Directory { return r, false; }
      index := index + 1;
    }
    return r, true;
  }

  lemma AboveGrows(entries: seq<Entry>, e: Entry, p: Path)
    ensures Above(entries + [e], p) <==> Above(entries, p) || p in Prefixes(e.path)
  {
    var longer := entries + [e];
    PrefixesMeaning(e.path);
    if Above(entries, p) {
      var j :| 0 <= j < |entries| && p < entries[j].path;
      assert longer[j] == entries[j];
    }
    if p in Prefixes(e.path) { assert p < longer[|entries|].path; }
  }

  lemma AtGrows(entries: seq<Entry>, e: Entry, p: Path)
    ensures At(entries + [e], p) <==> At(entries, p) || p == e.path
  {
    var longer := entries + [e];
    if At(entries, p) {
      var j :| 0 <= j < |entries| && p == entries[j].path;
      assert longer[j] == entries[j];
    }
    if p == e.path { assert p == longer[|entries|].path; }
  }

  lemma KindsGrow(entries: seq<Entry>, e: Entry, kinds: map<Path, Kind>, more: map<Path, Kind>)
    requires KindsOf(kinds, entries) && e.path != [] && e.path !in more
    requires forall p :: p in Prefixes(e.path) && p in kinds ==> kinds[p] == Directory
    requires more == map p | p in kinds.Keys + Prefixes(e.path) :: if p in kinds then kinds[p] else Directory
    ensures KindsOf(more[e.path := if e.link then Symlink else File], entries + [e])
  {
    hide Above, At, Prefixes;
    var longer, final := entries + [e], more[e.path := if e.link then Symlink else File];
    PrefixesMeaning(e.path);
    forall p ensures Above(longer, p) <==> Above(entries, p) || p in Prefixes(e.path) { AboveGrows(entries, e, p); }
    forall p ensures At(longer, p) <==> At(entries, p) || p == e.path { AtGrows(entries, e, p); }
    forall p ensures Above(longer, p) <==> p in final && final[p] == Directory {}
    forall p ensures At(longer, p) <==> p in final && final[p] != Directory {}
  }

  lemma TreeGrows(entries: seq<Entry>, e: Entry, kinds: map<Path, Kind>)
    requires KindsOf(kinds, entries) && TreeList(entries) && e.path != []
    ensures TreeList(entries + [e]) <==>
      && (forall p :: p in Prefixes(e.path) && p in kinds ==> kinds[p] == Directory)
      && e.path !in kinds
  {
    var longer := entries + [e];
    PrefixesMeaning(e.path);
    if TreeList(longer) {
      forall j | 0 <= j < |entries| ensures !(entries[j].path <= e.path) && !(e.path <= entries[j].path) {
        assert longer[j] == entries[j] && longer[|entries|] == e;
      }
      assert !At(entries, e.path) && !Above(entries, e.path);
      forall p | p in Prefixes(e.path) ensures !At(entries, p) {}
    } else if (forall p :: p in Prefixes(e.path) && p in kinds ==> kinds[p] == Directory) && e.path !in kinds {
      forall j | 0 <= j < |entries| ensures !(entries[j].path <= e.path) && !(e.path <= entries[j].path) {
        assert At(entries, entries[j].path);
        assert e.path < entries[j].path ==> Above(entries, e.path);
      }
    }
  }

  method RecordKinds(entries: seq<Entry>) returns (kinds: map<Path, Kind>, ok: bool)
    requires forall i :: 0 <= i < |entries| ==> entries[i].path != []
    ensures ok <==> TreeList(entries)
    ensures ok ==> KindsOf(kinds, entries)
  {
    hide KindsOf, Prefixes;
    kinds := map[];
    assert KindsOf(kinds, []) by { NoKinds(); }
    var i := 0;
    while i < |entries|
      invariant 0 <= i <= |entries| && TreeList(entries[..i]) && KindsOf(kinds, entries[..i])
    {
      var e := entries[i];
      TreeGrows(entries[..i], e, kinds);
      assert entries[..i + 1] == entries[..i] + [e];
      PrefixesMeaning(e.path);
      var more, known := RecordParents(kinds, e.path);
      if !known || e.path in more {
        TreeIsHereditary(entries, i + 1);
        return more, false;
      }
      KindsGrow(entries[..i], e, kinds, more);
      kinds := more[e.path := if e.link then Symlink else File];
      i := i + 1;
    }
    assert entries[..i] == entries;
    ok := true;
  }

  lemma NoKinds()
    ensures KindsOf(map[], [])
  {
  }

  lemma TreeIsHereditary(entries: seq<Entry>, n: nat)
    requires n <= |entries|
    ensures TreeList(entries) ==> TreeList(entries[..n])
  {
  }

  // --------------------------------------------------------------------------------------------
  // Following links
  // --------------------------------------------------------------------------------------------

  ghost predicate LinksOf(links: map<Path, Path>, entries: seq<Entry>) {
    forall p, q :: p in links && links[p] == q <==> Leads(multiset(entries), p, q)
  }

  /** Chains in the tables are chains of the tree. */
  ghost predicate Follows(kinds: map<Path, Kind>, links: map<Path, Path>, p: Path, hops: nat)
    decreases hops
  {
    if hops == 0 then p in kinds && kinds[p] != Symlink
    else p in links && Follows(kinds, links, links[p], hops - 1)
  }

  lemma {:induction false} FollowsIsEnds(entries: seq<Entry>, kinds: map<Path, Kind>, links: map<Path, Path>, p: Path, hops: nat)
    requires TreeList(entries) && KindsOf(kinds, entries) && LinksOf(links, entries)
    ensures Follows(kinds, links, p, hops) <==> Ends(multiset(entries), p, hops)
    decreases hops
  {
    var tree := multiset(entries);
    if hops == 0 {
      KindsTell(entries, kinds, p);
    } else {
      hide KindsOf;
      if p in links {
        FollowsIsEnds(entries, kinds, links, links[p], hops - 1);
        assert Leads(tree, p, links[p]);
      }
      if Ends(tree, p, hops) {
        var q :| Leads(tree, p, q) && Ends(tree, q, hops - 1);
        assert p in links && links[p] == q;
      }
    }
  }

  lemma KindsTell(entries: seq<Entry>, kinds: map<Path, Kind>, p: Path)
    requires TreeList(entries) && KindsOf(kinds, entries)
    ensures (p in kinds && kinds[p] != Symlink) <==> IsDirectory(multiset(entries), p) || IsFile(multiset(entries), p)
    ensures (p in kinds && kinds[p] == Symlink) <==> exists e | e in multiset(entries) :: e.link && e.path == p
  {
    var tree := multiset(entries);
    if Above(entries, p) {
      var j :| 0 <= j < |entries| && p < entries[j].path;
      InTree(entries, j);
    }
    if At(entries, p) {
      var j :| 0 <= j < |entries| && p == entries[j].path;
      InTree(entries, j);
      assert kinds[entries[j].path] == if entries[j].link then Symlink else File;
    }
    if IsDirectory(tree, p) {
      var e :| e in tree && p < e.path;
      var j := IndexOf(entries, e);
      assert Above(entries, p);
    }
    forall e | e in tree && e.path == p ensures p in kinds && kinds[p] == if e.link then Symlink else File {
      var j := IndexOf(entries, e);
      assert entries[j].path in kinds;
    }
  }

  ghost predicate Stops(kinds: map<Path, Kind>, links: map<Path, Path>, p: Path) {
    exists hops: nat :: Follows(kinds, links, p, hops)
  }

  /** A link stops where what it leads to stops. */
  lemma LinkStops(kinds: map<Path, Kind>, links: map<Path, Path>, p: Path)
    requires p in links && p in kinds && kinds[p] == Symlink
    ensures Stops(kinds, links, p) <==> Stops(kinds, links, links[p])
  {
    if Stops(kinds, links, p) {
      var hops: nat :| Follows(kinds, links, p, hops);
      assert Follows(kinds, links, links[p], hops - 1);
    }
    if Stops(kinds, links, links[p]) {
      var hops: nat :| Follows(kinds, links, links[p], hops);
      assert Follows(kinds, links, p, hops + 1);
    }
  }

  /** Inside a set of links that lead to one another nothing stops. */
  lemma {:induction false} LoopsNeverStop(
      kinds: map<Path, Kind>, links: map<Path, Path>, loop: set<Path>, p: Path, hops: nat)
    requires p in loop
    requires forall q :: q in loop ==> q in links && links[q] in loop && q in kinds && kinds[q] == Symlink
    ensures !Follows(kinds, links, p, hops)
    decreases hops
  {
    if hops > 0 { LoopsNeverStop(kinds, links, loop, links[p], hops - 1); }
  }

  /** Follows one link to its end. */
  method FollowChain(kinds: map<Path, Kind>, links: map<Path, Path>, name: Path) returns (ok: bool)
    requires name in links
    requires forall p :: p in links <==> p in kinds && kinds[p] == Symlink
    ensures ok <==> Stops(kinds, links, name)
  {
    hide Follows;
    var destination := links[name];
    LinkStops(kinds, links, name);
    if destination !in kinds {
      DanglesNeverStop(kinds, links, destination);
      return false;
    }
    var seen := {name};
    var current := destination;
    while kinds[current] == Symlink
      invariant current in kinds && seen <= links.Keys && name in seen
      invariant forall q :: q in seen ==> links[q] in seen || links[q] == current
      invariant Stops(kinds, links, name) <==> Stops(kinds, links, current)
      decreases |links.Keys - seen|
    {
      if current in seen {
        forall n: nat ensures !Follows(kinds, links, name, n) { LoopsNeverStop(kinds, links, seen, name, n); }
        return false;
      }
      LinkStops(kinds, links, current);
      assert links.Keys - (seen + {current}) < links.Keys - seen by { assert current in links.Keys - seen; }
      SmallerSet(links.Keys - (seen + {current}), links.Keys - seen);
      seen := seen + {current};
      current := links[current];
      if current !in kinds {
        DanglesNeverStop(kinds, links, current);
        return false;
      }
    }
    EndsHere(kinds, links, current);
    return true;
  }

  lemma {:induction false} SmallerSet<T>(a: set<T>, b: set<T>)
    requires a < b
    ensures |a| < |b|
  {
    var x :| x in b && x !in a;
    SubsetSize(a, b - {x});
  }

  lemma {:induction false} SubsetSize<T>(a: set<T>, b: set<T>)
    requires a <= b
    ensures |a| <= |b|
  {
    if a != {} {
      var x :| x in a;
      SubsetSize(a - {x}, b - {x});
    }
  }

  lemma EndsHere(kinds: map<Path, Kind>, links: map<Path, Path>, p: Path)
    requires p in kinds && kinds[p] != Symlink
    ensures Stops(kinds, links, p)
  {
    assert Follows(kinds, links, p, 0);
  }

  lemma DanglesNeverStop(kinds: map<Path, Kind>, links: map<Path, Path>, p: Path)
    requires p !in kinds && p !in links
    ensures !Stops(kinds, links, p)
  {
  }

  // --------------------------------------------------------------------------------------------
  // The whole check
  // --------------------------------------------------------------------------------------------

  lemma LinksGrow(entries: seq<Entry>, i: nat, p: Path, q: Path)
    requires i < |entries|
    ensures Leads(multiset(entries[..i + 1]), p, q) <==>
      Leads(multiset(entries[..i]), p, q)
      || (entries[i].link && entries[i].path == p && Target(entries[i]) == Some(q))
  {
    hide Target;
    assert entries[..i + 1] == entries[..i] + [entries[i]];
  }

  lemma LinkAdded(entries: seq<Entry>, i: nat, links: map<Path, Path>)
    requires i < |entries| && LinksOf(links, entries[..i])
    requires entries[i].link && entries[i].path !in links && Target(entries[i]).Some?
    ensures LinksOf(links[entries[i].path := Target(entries[i]).value], entries[..i + 1])
  {
    hide Target, Leads;
    var more := links[entries[i].path := Target(entries[i]).value];
    var before, after := multiset(entries[..i]), multiset(entries[..i + 1]);
    forall p, q ensures p in more && more[p] == q <==> Leads(after, p, q) {
      assert p in links && links[p] == q <==> Leads(before, p, q);
      LinksGrow(entries, i, p, q);
    }
  }

  lemma NoLinkAdded(entries: seq<Entry>, i: nat, links: map<Path, Path>)
    requires i < |entries| && LinksOf(links, entries[..i]) && !entries[i].link
    ensures LinksOf(links, entries[..i + 1])
  {
    hide Target, Leads;
    var before, after := multiset(entries[..i]), multiset(entries[..i + 1]);
    forall p, q ensures p in links && links[p] == q <==> Leads(after, p, q) {
      assert p in links && links[p] == q <==> Leads(before, p, q);
      LinksGrow(entries, i, p, q);
    }
  }

  /** The targets of all links; false when one of them has none. */
  method ResolveLinks(entries: seq<Entry>) returns (links: map<Path, Path>, ok: bool)
    requires TreeList(entries)
    ensures ok <==> forall e | e in multiset(entries) && e.link :: Target(e).Some?
    ensures ok ==> LinksOf(links, entries)
  {
    hide Target, LinksOf;
    links := map[];
    assert LinksOf(links, entries[..0]) by { NoLinks(); assert entries[..0] == []; }
    var i := 0;
    while i < |entries|
      invariant 0 <= i <= |entries| && LinksOf(links, entries[..i])
      invariant forall k :: 0 <= k < i && entries[k].link ==> Target(entries[k]).Some?
      invariant forall p :: p in links ==> exists k :: 0 <= k < i && entries[k].path == p
    {
      var e := entries[i];
      if e.link {
        var target := ResolvedLinkTarget(e);
        if target.None? {
          InTree(entries, i);
          return links, false;
        }
        assert e.path !in links;
        LinkAdded(entries, i, links);
        links := links[e.path := target.value];
        assert entries[i].path == e.path;
      } else {
        NoLinkAdded(entries, i, links);
      }
      i := i + 1;
    }
    forall e | e in multiset(entries) && e.link ensures Target(e).Some? {
      var k := IndexOf(entries, e);
      assert entries[k].link;
    }
    assert entries[..i] == entries;
    ok := true;
  }

  lemma NoLinks()
    ensures LinksOf(map[], [])
  {
  }

  /** Every link is a link in the table of kinds, and the other way round. */
  lemma LinksAreKinds(entries: seq<Entry>, kinds: map<Path, Kind>, links: map<Path, Path>)
    requires TreeList(entries) && KindsOf(kinds, entries) && LinksOf(links, entries)
    requires forall e | e in multiset(entries) && e.link :: Target(e).Some?
    ensures forall p :: p in links <==> p in kinds && kinds[p] == Symlink
  {
    hide Target, KindsOf;
    var tree := multiset(entries);
    forall p ensures p in links <==> p in kinds && kinds[p] == Symlink {
      KindsTell(entries, kinds, p);
      if p in links {
        assert Leads(tree, p, links[p]);
      }
      if p in kinds && kinds[p] == Symlink {
        var e :| e in tree && e.link && e.path == p;
        assert Leads(tree, p, Target(e).value);
      }
    }
  }

  lemma ChainsAgree(entries: seq<Entry>, kinds: map<Path, Kind>, links: map<Path, Path>, p: Path)
    requires TreeList(entries) && KindsOf(kinds, entries) && LinksOf(links, entries)
    ensures Stops(kinds, links, p) <==> Ending(multiset(entries), p)
  {
    hide KindsOf, LinksOf, Follows, Ends;
    forall hops: nat ensures Follows(kinds, links, p, hops) <==> Ends(multiset(entries), p, hops) {
      FollowsIsEnds(entries, kinds, links, p, hops);
    }
    if Stops(kinds, links, p) {
      var hops: nat :| Follows(kinds, links, p, hops);
      assert Ends(multiset(entries), p, hops);
    }
    if hops: nat :| Ends(multiset(entries), p, hops) {
      assert Follows(kinds, links, p, hops);
    }
  }

  /** Accepts exactly the trees without clashing paths in which every chain of links ends at a
      recorded file or directory. The order of the entries does not matter. */
  method ValidateSymlinks(entries: seq<Entry>) returns (ok: bool)
    requires forall i :: 0 <= i < |entries| ==> entries[i].path != []
    ensures ok <==> Sound(multiset(entries))
  {
    hide KindsOf, LinksOf, Ends, Target, Stops;
    TreeListIsTree(entries);
    var kinds, tree := RecordKinds(entries);
    if !tree { return false; }
    var links, resolved := ResolveLinks(entries);
    if !resolved { return false; }
    LinksAreKinds(entries, kinds, links);
    forall p ensures Stops(kinds, links, p) <==> Ending(multiset(entries), p) {
      ChainsAgree(entries, kinds, links, p);
    }
    var i := 0;
    while i < |entries|
      invariant 0 <= i <= |entries|
      invariant forall k :: 0 <= k < i && entries[k].link ==> Stops(kinds, links, entries[k].path)
    {
      var e := entries[i];
      if e.link {
        InTree(entries, i);
        KindsTell(entries, kinds, e.path);
        var stops := FollowChain(kinds, links, e.path);
        if !stops { return false; }
      }
      i := i + 1;
    }
    forall e | e in multiset(entries) && e.link ensures Ending(multiset(entries), e.path) {
      var k := IndexOf(entries, e);
      assert Stops(kinds, links, entries[k].path);
    }
    return true;
  }
}
